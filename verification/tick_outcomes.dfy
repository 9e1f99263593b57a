/**
 What a tick does with the steps themselves, said of the rows and of what the outside world answers:
 who is restarted, failed, timed out or resumed, who is started and who has to wait
 (src/agent/coordinator_graph.py, coordinator_nodes/tick_actions.py).
 */
module TickOutcomes {
  import opened Common
  import opened TaskRows
  import opened PlanRuns
  import opened TeamTaskStore
  import opened Ticker
  import opened Progress
  import opened Completion
  import opened ReviewOutcomes

  // ---------------------------------------------------------------------------------------
  // Polling
  // ---------------------------------------------------------------------------------------

  /** Its process is gone, or was never recorded, and it has left no result. */
  predicate Gone(env: Env, r: Row) {
    !r.hasOutcome && (r.pid == None || !env.pidAlive(r.pid.value))
  }

  /** A running row the ticker has to do something about. */
  predicate Overdue(env: Env, r: Row) {
    r.status == Running && (Gone(env, r) || env.leaseExpired(r.step.stepId))
  }

  /** A row awaiting an approval that has been decided. */
  predicate Decided(env: Env, r: Row) {
    r.status == AwaitingApproval && r.approvalId.Some? && r.approvalId.value != 0 && env.approval(r.approvalId.value) != Undecided
  }

  /** The tick gets as far as polling: the hash and the cap hold and no row calls for a review. */
  ghost predicate Polls(env: Env, st: TickState) {
    HashVerified(st.task) && UniqueRows(st.task.rows) && Spent(st.task) <= env.cap && forall j: nat :: !Calls(env, st.task.rows, j)
  }

  predicate FirstOverdue(env: Env, rows: seq<Row>, i: nat) {
    i < |rows| && Overdue(env, rows[i]) && forall j :: 0 <= j < i ==> !Overdue(env, rows[j])
  }

  predicate NoneOverdue(env: Env, rows: seq<Row>) {
    forall j :: 0 <= j < |rows| ==> !Overdue(env, rows[j])
  }

  predicate FirstDecided(env: Env, rows: seq<Row>, i: nat) {
    i < |rows| && Decided(env, rows[i]) && forall j :: 0 <= j < i ==> !Decided(env, rows[j])
  }

  predicate NoneDecided(env: Env, rows: seq<Row>) {
    forall j :: 0 <= j < |rows| ==> !Decided(env, rows[j])
  }

  /** The row under a fresh lease, with the process just spawned for it. */
  function Launched(env: Env, r: Row, lease: nat): Row {
    r.(status := Running, attempt := Some(lease), pid := Some(env.spawnPid(r.step.stepId, lease)), approvalId := None)
  }

  lemma PollsOn(env: Env, st: TickState)
    requires Polls(env, st)
    ensures Act(env, st) == PollOrStart(env, st)
  {
    var rows := st.task.rows;
    if FirstReview(env, rows) < |rows| { CallsIff(env, rows, FirstReview(env, rows)); }
  }

  lemma OverdueIs(env: Env, st: TickState, i: nat)
    requires i < |st.task.rows|
    ensures RunningActs(env, st, i) <==> Overdue(env, st.task.rows[i])
    ensures AwaitingActs(env, st, i) <==> Decided(env, st.task.rows[i])
  {
  }

  lemma FirstOverdueIs(env: Env, st: TickState)
    ensures forall i: nat :: FirstOverdue(env, st.task.rows, i) <==> i < |st.task.rows| && FirstRunning(env, st) == i
    ensures NoneOverdue(env, st.task.rows) <==> FirstRunning(env, st) == |st.task.rows|
    ensures forall i: nat :: FirstDecided(env, st.task.rows, i) <==> i < |st.task.rows| && FirstAwaiting(env, st) == i
    ensures NoneDecided(env, st.task.rows) <==> FirstAwaiting(env, st) == |st.task.rows|
  {
    forall i: nat | i < |st.task.rows|
      ensures RunningActs(env, st, i) <==> Overdue(env, st.task.rows[i])
      ensures AwaitingActs(env, st, i) <==> Decided(env, st.task.rows[i])
    {
      OverdueIs(env, st, i);
    }
  }

  /**
   The first overdue row. A dead worker is restarted once under a fresh lease and failed the second
   time, or at once if its assignee has left; a live one past its lease is timed out. Nothing else
   changes.
   */
  lemma OverdueOutcome(env: Env, st: TickState, i: nat)
    requires Polls(env, st) && FirstOverdue(env, st.task.rows, i)
    ensures var r, rows := st.task.rows[i], st.task.rows;
            var id := r.step.stepId;
            var before := if id in st.retries then st.retries[id] else 0;
            var again := Gone(env, r) && before < MAX_STEP_RETRIES;
            var r' := if again && env.rosterOk(r.step.assignedTo) then Launched(env, r, st.leases)
                      else if Gone(env, r) then r.(status := Failed) else r.(status := TimedOut);
            Act(env, st).st == TickState(st.task.(rows := rows[i := r']),
                                         if again then st.retries[id := before + 1] else if Gone(env, r) then st.retries - {id} else st.retries,
                                         if r'.status == Running then st.leases + 1 else st.leases)
  {
    PollsOn(env, st);
    FirstOverdueIs(env, st);
  }

  /** The first decided approval: a yes resumes the row under a fresh lease if its assignee is still there, anything else fails it. */
  lemma DecidedOutcome(env: Env, st: TickState, i: nat)
    requires Polls(env, st) && NoneOverdue(env, st.task.rows) && FirstDecided(env, st.task.rows, i)
    ensures var r, rows := st.task.rows[i], st.task.rows;
            var resumed := env.approval(r.approvalId.value) == Approved && env.rosterOk(r.step.assignedTo);
            Act(env, st).st == TickState(st.task.(rows := rows[i := if resumed then Launched(env, r, st.leases) else r.(status := Failed)]),
                                         st.retries, if resumed then st.leases + 1 else st.leases)
  {
    PollsOn(env, st);
    FirstOverdueIs(env, st);
  }

  // ---------------------------------------------------------------------------------------
  // Starting
  // ---------------------------------------------------------------------------------------

  /** A pending row all of whose deps are finished. */
  predicate Startable(rows: seq<Row>, i: nat) {
    && i < |rows| && rows[i].status == Pending
    && forall d :: d in rows[i].step.deps ==> exists j :: 0 <= j < |rows| && rows[j].step.stepId == d && rows[j].status == Done
  }

  /** How many rows above this one could be started. */
  function StartableAbove(rows: seq<Row>, i: nat): nat {
    |set j: nat | j < i && Startable(rows, j)|
  }

  lemma StartableIs(rows: seq<Row>, i: nat)
    requires i < |rows|
    ensures Startable(rows, i) <==> Ready(rows, i)
  {
    forall d
      ensures DoneRow(rows, d) <==> exists j :: 0 <= j < |rows| && rows[j].step.stepId == d && rows[j].status == Done
    {
    }
  }

  lemma {:induction false} ReadyCounted(rows: seq<Row>, i: nat)
    requires i <= |rows|
    ensures |ReadyBelow(rows, i)| == StartableAbove(rows, i)
  {
    if i > 0 {
      ReadyCounted(rows, i - 1);
      StartableIs(rows, i - 1);
      OneMoreAbove(rows, i - 1);
    } else {
      assert (set j: nat | j < i && Startable(rows, j)) == {};
    }
  }

  lemma OneMoreAbove(rows: seq<Row>, i: nat)
    ensures StartableAbove(rows, i + 1) == StartableAbove(rows, i) + if Startable(rows, i) then 1 else 0
  {
    var front := set j: nat | j < i && Startable(rows, j);
    assert (set j: nat | j < i + 1 && Startable(rows, j)) == front + if Startable(rows, i) then {i} else {};
  }

  /** A startable row stands in the ready list behind the startable rows above it. */
  lemma {:induction false} ReadyPlace(rows: seq<Row>, i: nat, n: nat)
    requires i < n <= |rows| && Ready(rows, i)
    ensures |ReadyBelow(rows, i)| < |ReadyBelow(rows, n)| && ReadyBelow(rows, n)[|ReadyBelow(rows, i)|] == i
  {
    if i < n - 1 { ReadyPlace(rows, i, n - 1); }
  }

  /** The row has been started by its assignee, or failed because the assignee has left. */
  predicate StartedNow(env: Env, r: Row, r': Row) {
    if env.rosterOk(r.step.assignedTo) then r'.attempt.Some? && r' == Launched(env, r, r'.attempt.value) else r' == r.(status := Failed)
  }

  /** Listed among the first `k`. */
  predicate Among(places: seq<nat>, k: nat, i: nat) {
    exists m :: 0 <= m < k && m < |places| && places[m] == i
  }

  lemma AmongNext(places: seq<nat>, k: nat, i: nat)
    requires k < |places|
    ensures Among(places, k + 1, i) <==> Among(places, k, i) || places[k] == i
  {
  }

  /** Of the listed rows exactly the first `k` have been started, each once. */
  lemma {:induction false} StartedFirst(env: Env, st: TickState, places: seq<nat>, k: nat, i: nat)
    requires k <= |places| && ReadyPlaces(st.task.rows, places) && i < |st.task.rows|
    ensures Places(st.task.rows, places)
    ensures var r, r' := st.task.rows[i], SpawnFirst(env, st, places, k).st.task.rows[i];
            if Among(places, k, i) then StartedNow(env, r, r') else r' == r
  {
    if k > 0 {
      StartedFirst(env, st, places, k - 1, i);
      AmongNext(places, k - 1, i);
      if places[k - 1] == i {
        assert forall m :: 0 <= m < k - 1 ==> places[m] != i;
      }
    }
  }

  /** The quota reaches past `c` exactly if there is room at every turn up to `c`. */
  lemma {:induction false} QuotaReaches(env: Env, t: TeamTask, n: nat, k: nat, c: nat)
    requires k <= c < n && env.cap >= 0.0
    ensures c < Quota(env, t, n, k) <==> Room(env, t, c)
    decreases n - k
  {
    if Room(env, t, c) { RoomBefore(env, t, k, c); }
    if Room(env, t, k) && k < c { QuotaReaches(env, t, n, k + 1, c); }
  }

  lemma RoomBefore(env: Env, t: TeamTask, k: nat, c: nat)
    requires k <= c && env.cap >= 0.0 && Room(env, t, c)
    ensures Room(env, t, k)
  {
    assert k as real * Estimate(env.cap) <= c as real * Estimate(env.cap);
  }

  lemma RoomIsFit(env: Env, t: TeamTask, c: nat)
    ensures Room(env, t, c) <==> Fits(env, t, RunningCount(t.rows) + c + 1)
  {
    var share, running := Estimate(env.cap), RunningCount(t.rows);
    assert (running + c + 1) as real * share == running as real * share + c as real * share + share;
  }

  /**
   Nothing to review and nothing to poll: the tick starts exactly the startable rows that, together
   with the running ones and the startable ones above them, fit the slots and the cap.
   */
  lemma StartedIff(env: Env, st: TickState, i: nat)
    requires Polls(env, st) && NoneOverdue(env, st.task.rows) && NoneDecided(env, st.task.rows) && env.cap >= 0.0
    requires i < |st.task.rows|
    ensures var rows, rows' := st.task.rows, Act(env, st).st.task.rows;
            && |rows'| == |rows|
            && if Startable(rows, i) && Fits(env, st.task, RunningCount(rows) + StartableAbove(rows, i) + 1)
               then StartedNow(env, rows[i], rows'[i]) else rows'[i] == rows[i]
  {
    PollsOn(env, st);
    StartOrWrap(env, st);
    DispatchedIff(env, st, i);
  }

  lemma DispatchedIff(env: Env, st: TickState, i: nat)
    requires i < |st.task.rows| && env.cap >= 0.0
    ensures var rows, rows' := st.task.rows, Dispatch(env, st).st.task.rows;
            && |rows'| == |rows|
            && if Startable(rows, i) && Fits(env, st.task, RunningCount(rows) + StartableAbove(rows, i) + 1)
               then StartedNow(env, rows[i], rows'[i]) else rows'[i] == rows[i]
  {
    var ready := ReadyBelow(st.task.rows, |st.task.rows|);
    ReadyListed(st.task.rows, |st.task.rows|);
    StartedFirst(env, st, ready, Quota(env, st.task, |ready|, 0), i);
    InQuota(env, st, i);
  }

  lemma InQuota(env: Env, st: TickState, i: nat)
    requires i < |st.task.rows| && env.cap >= 0.0
    ensures var ready := ReadyBelow(st.task.rows, |st.task.rows|);
            Among(ready, Quota(env, st.task, |ready|, 0), i) <==>
              Startable(st.task.rows, i) && Fits(env, st.task, RunningCount(st.task.rows) + StartableAbove(st.task.rows, i) + 1)
  {
    var rows := st.task.rows;
    var ready, c := ReadyBelow(rows, |rows|), |ReadyBelow(rows, i)|;
    ReadyListed(rows, |rows|);
    StartableIs(rows, i);
    if Ready(rows, i) {
      ReadyPlace(rows, i, |rows|);
      ReadyCounted(rows, i);
      QuotaReaches(env, st.task, |ready|, 0, c);
      RoomIsFit(env, st.task, c);
    }
  }

  lemma StartOrWrap(env: Env, st: TickState)
    requires NoneOverdue(env, st.task.rows) && NoneDecided(env, st.task.rows)
    ensures PollOrStart(env, st).st.task.rows == Dispatch(env, st).st.task.rows
  {
    FirstOverdueIs(env, st);
  }

  /** Whatever the tick does, a row it moves out of `pending` had all its deps finished. */
  lemma StartedWhenDepsDone(env: Env, st: TickState, i: nat)
    requires i < |st.task.rows| && st.task.rows[i].status == Pending
    requires i < |Act(env, st).st.task.rows| && Act(env, st).st.task.rows[i].status != Pending
    ensures forall d :: d in st.task.rows[i].step.deps ==>
              exists j :: 0 <= j < |st.task.rows| && st.task.rows[j].step.stepId == d && st.task.rows[j].status == Done
  {
    var rows := st.task.rows;
    if FirstReview(env, rows) == |rows| && FirstRunning(env, st) == |rows| && FirstAwaiting(env, st) == |rows| {
      var ready := ReadyBelow(rows, |rows|);
      ReadyListed(rows, |rows|);
      StartedFirst(env, st, ready, Quota(env, st.task, |ready|, 0), i);
      StartableIs(rows, i);
    }
  }

  // ---------------------------------------------------------------------------------------
  // The end of the tick
  // ---------------------------------------------------------------------------------------

  /** Spending past the cap stalls the task before anything else is looked at. */
  lemma CapStallIff(env: Env, st: TickState)
    ensures Act(env, st).action == CapExceeded <==> HashVerified(st.task) && Spent(st.task) > env.cap
    ensures Act(env, st).action == CapExceeded ==> Act(env, st).st == st.(task := st.task.(status := Stalled))
  {
  }

  /** With every row finished and no review due the task is completed, and the aggregation is charged to it. */
  lemma ConcludedOutcome(env: Env, st: TickState)
    requires Polls(env, st) && st.task.rows != [] && forall j :: 0 <= j < |st.task.rows| ==> st.task.rows[j].status == Done
    ensures var t, extra := st.task, if env.aggregateCost.Some? then env.aggregateCost.value else 0.0;
            Act(env, st) == Outcome(Aggregated, st.(task := t.(status := Completed, aggregateCost := t.aggregateCost + extra)))
  {
    PollsOn(env, st);
    FirstOverdueIs(env, st);
    assert forall j :: 0 <= j < |st.task.rows| ==> !Ready(st.task.rows, j);
    DispatchIdle(env, st);
  }

  /** A task that cannot be finished any more is stalled, exactly when a step is dead and nothing is in flight or can be started. */
  lemma DeadEndIff(env: Env, st: TickState)
    requires Polls(env, st) && NoneOverdue(env, st.task.rows) && NoneDecided(env, st.task.rows)
    ensures Act(env, st).action == DeadEndStall <==>
              && (exists i :: 0 <= i < |st.task.rows| && (st.task.rows[i].status == Failed || st.task.rows[i].status == TimedOut))
              && (forall i :: 0 <= i < |st.task.rows| ==> st.task.rows[i].status != Running && st.task.rows[i].status != AwaitingApproval)
              && ((forall i: nat :: !Startable(st.task.rows, i)) || !Room(env, st.task, 0))
    ensures Act(env, st).action == DeadEndStall ==> Act(env, st).st == st.(task := st.task.(status := Stalled))
  {
    PollsOn(env, st);
    FirstOverdueIs(env, st);
    DispatchIdle(env, st);
    forall i: nat | i < |st.task.rows|
      ensures Startable(st.task.rows, i) <==> Ready(st.task.rows, i)
    {
      StartableIs(st.task.rows, i);
    }
    DeadIs(st.task.rows);
  }

  lemma DeadIs(rows: seq<Row>)
    ensures SomeDead(rows) <==> exists i :: 0 <= i < |rows| && (rows[i].status == Failed || rows[i].status == TimedOut)
    ensures SomeInFlight(rows) <==> exists i :: 0 <= i < |rows| && (rows[i].status == Running || rows[i].status == AwaitingApproval)
  {
    if i :| 0 <= i < |rows| && (rows[i].status == Failed || rows[i].status == TimedOut) { assert DeadRow(rows[i]); }
    if i :| 0 <= i < |rows| && (rows[i].status == Running || rows[i].status == AwaitingApproval) { assert InFlightRow(rows[i]); }
  }
}
