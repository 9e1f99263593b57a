/**
 Tick by tick to the end: a confirmed plan whose steps all succeed is finished, and what the
 coordinator's own limits do and do not bound (src/agent/coordinator_graph.py, tick_actions.py).
 */
module Completion {
  import opened Common
  import opened Planning
  import opened TaskRows
  import opened PlanRuns
  import opened TeamTaskStore
  import opened Ticker
  import opened Progress
  import opened LiveTasks
  import opened Standstill

  // ---------------------------------------------------------------------------------------
  // A task whose steps all succeed is finished
  // ---------------------------------------------------------------------------------------

  /** The worker of a running step delivers, at this cost. */
  function Delivered(r: Row, cost: real): Row {
    Written(r, StatusWrite(Done, true, Some(cost), None, r.attempt))
  }

  function DeliverFirst(rows: seq<Row>, cost: string -> real, k: nat): (r: seq<Row>)
    requires k <= |rows|
    ensures |r| == |rows|
  {
    if k == 0 then rows
    else
      var before := DeliverFirst(rows, cost, k - 1);
      if rows[k - 1].status == Running then before[k - 1 := Delivered(rows[k - 1], cost(rows[k - 1].step.stepId))]
      else before
  }

  /** Every running step delivers. */
  function DeliverAll(t: TeamTask, cost: string -> real): TeamTask {
    t.(rows := DeliverFirst(t.rows, cost, |t.rows|))
  }

  /** One tick, after which every step it started delivers before the next one. */
  function Round(env: Env, cost: string -> real, st: TickState): TickState {
    var after := Act(env, st).st;
    after.(task := DeliverAll(after.task, cost))
  }

  function Rounds(env: Env, cost: string -> real, st: TickState, n: nat): TickState
    decreases n
  {
    if n == 0 then st else Rounds(env, cost, Round(env, cost, st), n - 1)
  }

  /** No step asks for peer review, and no pending step has been charged yet. */
  predicate Plain(rows: seq<Row>) {
    forall i :: 0 <= i < |rows| ==>
      rows[i].stepType == Work && !rows[i].needsReview && (rows[i].status == Pending ==> rows[i].cost.None?)
  }

  function PendingCount(rows: seq<Row>): nat {
    if rows == [] then 0
    else PendingCount(rows[..|rows| - 1]) + if rows[|rows| - 1].status == Pending then 1 else 0
  }

  /** What the pending steps are going to cost. */
  function PendingCost(rows: seq<Row>, cost: string -> real): real {
    if rows == [] then 0.0
    else PendingCost(rows[..|rows| - 1], cost)
         + if rows[|rows| - 1].status == Pending then cost(rows[|rows| - 1].step.stepId) else 0.0
  }

  /** `r'` is `r`, or `r` was pending and is now running under some process. */
  predicate StartedOrSame(r: Row, r': Row) {
    r' == r || (r.status == Pending && r'.status == Running && SameBut(r, r') && r'.cost == r.cost && r'.pid.Some?)
  }

  predicate SameBut(r: Row, r': Row) {
    r'.step == r.step && r'.systemInserted == r.systemInserted && r'.stepType == r.stepType && r'.needsReview == r.needsReview
  }

  predicate AllStartedOrSame(rows: seq<Row>, rows': seq<Row>) {
    |rows'| == |rows| && forall i :: 0 <= i < |rows| ==> StartedOrSame(rows[i], rows'[i])
  }

  lemma {:induction false} SpawnedRows(env: Env, st: TickState, places: seq<nat>, k: nat)
    requires Sound(st.task) && ReadyPlaces(st.task.rows, places) && k <= |places|
    requires forall who :: env.rosterOk(who)
    ensures Places(st.task.rows, places)
    ensures SpawnedTo(st.task, SpawnFirst(env, st, places, k).st.task, if k == 0 then None else Some(places[0]))
  {
    if k > 0 {
      SpawnedRows(env, st, places, k - 1);
      NextIsPending(env, st, places, k - 1);
      var before := SpawnFirst(env, st, places, k - 1).st;
      OneMoreStarted(env, st.task, before, if k == 1 then None else Some(places[0]), places[k - 1]);
    }
  }

  lemma NextIsPending(env: Env, st: TickState, places: seq<nat>, k: nat)
    requires Sound(st.task) && ReadyPlaces(st.task.rows, places) && k < |places|
    ensures Places(st.task.rows, places)
    ensures SpawnFirst(env, st, places, k).st.task.rows[places[k]].status == Pending
  {
    SpawnFirstKeeps(env, st, places, k);
  }

  /** Some rows of the task were started, row `first` among them; the header is unchanged. */
  predicate SpawnedTo(t: TeamTask, t': TeamTask, first: Option<nat>) {
    && t' == t.(rows := t'.rows) && AllStartedOrSame(t.rows, t'.rows)
    && (first.Some? ==> first.value < |t'.rows| && t'.rows[first.value].status == Running)
  }

  lemma OneMoreStarted(env: Env, t: TeamTask, st: TickState, first: Option<nat>, i: nat)
    requires SpawnedTo(t, st.task, first) && i < |t.rows| && st.task.rows[i].status == Pending
    requires forall who :: env.rosterOk(who)
    ensures SpawnedTo(t, Spawn(env, st, i).st.task, if first.Some? then first else Some(i))
  {
    assert StartedOrSame(t.rows[i], st.task.rows[i]);
    var rows, rows' := st.task.rows, Spawn(env, st, i).st.task.rows;
    forall j | 0 <= j < |t.rows|
      ensures StartedOrSame(t.rows[j], rows'[j])
    {
      assert StartedOrSame(t.rows[j], rows[j]);
    }
  }

  lemma NoReviews(env: Env, rows: seq<Row>)
    requires Plain(rows)
    ensures FirstReview(env, rows) == |rows|
  {
    forall i: nat | i < |rows|
      ensures !ReviewDue(env, rows, i)
    {
    }
  }

  /** In a quiet task with room for a step, the tick starts steps. */
  lemma TickStarts(env: Env, st: TickState)
    requires Sound(st.task) && Quiet(st.task.rows) && !AllDone(st.task.rows) && Plain(st.task.rows)
    requires Spent(st.task) <= env.cap && Room(env, st.task, 0)
    ensures Act(env, st) == Dispatch(env, st)
    ensures Quota(env, st.task, |ReadyBelow(st.task.rows, |st.task.rows|)|, 0) > 0
  {
    SoundHash(st.task);
    assert !SomeInFlight(st.task.rows);
    NothingToPoll(env, st);
    NoReviews(env, st.task.rows);
    var i := ReadyExists(st.task);
    DispatchIdle(env, st);
  }

  predicate DeliveredOrSame(r: Row, r': Row, cost: string -> real) {
    r' == r || (r.status == Pending && r'.status == Done && SameBut(r, r') && r'.cost == Some(cost(r.step.stepId)))
  }

  /** Each row is as it was, or was pending and is now done at its cost. */
  predicate AllDeliveredOrSame(rows: seq<Row>, rows': seq<Row>, cost: string -> real) {
    |rows'| == |rows| && forall i :: 0 <= i < |rows| ==> DeliveredOrSame(rows[i], rows'[i], cost)
  }

  lemma {:induction false} DeliveredRows(rows: seq<Row>, cost: string -> real, k: nat)
    requires k <= |rows|
    ensures forall i :: 0 <= i < |rows| ==>
              DeliverFirst(rows, cost, k)[i] ==
                if i < k && rows[i].status == Running then Delivered(rows[i], cost(rows[i].step.stepId)) else rows[i]
  {
    if k > 0 { DeliveredRows(rows, cost, k - 1); }
  }

  lemma {:induction false} DeliverKeeps(t: TeamTask, cost: string -> real, k: nat)
    requires Sound(t) && k <= |t.rows|
    ensures Sound(t.(rows := DeliverFirst(t.rows, cost, k)))
  {
    if k > 0 {
      DeliverKeeps(t, cost, k - 1);
      if t.rows[k - 1].status == Running {
        DeliveredRows(t.rows, cost, k - 1);
        AdvanceSound(t.(rows := DeliverFirst(t.rows, cost, k - 1)), k - 1,
                     Delivered(t.rows[k - 1], cost(t.rows[k - 1].step.stepId)));
      }
    }
  }

  lemma QuietStarted(rows: seq<Row>, mid: seq<Row>, rows': seq<Row>, cost: string -> real)
    requires Quiet(rows) && AllStartedOrSame(rows, mid) && |rows'| == |mid|
    requires forall i :: 0 <= i < |mid| ==>
               rows'[i] == if mid[i].status == Running then Delivered(mid[i], cost(mid[i].step.stepId)) else mid[i]
    ensures AllDeliveredOrSame(rows, rows', cost)
    ensures forall i :: 0 <= i < |mid| && mid[i].status == Running ==> rows'[i].status != Pending && rows[i].status == Pending
  {
    forall i | 0 <= i < |rows|
      ensures DeliveredOrSame(rows[i], rows'[i], cost)
    {
      assert StartedOrSame(rows[i], mid[i]);
    }
    forall i | 0 <= i < |mid| && mid[i].status == Running
      ensures rows'[i].status != Pending && rows[i].status == Pending
    {
      assert StartedOrSame(rows[i], mid[i]);
    }
  }

  /** Delivering moves the cost of the pending steps into what is spent. */
  lemma {:induction false} CostMoves(rows: seq<Row>, rows': seq<Row>, cost: string -> real)
    requires AllDeliveredOrSame(rows, rows', cost) && Plain(rows)
    ensures CostSum(rows') + PendingCost(rows', cost) == CostSum(rows) + PendingCost(rows, cost)
    ensures PendingCount(rows') <= PendingCount(rows)
  {
    if rows != [] {
      var n := |rows| - 1;
      assert DeliveredOrSame(rows[n], rows'[n], cost);
      CostMoves(rows[..n], rows'[..n], cost);
    }
  }

  lemma {:induction false} CountDrops(rows: seq<Row>, rows': seq<Row>, cost: string -> real, i: nat)
    requires AllDeliveredOrSame(rows, rows', cost) && Plain(rows)
    requires i < |rows| && rows[i].status == Pending && rows'[i].status != Pending
    ensures PendingCount(rows') < PendingCount(rows)
  {
    var n := |rows| - 1;
    assert DeliveredOrSame(rows[n], rows'[n], cost);
    if i == n {
      CostMoves(rows[..n], rows'[..n], cost);
    } else {
      CountDrops(rows[..n], rows'[..n], cost, i);
    }
  }

  lemma {:induction false} NonePending(rows: seq<Row>, cost: string -> real)
    requires Quiet(rows)
    ensures PendingCount(rows) == 0 <==> AllDone(rows)
    ensures (forall id :: cost(id) >= 0.0) ==> PendingCost(rows, cost) >= 0.0
  {
    if rows != [] {
      NonePending(rows[..|rows| - 1], cost);
      assert AllDone(rows) <==> AllDone(rows[..|rows| - 1]) && rows[|rows| - 1].status == Done;
    }
  }

  /** What holds between rounds. */
  ghost predicate OnTrack(env: Env, cost: string -> real, t: TeamTask) {
    && Sound(t) && Quiet(t.rows) && Plain(t.rows)
    && Spent(t) + PendingCost(t.rows, cost) <= env.cap - Estimate(env.cap)
  }

  lemma RoundRows(env: Env, cost: string -> real, st: TickState) returns (i: nat)
    requires Sound(st.task) && Quiet(st.task.rows) && !AllDone(st.task.rows) && Plain(st.task.rows)
    requires Spent(st.task) <= env.cap && Room(env, st.task, 0)
    requires forall who :: env.rosterOk(who)
    ensures var t := Round(env, cost, st).task;
            && t == st.task.(rows := t.rows) && Sound(t) && AllDeliveredOrSame(st.task.rows, t.rows, cost)
            && i < |t.rows| && st.task.rows[i].status == Pending && t.rows[i].status != Pending
  {
    var mid;
    mid, i := TickRows(env, st);
    DeliverKeeps(mid, cost, |mid.rows|);
    DeliveredRows(mid.rows, cost, |mid.rows|);
    QuietStarted(st.task.rows, mid.rows, DeliverAll(mid, cost).rows, cost);
  }

  /** What one tick of a quiet, unfinished task does: some ready rows are running now. */
  lemma TickRows(env: Env, st: TickState) returns (mid: TeamTask, i: nat)
    requires Sound(st.task) && Quiet(st.task.rows) && !AllDone(st.task.rows) && Plain(st.task.rows)
    requires Spent(st.task) <= env.cap && Room(env, st.task, 0)
    requires forall who :: env.rosterOk(who)
    ensures mid == Act(env, st).st.task && Sound(mid) && SpawnedTo(st.task, mid, Some(i))
  {
    TickStarts(env, st);
    var ready := ReadyBelow(st.task.rows, |st.task.rows|);
    var q := Quota(env, st.task, |ready|, 0);
    ReadyListed(st.task.rows, |st.task.rows|);
    SpawnedRows(env, st, ready, q);
    SpawnFirstKeeps(env, st, ready, q);
    mid, i := SpawnFirst(env, st, ready, q).st.task, ready[0];
  }

  lemma RoundOnTrack(env: Env, cost: string -> real, st: TickState)
    requires OnTrack(env, cost, st.task) && !AllDone(st.task.rows)
    requires env.concurrency >= 1 && env.cap >= 0.0
    requires (forall who :: env.rosterOk(who)) && (forall id :: cost(id) >= 0.0)
    ensures OnTrack(env, cost, Round(env, cost, st).task)
    ensures PendingCount(Round(env, cost, st).task.rows) < PendingCount(st.task.rows)
  {
    NonePending(st.task.rows, cost);
    assert !SomeInFlight(st.task.rows);
    NothingToPoll(env, st);
    var i := RoundRows(env, cost, st);
    var rows, rows' := st.task.rows, Round(env, cost, st).task.rows;
    CostMoves(rows, rows', cost);
    CountDrops(rows, rows', cost, i);
    forall k | 0 <= k < |rows|
      ensures DeliveredOrSame(rows[k], rows'[k], cost)
    {
    }
  }

  /** A finished task is aggregated by the next tick. */
  lemma LastRound(env: Env, cost: string -> real, st: TickState)
    requires OnTrack(env, cost, st.task) && AllDone(st.task.rows) && env.cap >= 0.0
    requires forall id :: cost(id) >= 0.0
    ensures Round(env, cost, st).task.status == Completed
  {
    SoundHash(st.task);
    NonePending(st.task.rows, cost);
    assert !SomeInFlight(st.task.rows);
    NothingToPoll(env, st);
    DispatchIdle(env, st);
    NoReviews(env, st.task.rows);
  }

  /**
   A confirmed plan without peer reviews, whose steps all deliver and whose costs leave one step's
   share of the cap, is completed within one tick more than it has pending steps.
   */
  lemma {:induction false} FaultFreeTaskCompletes(env: Env, cost: string -> real, st: TickState) returns (n: nat)
    requires OnTrack(env, cost, st.task)
    requires env.concurrency >= 1 && env.cap >= 0.0
    requires (forall who :: env.rosterOk(who)) && (forall id :: cost(id) >= 0.0)
    ensures n <= PendingCount(st.task.rows) + 1
    ensures Rounds(env, cost, st, n).task.status == Completed
    decreases PendingCount(st.task.rows)
  {
    if AllDone(st.task.rows) {
      LastRound(env, cost, st);
      n := 1;
      OneMoreRound(env, cost, st, 0);
    } else {
      RoundOnTrack(env, cost, st);
      var m := FaultFreeTaskCompletes(env, cost, Round(env, cost, st));
      OneMoreRound(env, cost, st, m);
      n := m + 1;
    }
  }

  lemma OneMoreRound(env: Env, cost: string -> real, st: TickState, m: nat)
    requires Rounds(env, cost, Round(env, cost, st), m).task.status == Completed
    ensures Rounds(env, cost, st, m + 1).task.status == Completed
  {
    RoundsUnfold(env, cost, st, m);
  }

  lemma RoundsUnfold(env: Env, cost: string -> real, st: TickState, m: nat)
    ensures Rounds(env, cost, st, m + 1) == Rounds(env, cost, Round(env, cost, st), m)
    ensures m == 0 ==> Rounds(env, cost, st, m + 1) == Round(env, cost, st)
  {
  }

  // ---------------------------------------------------------------------------------------
  // What the tick's limits bound
  // ---------------------------------------------------------------------------------------

  lemma {:induction false} RunningAfter(rows: seq<Row>, i: nat, r: Row)
    requires i < |rows|
    ensures RunningCount(rows[i := r]) == RunningCount(rows) - (if rows[i].status == Running then 1 else 0)
                                          + (if r.status == Running then 1 else 0)
  {
    var n := |rows| - 1;
    if i == n {
      assert rows[i := r][..n] == rows[..n];
    } else {
      assert rows[i := r][..n] == rows[..n][i := r];
      RunningAfter(rows[..n], i, r);
    }
  }

  lemma {:induction false} RunningAfterSpawns(env: Env, st: TickState, places: seq<nat>, k: nat)
    requires k <= |places| && Places(st.task.rows, places)
    ensures RunningCount(SpawnFirst(env, st, places, k).st.task.rows) <= RunningCount(st.task.rows) + k
  {
    if k > 0 {
      RunningAfterSpawns(env, st, places, k - 1);
      var before := SpawnFirst(env, st, places, k - 1).st;
      RunningAfter(before.task.rows, places[k - 1], Spawn(env, before, places[k - 1]).st.task.rows[places[k - 1]]);
    }
  }

  /** The quota is the longest run of turns with room. */
  lemma {:induction false} QuotaHasRoom(env: Env, t: TeamTask, n: nat, k: nat)
    requires k <= n
    ensures Quota(env, t, n, k) > k ==> Room(env, t, Quota(env, t, n, k) - 1)
    ensures Quota(env, t, n, k) < n ==> !Room(env, t, Quota(env, t, n, k))
    decreases n - k
  {
    if k < n && Room(env, t, k) {
      QuotaHasRoom(env, t, n, k + 1);
    }
  }

  /**
   Dispatch respects both limits: after it the running steps fit the concurrency and, at one
   share of the cap each, fit what the task has left; and it stops only for want of room or of
   ready steps.
   */
  lemma DispatchFits(env: Env, st: TickState)
    requires env.cap >= 0.0 && Dispatch(env, st).action != Idle
    ensures Fits(env, st.task, RunningCount(Dispatch(env, st).st.task.rows))
    ensures var ready := |ReadyBelow(st.task.rows, |st.task.rows|)|;
            var q := Quota(env, st.task, ready, 0);
            q == ready || !Room(env, st.task, q)
  {
    var ready := ReadyBelow(st.task.rows, |st.task.rows|);
    var q := Quota(env, st.task, |ready|, 0);
    QuotaHasRoom(env, st.task, |ready|, 0);
    RunningAfterSpawns(env, st, ready, q);
    RoomFits(env, st.task, q, RunningCount(Dispatch(env, st).st.task.rows));
  }

  /** This many running steps fit both limits of a task. */
  predicate Fits(env: Env, t: TeamTask, running: nat) {
    running <= env.concurrency && Spent(t) + running as real * Estimate(env.cap) <= env.cap
  }

  lemma RoomFits(env: Env, t: TeamTask, q: nat, running: nat)
    requires env.cap >= 0.0 && q > 0 && Room(env, t, q - 1) && running <= RunningCount(t.rows) + q
    ensures Fits(env, t, running)
  {
    ShareFits(env.cap, Spent(t), RunningCount(t.rows), q, running);
  }

  lemma ShareFits(cap: real, spent: real, before: nat, q: nat, running: nat)
    requires cap >= 0.0 && q > 0 && running <= before + q
    requires cap - spent - before as real * Estimate(cap) - (q - 1) as real * Estimate(cap) >= Estimate(cap)
    ensures spent + running as real * Estimate(cap) <= cap
  {
    var share := Estimate(cap);
    assert before as real * share + (q - 1) as real * share + share == (before + q) as real * share;
    assert running as real * share <= (before + q) as real * share;
  }

  /** The tick resumes a step: nothing comes first, and the first decided approval is a valid yes. */
  predicate Resumes(env: Env, st: TickState) {
    var i := FirstAwaiting(env, st);
    && HashVerified(st.task) && Spent(st.task) <= env.cap
    && FirstReview(env, st.task.rows) == |st.task.rows| && FirstRunning(env, st) == |st.task.rows|
    && i < |st.task.rows| && Polled(st.task.rows[i])
    && env.approval(st.task.rows[i].approvalId.value) == Approved && env.rosterOk(st.task.rows[i].step.assignedTo)
  }

  lemma {:induction false} CostAfter(rows: seq<Row>, i: nat, r: Row)
    requires i < |rows| && r.cost == rows[i].cost
    ensures CostSum(rows[i := r]) == CostSum(rows)
  {
    var n := |rows| - 1;
    if i == n {
      assert rows[i := r][..n] == rows[..n];
    } else {
      assert rows[i := r][..n] == rows[..n][i := r];
      CostAfter(rows[..n], i, r);
    }
  }

  /** Resuming looks at neither limit: it adds one running step and one share, whatever is left. */
  lemma ResumeIgnoresLimits(env: Env, st: TickState)
    requires Resumes(env, st)
    ensures var t := Act(env, st).st.task;
            RunningCount(t.rows) == RunningCount(st.task.rows) + 1 && Spent(t) == Spent(st.task)
  {
    var i := FirstAwaiting(env, st);
    RunningAfter(st.task.rows, i, PollAwaiting(env, st, i).st.task.rows[i]);
    CostAfter(st.task.rows, i, PollAwaiting(env, st, i).st.task.rows[i]);
  }

  lemma AppendKeeps(rows: seq<Row>, r: Row)
    requires r.status != Running && r.cost.None?
    ensures RunningCount(rows + [r]) == RunningCount(rows) && CostSum(rows + [r]) == CostSum(rows)
  {
    assert (rows + [r])[..|rows|] == rows;
  }

  /** As many running steps or fewer, and nothing charged. */
  predicate NoMore(t: TeamTask, t': TeamTask) {
    RunningCount(t'.rows) <= RunningCount(t.rows) && Spent(t') == Spent(t)
  }

  lemma RowNoMore(t: TeamTask, i: nat, r: Row)
    requires i < |t.rows| && r.cost == t.rows[i].cost && (r.status == Running ==> t.rows[i].status == Running)
    ensures NoMore(t, t.(rows := t.rows[i := r]))
  {
    RunningAfter(t.rows, i, r);
    CostAfter(t.rows, i, r);
  }

  lemma {:induction false} SpawnsChargeNothing(env: Env, st: TickState, places: seq<nat>, k: nat)
    requires k <= |places| && Places(st.task.rows, places)
    ensures Spent(SpawnFirst(env, st, places, k).st.task) == Spent(st.task)
  {
    if k > 0 {
      SpawnsChargeNothing(env, st, places, k - 1);
      var before := SpawnFirst(env, st, places, k - 1).st;
      CostAfter(before.task.rows, places[k - 1], Spawn(env, before, places[k - 1]).st.task.rows[places[k - 1]]);
    }
  }

  lemma DispatchKeepsSlots(env: Env, st: TickState)
    ensures var t := Dispatch(env, st).st.task;
            (RunningCount(t.rows) <= RunningCount(st.task.rows) || RunningCount(t.rows) <= env.concurrency)
            && Spent(t) == Spent(st.task)
  {
    var ready := ReadyBelow(st.task.rows, |st.task.rows|);
    QuotaHasRoom(env, st.task, |ready|, 0);
    RunningAfterSpawns(env, st, ready, Quota(env, st.task, |ready|, 0));
    SpawnsChargeNothing(env, st, ready, Quota(env, st.task, |ready|, 0));
  }

  lemma PollNoMore(env: Env, st: TickState, i: nat)
    requires i < |st.task.rows| && st.task.rows[i].status == Running
    ensures NoMore(st.task, PollRunning(env, st, i).st.task)
  {
    var t := PollRunning(env, st, i).st.task;
    assert t == st.task || t == st.task.(rows := st.task.rows[i := t.rows[i]]);
    if t != st.task { RowNoMore(st.task, i, t.rows[i]); }
  }

  lemma AwaitNoMore(env: Env, st: TickState, i: nat)
    requires i < |st.task.rows| && Polled(st.task.rows[i])
    requires env.approval(st.task.rows[i].approvalId.value) != Approved || !env.rosterOk(st.task.rows[i].step.assignedTo)
    ensures NoMore(st.task, PollAwaiting(env, st, i).st.task)
  {
    var t := PollAwaiting(env, st, i).st.task;
    assert t == st.task || t == st.task.(rows := st.task.rows[i := t.rows[i]]);
    if t != st.task { RowNoMore(st.task, i, t.rows[i]); }
  }

  lemma ReviewNoMore(env: Env, st: TickState, i: nat)
    requires ReviewDue(env, st.task.rows, i)
    ensures NoMore(st.task, ApplyReview(env, st, i).st.task)
  {
    match ReviewRule(env, st.task.rows, i)
    case Exhausted =>
    case Mint(row) => AppendKeeps(st.task.rows, Minted(row));
  }

  /** The tick concludes the task: everything is done and no review is due. */
  predicate Concludes(env: Env, st: TickState) {
    && HashVerified(st.task) && Spent(st.task) <= env.cap && st.task.rows != []
    && AllDone(st.task.rows) && FirstReview(env, st.task.rows) == |st.task.rows|
  }

  lemma ConcludesIff(env: Env, st: TickState)
    ensures Act(env, st).action == Aggregated <==> Concludes(env, st)
  {
    if Concludes(env, st) {
      assert !SomeInFlight(st.task.rows);
      NothingToPoll(env, st);
      DispatchIdle(env, st);
    }
  }

  /** Any tick but a resuming one leaves no more running, or has dispatched; only a concluding one charges. */
  lemma OtherTicks(env: Env, st: TickState)
    requires !Resumes(env, st)
    ensures var t := Act(env, st).st.task;
            || NoMore(st.task, t)
            || (Dispatch(env, st).action != Idle && t == Dispatch(env, st).st.task)
            || Concludes(env, st)
  {
    var rows := st.task.rows;
    ConcludesIff(env, st);
    if HashVerified(st.task) && Spent(st.task) <= env.cap {
      if FirstReview(env, rows) < |rows| {
        ReviewNoMore(env, st, FirstReview(env, rows));
      } else {
        OtherPolls(env, st);
      }
    }
  }

  lemma OtherPolls(env: Env, st: TickState)
    requires HashVerified(st.task) && Spent(st.task) <= env.cap && FirstReview(env, st.task.rows) == |st.task.rows|
    requires !Resumes(env, st)
    ensures var o := PollOrStart(env, st);
            || NoMore(st.task, o.st.task)
            || (Dispatch(env, st).action != Idle && o == Dispatch(env, st))
            || o.action == Aggregated
  {
    var rows := st.task.rows;
    if FirstRunning(env, st) < |rows| {
      PollNoMore(env, st, FirstRunning(env, st));
    } else if FirstAwaiting(env, st) < |rows| {
      AwaitNoMore(env, st, FirstAwaiting(env, st));
    }
  }

  /** The aggregation's own cost is all that a concluding tick adds, and nothing is running then. */
  lemma Concluded(env: Env, st: TickState)
    requires Concludes(env, st)
    ensures var t := Act(env, st).st.task;
            RunningCount(st.task.rows) == 0 && t.rows == st.task.rows && Spent(t) == Spent(st.task) + Amount(env.aggregateCost)
  {
    ConcludesIff(env, st);
    assert !SomeInFlight(st.task.rows);
    NothingToPoll(env, st);
    DispatchIdle(env, st);
  }

  /** The limit on running steps survives a tick exactly if the tick does not resume a step when it is reached. */
  lemma ConcurrencyKeptIff(env: Env, st: TickState)
    requires RunningCount(st.task.rows) <= env.concurrency
    ensures RunningCount(Act(env, st).st.task.rows) <= env.concurrency <==>
              !(Resumes(env, st) && RunningCount(st.task.rows) == env.concurrency)
  {
    if Resumes(env, st) {
      ResumeIgnoresLimits(env, st);
    } else {
      OtherTicks(env, st);
      DispatchKeepsSlots(env, st);
      if Concludes(env, st) { Concluded(env, st); }
    }
  }

  lemma FewerFit(env: Env, t: TeamTask, fewer: nat, running: nat)
    requires env.cap >= 0.0 && fewer <= running && Fits(env, t, running)
    ensures Fits(env, t, fewer)
  {
    assert fewer as real * Estimate(env.cap) <= running as real * Estimate(env.cap);
  }

  lemma NoMoreFits(env: Env, t: TeamTask, t': TeamTask)
    requires env.cap >= 0.0 && Fits(env, t, RunningCount(t.rows)) && NoMore(t, t')
    ensures Fits(env, t', RunningCount(t'.rows))
  {
    FewerFit(env, t, RunningCount(t'.rows), RunningCount(t.rows));
  }

  /**
   Both limits survive a tick, at one share of the cap for each running step, exactly if the tick
   neither resumes a step for which there is no slot or no share left, nor concludes the task with an
   aggregation that overruns the cap.
   */
  lemma HeadroomKeptIff(env: Env, st: TickState)
    requires env.cap >= 0.0 && Fits(env, st.task, RunningCount(st.task.rows))
    ensures var t := Act(env, st).st.task;
            Fits(env, t, RunningCount(t.rows)) <==>
              && (Resumes(env, st) ==> Fits(env, st.task, RunningCount(st.task.rows) + 1))
              && (Concludes(env, st) ==> Spent(st.task) + Amount(env.aggregateCost) <= env.cap)
  {
    if Resumes(env, st) {
      ResumesNotConcludes(env, st);
      ResumeFits(env, st);
    } else if Concludes(env, st) {
      ConcludedFits(env, st);
    } else {
      OthersFit(env, st);
    }
  }

  lemma ResumeFits(env: Env, st: TickState)
    requires Resumes(env, st)
    ensures var t := Act(env, st).st.task;
            Fits(env, t, RunningCount(t.rows)) <==> Fits(env, st.task, RunningCount(st.task.rows) + 1)
  {
    ResumeIgnoresLimits(env, st);
  }

  lemma ConcludedFits(env: Env, st: TickState)
    requires Concludes(env, st) && env.concurrency >= 0
    ensures var t := Act(env, st).st.task;
            Fits(env, t, RunningCount(t.rows)) <==> Spent(st.task) + Amount(env.aggregateCost) <= env.cap
  {
    Concluded(env, st);
  }

  lemma ResumesNotConcludes(env: Env, st: TickState)
    requires Resumes(env, st)
    ensures !Concludes(env, st)
  {
    assert st.task.rows[FirstAwaiting(env, st)].status != Done;
  }

  lemma OthersFit(env: Env, st: TickState)
    requires env.cap >= 0.0 && Fits(env, st.task, RunningCount(st.task.rows))
    requires !Resumes(env, st) && !Concludes(env, st)
    ensures Fits(env, Act(env, st).st.task, RunningCount(Act(env, st).st.task.rows))
  {
    OtherTicks(env, st);
    var t := Act(env, st).st.task;
    if NoMore(st.task, t) {
      NoMoreFits(env, st.task, t);
    } else {
      DispatchedFits(env, st);
    }
  }

  lemma DispatchedFits(env: Env, st: TickState)
    requires env.cap >= 0.0 && Dispatch(env, st).action != Idle
    ensures var t := Dispatch(env, st).st.task; Fits(env, t, RunningCount(t.rows))
  {
    DispatchFits(env, st);
    DispatchKeepsSlots(env, st);
  }

  /** With a limit of one, the tick that sees the approval leaves two steps running. */
  lemma OverLimitWitness(env: Env) returns (t: TeamTask)
    requires env.concurrency == 1 && env.cap >= 0.0
    requires env.pidAlive(1) && (forall id :: !env.leaseExpired(id)) && (forall who :: env.rosterOk(who))
    requires env.approval(1) == Approved
    ensures LiveTask(t) && RunningCount(t.rows) == 1
    ensures RunningCount(Act(env, TickState(t, map[], 0)).st.task.rows) == 2
  {
    t := ForkTask(0.0, Running, Some(1), AwaitingApproval, Some(1));
    LiveTaskSound(t);
    ForkResumes(env, t);
    ResumeIgnoresLimits(env, TickState(t, map[], 0));
  }

  /**
   With 5.5 of a 7.0 cap spent and one step running, which is all that fits, the tick that sees the
   approval sets a second one running, slots or no slots.
   */
  lemma OverHeadroomWitness(env: Env) returns (t: TeamTask)
    requires env.concurrency >= 1 && env.cap == 7.0
    requires env.pidAlive(1) && (forall id :: !env.leaseExpired(id)) && (forall who :: env.rosterOk(who))
    requires env.approval(1) == Approved
    ensures LiveTask(t) && Fits(env, t, RunningCount(t.rows))
    ensures var t' := Act(env, TickState(t, map[], 0)).st.task;
            Spent(t') + RunningCount(t'.rows) as real * Estimate(env.cap) == 7.5
  {
    t := ForkTask(5.5, Running, Some(1), AwaitingApproval, Some(1));
    LiveTaskSound(t);
    ForkResumes(env, t);
    ResumeIgnoresLimits(env, TickState(t, map[], 0));
  }

  lemma ForkResumes(env: Env, t: TeamTask)
    requires HashVerified(t) && Spent(t) <= env.cap && ForkRows(t.rows)
    requires t.rows[0].status == Running && t.rows[0].pid == Some(1)
    requires t.rows[1].status == AwaitingApproval && t.rows[1].approvalId == Some(1)
    requires env.pidAlive(1) && (forall id :: !env.leaseExpired(id)) && (forall who :: env.rosterOk(who))
    requires env.approval(1) == Approved
    ensures Resumes(env, TickState(t, map[], 0)) && RunningCount(t.rows) == 1
  {
    var st := TickState(t, map[], 0);
    NothingDone(env, t.rows);
    OneRunning(t.rows);
    assert AwaitingActs(env, st, 1);
    assert !RunningActs(env, st, 0) && !RunningActs(env, st, 1) && !RunningActs(env, st, 2);
  }

  lemma OneRunning(rows: seq<Row>)
    requires |rows| == 3 && rows[0].status == Running && rows[1].status != Running && rows[2].status != Running
    ensures RunningCount(rows) == 1
  {
    NoneRunning(rows[..0]);
    assert rows[..2][..1] == rows[..1] && rows[..1][..0] == rows[..0];
    assert RunningCount(rows[..1]) == 1 && RunningCount(rows[..2]) == 1;
  }
}
