/**
 Exactly when a tick leaves a task as it is, the families of tasks it never moves, and what that
 says about whole runs (src/agent/coordinator_graph.py, coordinator_nodes/tick_actions.py,
 coordinator_nodes/review_insert.py).
 */
module Standstill {
  import opened Common
  import opened Planning
  import opened TaskRows
  import opened PlanRuns
  import opened TeamTaskStore
  import opened Ticker
  import opened Progress
  import opened LiveTasks
  import opened WorkedPlans
  import Text

  // ---------------------------------------------------------------------------------------
  // The condition
  // ---------------------------------------------------------------------------------------

  /** The first review action due would mint an id that is already taken: the insert raises. */
  predicate Clash(env: Env, rows: seq<Row>) {
    var i := FirstReview(env, rows);
    i < |rows| && ReviewRule(env, rows, i).Mint? && HasRow(rows, ReviewRule(env, rows, i).row.step.stepId)
  }

  /** An awaiting row without an id the ticker could ask about. */
  predicate Unpolled(r: Row) {
    r.status == AwaitingApproval && !Polled(r)
  }

  /** Its poll leaves this row alone: alive and in time, undecided, or never polled. */
  predicate Waiting(env: Env, r: Row) {
    || (r.status == Running && !Dead(env, r) && !env.leaseExpired(r.step.stepId))
    || (Polled(r) && env.approval(r.approvalId.value) == Undecided)
    || Unpolled(r)
  }

  predicate AllWaiting(env: Env, rows: seq<Row>) {
    forall i :: 0 <= i < |rows| && InFlightRow(rows[i]) ==> Waiting(env, rows[i])
  }

  predicate NoneReady(rows: seq<Row>) {
    forall i: nat :: i < |rows| ==> !Ready(rows, i)
  }

  /** No review is due, every poll leaves its row alone, and there is nothing to start or to conclude. */
  predicate Still(env: Env, t: TeamTask) {
    && NoReviewDue(env, t.rows) && AllWaiting(env, t.rows)
    && if SomeInFlight(t.rows) then NoneReady(t.rows) || !Room(env, t, 0)
       else !AllDone(t.rows) && !SomeDead(t.rows) && !Room(env, t, 0)
  }

  lemma PollsWait(env: Env, st: TickState)
    ensures AllWaiting(env, st.task.rows) <==>
              FirstRunning(env, st) == |st.task.rows| && FirstAwaiting(env, st) == |st.task.rows|
  {
    var rows := st.task.rows;
    forall i: nat | i < |rows|
      ensures InFlightRow(rows[i]) && !Waiting(env, rows[i]) <==> RunningActs(env, st, i) || AwaitingActs(env, st, i)
    {
    }
    if FirstRunning(env, st) < |rows| { assert RunningActs(env, st, FirstRunning(env, st)); }
    if FirstAwaiting(env, st) < |rows| { assert AwaitingActs(env, st, FirstAwaiting(env, st)); }
  }

  lemma WrapIdleIff(env: Env, st: TickState)
    requires st.task.rows != []
    ensures Wrap(env, st).action == Idle <==>
              !AllDone(st.task.rows) && (SomeDead(st.task.rows) ==> SomeInFlight(st.task.rows))
    ensures Wrap(env, st).action != Raised
  {
  }

  lemma SomeInFlightUndone(rows: seq<Row>)
    requires SomeInFlight(rows)
    ensures !AllDone(rows)
  {
  }

  lemma InFlightIdleIff(env: Env, st: TickState)
    requires SomeInFlight(st.task.rows)
    ensures PollOrStart(env, st).action == Idle <==>
              AllWaiting(env, st.task.rows) && (NoneReady(st.task.rows) || !Room(env, st.task, 0))
    ensures PollOrStart(env, st).action != Raised
  {
    PollsWait(env, st);
    WrapIdleIff(env, st);
    SomeInFlightUndone(st.task.rows);
    DispatchIdle(env, st);
  }

  lemma PollOrStartIdleIff(env: Env, st: TickState)
    requires Sound(st.task) && Spent(st.task) <= env.cap && NoReviewDue(env, st.task.rows)
    ensures PollOrStart(env, st).action == Idle <==> Still(env, st.task)
    ensures PollOrStart(env, st).action != Raised
  {
    if SomeInFlight(st.task.rows) {
      InFlightIdleIff(env, st);
    } else {
      PollsWait(env, st);
      SoundHash(st.task);
      IdleIff(env, st);
    }
  }

  /** Idle and raising ticks, for every sound task. */
  lemma QuietTickIff(env: Env, st: TickState)
    requires Sound(st.task)
    ensures Act(env, st).action == Idle <==> Spent(st.task) <= env.cap && Still(env, st.task)
    ensures Act(env, st).action == Raised <==> Spent(st.task) <= env.cap && Clash(env, st.task.rows)
  {
    SoundHash(st.task);
    var review := FirstReview(env, st.task.rows);
    if review < |st.task.rows| {
      assert ReviewDue(env, st.task.rows, review);
    } else if Spent(st.task) <= env.cap {
      PollOrStartIdleIff(env, st);
    }
  }

  // ---------------------------------------------------------------------------------------
  // Every other tick changes the state
  // ---------------------------------------------------------------------------------------

  lemma PollRunningChanges(env: Env, st: TickState, i: nat)
    requires RunningActs(env, st, i)
    ensures PollRunning(env, st, i).st != st
  {
    var r := st.task.rows[i];
    var st' := PollRunning(env, st, i).st;
    if Dead(env, r) && RetryCount(st.retries, r.step.stepId) < MAX_STEP_RETRIES {
      assert RetryCount(st'.retries, r.step.stepId) == RetryCount(st.retries, r.step.stepId) + 1;
    } else {
      assert st'.task.rows[i].status != Running;
    }
  }

  lemma PollAwaitingChanges(env: Env, st: TickState, i: nat)
    requires AwaitingActs(env, st, i)
    ensures PollAwaiting(env, st, i).st != st
  {
    assert PollAwaiting(env, st, i).st.task.rows[i].status != AwaitingApproval;
  }

  lemma {:induction false} FirstStarted(env: Env, st: TickState, places: seq<nat>, k: nat)
    requires 0 < k <= |places| && Places(st.task.rows, places)
    ensures SpawnFirst(env, st, places, k).st.task.rows[places[0]].status != Pending
  {
    if k > 1 { FirstStarted(env, st, places, k - 1); }
  }

  lemma DispatchChanges(env: Env, st: TickState)
    requires Dispatch(env, st).action != Idle
    ensures Dispatch(env, st).st != st
  {
    var rows := st.task.rows;
    var ready := ReadyBelow(rows, |rows|);
    ReadyListed(rows, |rows|);
    FirstStarted(env, st, ready, Quota(env, st.task, |ready|, 0));
    assert Ready(rows, ready[0]);
  }

  lemma ReviewChanges(env: Env, st: TickState, i: nat)
    requires ReviewDue(env, st.task.rows, i) && Dispatchable(st.task.status)
    ensures ApplyReview(env, st, i).action != Raised ==> ApplyReview(env, st, i).st != st
  {
    var st' := ApplyReview(env, st, i).st;
    if ReviewRule(env, st.task.rows, i).Mint? && ApplyReview(env, st, i).action != Raised {
      assert |st'.task.rows| == |st.task.rows| + 1;
    }
  }

  lemma PollOrStartChanges(env: Env, st: TickState)
    requires Dispatchable(st.task.status) && PollOrStart(env, st).action != Idle
    ensures PollOrStart(env, st).st != st
  {
    var running, awaiting := FirstRunning(env, st), FirstAwaiting(env, st);
    if running < |st.task.rows| {
      PollRunningChanges(env, st, running);
    } else if awaiting < |st.task.rows| {
      PollAwaitingChanges(env, st, awaiting);
    } else if Dispatch(env, st).action != Idle {
      DispatchChanges(env, st);
    } else {
      assert Wrap(env, st).st.task.status != st.task.status;
    }
  }

  /**
   The exact condition under which a tick leaves a live sound task exactly as it is: within the cap,
   either the next review row's id is taken, or every in-flight row waits and there is nothing
   to start and nothing to conclude.
   */
  lemma UnchangedIff(env: Env, st: TickState)
    requires Sound(st.task) && Dispatchable(st.task.status)
    ensures Act(env, st).st == st <==>
              Spent(st.task) <= env.cap && (Clash(env, st.task.rows) || Still(env, st.task))
  {
    QuietTickIff(env, st);
    SoundHash(st.task);
    var review := FirstReview(env, st.task.rows);
    if Act(env, st).action == Idle || Act(env, st).action == Raised {
      IdleUnchanged(env, st);
    } else if Spent(st.task) <= env.cap && review < |st.task.rows| {
      ReviewChanges(env, st, review);
    } else if Spent(st.task) <= env.cap {
      PollOrStartChanges(env, st);
    }
  }

  /** A slot, and one step's share of the cap unspent. */
  predicate Headroom(env: Env, t: TeamTask) {
    env.concurrency >= 1 && Spent(t) <= env.cap - Estimate(env.cap)
  }

  /** With a slot, one step's share of the cap unspent and no id clash, a task with nothing in flight moves. */
  lemma NeverStuckWithHeadroom(env: Env, st: TickState)
    requires Sound(st.task) && Dispatchable(st.task.status) && !SomeInFlight(st.task.rows)
    requires Headroom(env, st.task) && !Clash(env, st.task.rows)
    ensures Act(env, st).st != st
  {
    UnchangedIff(env, st);
    NothingToPoll(env, st);
  }

  /**
   At any point of any run of store operations and ticks, whatever the outside world answers: the
   next tick of a live task does not stall it for its hash, leaves it as it is exactly under
   the condition above, and moves it whenever nothing is in flight, there is headroom and a slot,
   and no id clashes.
   */
  lemma NextTickMoves(ws: seq<World>, ms: seq<Move>, i: nat, env: Env, retries: map<string, nat>, leases: nat)
    requires IsLiveRun(ws, ms) && i < |ws| && Dispatchable(ws[i].task.status)
    ensures var st := TickState(ws[i].task, retries, leases);
            && Act(env, st).action != HashStall
            && (Act(env, st).st == st <==>
                  Spent(st.task) <= env.cap && (Clash(env, st.task.rows) || Still(env, st.task)))
            && (!SomeInFlight(st.task.rows) && !Clash(env, st.task.rows) && Headroom(env, st.task) ==> Act(env, st).st != st)
  {
    var st := TickState(ws[i].task, retries, leases);
    EveryLiveRunSound(ws, ms, i);
    HashStallIff(env, st);
    UnchangedIff(env, st);
    if !SomeInFlight(st.task.rows) && !Clash(env, st.task.rows) && Headroom(env, st.task) {
      NeverStuckWithHeadroom(env, st);
    }
  }

  // ---------------------------------------------------------------------------------------
  // The failing families, each with a member
  // ---------------------------------------------------------------------------------------

  /** A review row whose id is taken: every tick raises, for as long as the answers stay the same. */
  lemma ClashStands(env: Env, st: TickState)
    requires Sound(st.task) && Spent(st.task) <= env.cap && Clash(env, st.task.rows)
    ensures Act(env, st) == Outcome(Raised, st)
  {
    QuietTickIff(env, st);
    IdleUnchanged(env, st);
  }

  /** What is in flight awaits approval without an id to ask about: no answer ever moves the task. */
  lemma UnpolledStands(env: Env, st: TickState)
    requires Sound(st.task) && Spent(st.task) <= env.cap && NoReviewDue(env, st.task.rows)
    requires SomeInFlight(st.task.rows) && NoneReady(st.task.rows)
    requires forall i :: 0 <= i < |st.task.rows| && InFlightRow(st.task.rows[i]) ==> Unpolled(st.task.rows[i])
    ensures Act(env, st) == Outcome(Idle, st)
  {
    QuietTickIff(env, st);
    IdleUnchanged(env, st);
  }

  /** A one-step plan, confirmed, that most of the cap went into making. */
  lemma StuckTask() returns (t: TeamTask)
    ensures LiveTask(t) && Spent(t) == 6.5 && |t.rows| == 1 && t.rows[0].status == Pending && t.rows[0].step.deps == []
  {
    var p := OnePlan();
    var rows := [PlannedRow(p)];
    t := OpenTask([p], "c", 6.5, rows);
    NothingCharged(rows);
  }

  /** With 6.5 of a 7.0 cap spent on planning it, its one step is ready and never starts. */
  lemma StuckWitness(env: Env) returns (t: TeamTask)
    requires env.cap == 7.0
    ensures LiveTask(t) && |t.rows| == 1 && Ready(t.rows, 0)
    ensures Act(env, TickState(t, map[], 0)) == Outcome(Idle, TickState(t, map[], 0))
  {
    t := StuckTask();
    LiveTaskSound(t);
    NothingDone(env, t.rows);
    StuckWithoutHeadroom(env, TickState(t, map[], 0));
  }

  /** The id of the first review of a step. */
  function FirstReviewId(id: string): string {
    id + "-review-" + Text.Digits(0) + "-" + Text.Digits(0)
  }

  /** A step that wants a review, and one that has taken the review's name and waits for it. */
  lemma ClashPlan() returns (plans: seq<StepPlan>)
    ensures |plans| == 2 && Carried(plans) && plans[0].stepType == Work && plans[0].needsReview
    ensures plans[0].step.assignedTo == "c" && plans[1].stepType == Work
    ensures plans[1].step.stepId == FirstReviewId(plans[0].step.stepId)
  {
    plans := [StepNo("a", [], true), StepNo("a-review-0-0", ["a"], false)];
    ClashOrdinary(plans);
    OrdinaryCarried(plans);
    FirstReviewOfA();
  }

  lemma FirstReviewOfA()
    ensures FirstReviewId("a") == "a-review-0-0"
  {
    assert Text.Digits(0) == "0";
    assert "a" + "-review-" + "0" + "-" + "0" == "a-review-0-0";
  }

  lemma ClashOrdinary(plans: seq<StepPlan>)
    requires plans == [StepNo("a", [], true), StepNo("a-review-0-0", ["a"], false)]
    ensures Ordinary(plans) && InOrder(Contents(plans)) && Funnels(Contents(plans))
  {
    StepMade("a", [], true);
    StepMade("a-review-0-0", ["a"], false);
    TwoInOrder(Contents(plans));
  }

  /** The two rows once the first step is done. */
  lemma ClashTask() returns (t: TeamTask)
    ensures LiveTask(t) && ClashRows(t.rows) && Spent(t) == 0.0
  {
    var plans := ClashPlan();
    var rows := [PlannedRow(plans[0]).(status := Done), PlannedRow(plans[1])];
    t := OpenTask(plans, "c", 0.0, rows);
    NothingCharged(rows);
  }

  predicate ClashRows(rows: seq<Row>) {
    && |rows| == 2 && rows[0].status == Done && rows[0].stepType == Work && rows[0].needsReview
    && rows[0].step.assignedTo == "c" && rows[1].stepType == Work && rows[1].status == Pending
    && rows[1].step.stepId == FirstReviewId(rows[0].step.stepId)
  }

  lemma {:induction false} NoReviewYet(rows: seq<Row>, id: string)
    requires forall i :: 0 <= i < |rows| ==> rows[i].stepType != Review
    ensures ChildCount(rows, id, Review) == 0 && NewestChild(rows, id, Review) == |rows|
  {
    if rows != [] { NoReviewYet(rows[..|rows| - 1], id); }
  }

  lemma ClashIsDue(env: Env, rows: seq<Row>)
    requires ClashRows(rows) && env.reviewer("c").Some?
    ensures Clash(env, rows)
  {
    NoReviewYet(rows, rows[0].step.stepId);
    assert ReviewRule(env, rows, 0).Mint? && ReviewRule(env, rows, 0).row.step.stepId == rows[1].step.stepId;
    assert ReviewDue(env, rows, 0);
  }

  lemma ClashRaises(env: Env, t: TeamTask)
    requires Sound(t) && ClashRows(t.rows) && Spent(t) <= env.cap && env.reviewer("c").Some?
    ensures Act(env, TickState(t, map[], 0)) == Outcome(Raised, TickState(t, map[], 0))
  {
    ClashIsDue(env, t.rows);
    ClashStands(env, TickState(t, map[], 0));
  }

  lemma ClashHasRoom(env: Env, t: TeamTask)
    requires ClashRows(t.rows) && Spent(t) == 0.0 && env.cap == 7.0 && env.concurrency >= 1
    ensures !SomeInFlight(t.rows) && Room(env, t, 0)
  {
    NoneRunning(t.rows);
  }

  /** Nothing spent, a free slot, nothing in flight: and yet no tick ever gets past this task. */
  lemma ClashWitness(env: Env) returns (t: TeamTask)
    requires env.cap == 7.0 && env.concurrency >= 1 && env.reviewer("c").Some?
    ensures LiveTask(t) && !SomeInFlight(t.rows) && Room(env, t, 0)
    ensures Act(env, TickState(t, map[], 0)) == Outcome(Raised, TickState(t, map[], 0))
  {
    t := ClashTask();
    LiveTaskSound(t);
    ClashHasRoom(env, t);
    ClashRaises(env, t);
  }

  function Moved(p: StepPlan, status: StepStatus, pid: Option<int>, approvalId: Option<nat>): Row {
    PlannedRow(p).(status := status, pid := pid, approvalId := approvalId)
  }

  /** Rows of the fork: two steps that have moved on, none of them done, and the one that waits. */
  predicate ForkRows(rows: seq<Row>) {
    && |rows| == 3 && rows[2].status == Pending && rows[2].step.deps != []
    && forall i :: 0 <= i < 3 ==> rows[i].status != Done && rows[i].cost.None?
  }

  lemma ForkTask(spent: real, a: StepStatus, aPid: Option<int>, b: StepStatus, bApproval: Option<nat>) returns (t: TeamTask)
    requires a != Pending && a != Done && b != Pending && b != Done
    ensures LiveTask(t) && ForkRows(t.rows) && Spent(t) == spent
    ensures t.rows[0].status == a && t.rows[0].pid == aPid
    ensures t.rows[1].status == b && t.rows[1].approvalId == bApproval
  {
    var plans := ForkPlan();
    var rows := [Moved(plans[0], a, aPid, None), Moved(plans[1], b, None, bApproval), PlannedRow(plans[2])];
    t := OpenTask(plans, "c", spent, rows);
    NothingCharged(rows);
  }

  lemma {:induction false} NothingCharged(rows: seq<Row>)
    requires forall i :: 0 <= i < |rows| ==> rows[i].cost.None?
    ensures CostSum(rows) == 0.0
  {
    if rows != [] { NothingCharged(rows[..|rows| - 1]); }
  }

  lemma NothingDone(env: Env, rows: seq<Row>)
    requires forall i :: 0 <= i < |rows| ==> rows[i].status != Done
    ensures NoReviewDue(env, rows)
  {
  }

  /** The waiting step is not ready. */
  lemma ForkWaits(rows: seq<Row>)
    requires ForkRows(rows) && rows[0].status != Pending && rows[1].status != Pending
    ensures NoneReady(rows)
  {
    assert rows[2].step.deps[0] in rows[2].step.deps && !DoneRow(rows, rows[2].step.deps[0]);
  }

  lemma ForkUnpolled(env: Env, t: TeamTask)
    requires Sound(t) && ForkRows(t.rows) && Spent(t) <= env.cap
    requires t.rows[0].status == Failed && t.rows[1].status == AwaitingApproval && t.rows[1].approvalId.None?
    ensures SomeDead(t.rows) && Act(env, TickState(t, map[], 0)) == Outcome(Idle, TickState(t, map[], 0))
  {
    ForkWaits(t.rows);
    NothingDone(env, t.rows);
    assert DeadRow(t.rows[0]) && InFlightRow(t.rows[1]);
    UnpolledStands(env, TickState(t, map[], 0));
  }

  /** A task with a failed step that no tick ever stalls, whatever the outside world answers. */
  lemma UnpolledWitness(env: Env) returns (t: TeamTask)
    requires env.cap >= 0.0
    ensures LiveTask(t) && SomeDead(t.rows)
    ensures Act(env, TickState(t, map[], 0)) == Outcome(Idle, TickState(t, map[], 0))
  {
    t := ForkTask(0.0, Failed, None, AwaitingApproval, None);
    LiveTaskSound(t);
    ForkUnpolled(env, t);
  }
}
