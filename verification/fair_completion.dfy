/**
 Completion without lockstep: ticks and deliveries in any fair order finish a task whose steps all
 succeed (src/agent/coordinator_graph.py, coordinator_nodes/tick_actions.py).
 */
module FairCompletion {
  import opened Common
  import opened Planning
  import opened TaskRows
  import opened TeamTaskStore
  import opened Ticker
  import opened Progress
  import opened Completion

  // ---------------------------------------------------------------------------------------
  // Ticks and deliveries, one at a time
  // ---------------------------------------------------------------------------------------

  /** The ticker looks at the task, or the worker of one row delivers if it is running. */
  datatype Turn = TickTurn | DeliverTurn(i: nat)

  function DeliverOne(t: TeamTask, cost: string -> real, i: nat): TeamTask {
    if i < |t.rows| && t.rows[i].status == Running
    then t.(rows := t.rows[i := Delivered(t.rows[i], cost(t.rows[i].step.stepId))])
    else t
  }

  /** A tick only ever looks at open and running tasks. */
  function TakeTurn(env: Env, cost: string -> real, st: TickState, m: Turn): TickState {
    match m
    case TickTurn => if Dispatchable(st.task.status) then Act(env, st).st else st
    case DeliverTurn(i) => st.(task := DeliverOne(st.task, cost, i))
  }

  ghost predicate IsTurnRun(env: Env, cost: string -> real, st: nat -> TickState, turn: nat -> Turn) {
    forall k: nat :: st(k + 1) == TakeTurn(env, cost, st(k), turn(k))
  }

  ghost predicate Later(turn: nat -> Turn, k: nat, m: Turn) {
    exists j: nat :: k <= j && turn(j) == m
  }

  /** The ticker looks again and again, and every running row is delivered at some time. */
  ghost predicate Fair(st: nat -> TickState, turn: nat -> Turn) {
    && (forall k: nat :: Later(turn, k, TickTurn))
    && forall k: nat, i: nat :: RunningAt(st(k), i) ==> Later(turn, k, DeliverTurn(i))
  }

  predicate RunningAt(st: TickState, i: nat) {
    i < |st.task.rows| && st.task.rows[i].status == Running
  }

  /** Processes live, leases last and assignees stay on the roster; there is at least one slot. */
  ghost predicate Calm(env: Env) {
    && env.concurrency >= 1 && env.cap >= 0.0
    && (forall pid :: env.pidAlive(pid)) && (forall id :: !env.leaseExpired(id)) && (forall who :: env.rosterOk(who))
  }

  // ---------------------------------------------------------------------------------------
  // What is left to do, and what it will cost
  // ---------------------------------------------------------------------------------------

  function RowWeight(r: Row): nat {
    if r.status == Pending then 2 else if r.status == Running then 1 else 0
  }

  function Weight(rows: seq<Row>): nat {
    if rows == [] then 0 else Weight(rows[..|rows| - 1]) + RowWeight(rows[|rows| - 1])
  }

  function RowOpenCost(r: Row, cost: string -> real): real {
    if r.status == Pending || r.status == Running then cost(r.step.stepId) else 0.0
  }

  /** What the steps that are not finished are going to cost. */
  function OpenCost(rows: seq<Row>, cost: string -> real): real {
    if rows == [] then 0.0 else OpenCost(rows[..|rows| - 1], cost) + RowOpenCost(rows[|rows| - 1], cost)
  }

  lemma {:induction false} OpenCostBound(rows: seq<Row>, cost: string -> real)
    requires forall id :: cost(id) >= 0.0
    ensures OpenCost(rows, cost) >= 0.0
  {
    if rows != [] { OpenCostBound(rows[..|rows| - 1], cost); }
  }

  /** A row of work that nobody reviews: waiting, running under a process, or done. */
  predicate GoodRow(r: Row) {
    && r.stepType == Work && !r.needsReview
    && (r.status == Done || ((r.status == Pending || (r.status == Running && r.pid.Some?)) && r.cost.None?))
  }

  predicate GoodRows(rows: seq<Row>) {
    forall i :: 0 <= i < |rows| ==> GoodRow(rows[i])
  }

  /** What holds at every turn until the task is completed. */
  ghost predicate Underway(env: Env, cost: string -> real, t: TeamTask) {
    && Sound(t) && Dispatchable(t.status) && GoodRows(t.rows)
    && Spent(t) + OpenCost(t.rows, cost) <= env.cap - Estimate(env.cap)
  }

  // ---------------------------------------------------------------------------------------
  // A delivery
  // ---------------------------------------------------------------------------------------

  lemma {:induction false} DeliveryMoves(rows: seq<Row>, cost: string -> real, i: nat, r: Row)
    requires i < |rows| && rows[i].status == Running && rows[i].cost.None?
    requires r == Delivered(rows[i], cost(rows[i].step.stepId))
    ensures Weight(rows[i := r]) == Weight(rows) - 1
    ensures CostSum(rows[i := r]) + OpenCost(rows[i := r], cost) == CostSum(rows) + OpenCost(rows, cost)
  {
    var n := |rows| - 1;
    if i == n {
      assert rows[i := r][..n] == rows[..n];
    } else {
      assert rows[i := r][..n] == rows[..n][i := r];
      DeliveryMoves(rows[..n], cost, i, r);
    }
  }

  lemma DeliveryKeeps(env: Env, cost: string -> real, t: TeamTask, i: nat)
    requires Underway(env, cost, t) && i < |t.rows| && t.rows[i].status == Running
    ensures Underway(env, cost, DeliverOne(t, cost, i)) && Weight(DeliverOne(t, cost, i).rows) < Weight(t.rows)
  {
    var r := Delivered(t.rows[i], cost(t.rows[i].step.stepId));
    assert GoodRow(t.rows[i]);
    DeliveryMoves(t.rows, cost, i, r);
    AdvanceSound(t, i, r);
  }

  // ---------------------------------------------------------------------------------------
  // A tick
  // ---------------------------------------------------------------------------------------

  lemma {:induction false} StartsMove(rows: seq<Row>, rows': seq<Row>, cost: string -> real)
    requires AllStartedOrSame(rows, rows')
    ensures Weight(rows') <= Weight(rows)
    ensures CostSum(rows') == CostSum(rows) && OpenCost(rows', cost) == OpenCost(rows, cost)
  {
    if rows != [] {
      var n := |rows| - 1;
      assert StartedOrSame(rows[n], rows'[n]);
      StartsMove(rows[..n], rows'[..n], cost);
    }
  }

  lemma {:induction false} StartDrops(rows: seq<Row>, rows': seq<Row>, cost: string -> real, i: nat)
    requires AllStartedOrSame(rows, rows') && i < |rows| && rows[i].status == Pending && rows'[i].status == Running
    ensures Weight(rows') < Weight(rows)
  {
    var n := |rows| - 1;
    assert StartedOrSame(rows[n], rows'[n]);
    if i == n {
      StartsMove(rows[..n], rows'[..n], cost);
    } else {
      StartDrops(rows[..n], rows'[..n], cost, i);
    }
  }

  lemma GoodRowQuiet(env: Env, st: TickState, i: nat)
    requires Calm(env) && i < |st.task.rows| && GoodRow(st.task.rows[i])
    ensures !RunningActs(env, st, i) && !AwaitingActs(env, st, i) && !ReviewDue(env, st.task.rows, i)
  {
    var r := st.task.rows[i];
    if r.status == Running {
      var pid := r.pid.value;
      assert env.pidAlive(pid);
      assert !Dead(env, r) && !env.leaseExpired(r.step.stepId);
    }
  }

  lemma NothingActs(env: Env, st: TickState)
    requires Calm(env) && GoodRows(st.task.rows)
    ensures FirstRunning(env, st) == |st.task.rows| && FirstAwaiting(env, st) == |st.task.rows|
    ensures FirstReview(env, st.task.rows) == |st.task.rows|
  {
    forall i: nat | i < |st.task.rows|
      ensures !RunningActs(env, st, i) && !AwaitingActs(env, st, i) && !ReviewDue(env, st.task.rows, i)
    {
      GoodRowQuiet(env, st, i);
    }
  }

  lemma NoneDead(rows: seq<Row>)
    requires GoodRows(rows)
    ensures !SomeDead(rows)
  {
    forall i | 0 <= i < |rows|
      ensures !DeadRow(rows[i])
    {
      assert GoodRow(rows[i]);
    }
  }

  /** A tick starts what there is room for, or concludes the task, or does nothing. */
  lemma UnderwayTick(env: Env, cost: string -> real, st: TickState)
    requires Calm(env) && Underway(env, cost, st.task) && forall id :: cost(id) >= 0.0
    ensures Act(env, st) == if Dispatch(env, st).action != Idle then Dispatch(env, st) else Wrap(env, st)
    ensures Wrap(env, st).st.task.status == Completed <==> AllDone(st.task.rows)
    ensures !AllDone(st.task.rows) ==> Wrap(env, st).st == st
  {
    SoundHash(st.task);
    OpenCostBound(st.task.rows, cost);
    NothingActs(env, st);
    NoneDead(st.task.rows);
  }

  lemma DispatchMoves(env: Env, cost: string -> real, st: TickState)
    requires Calm(env) && Underway(env, cost, st.task) && Dispatch(env, st).action != Idle
    ensures Underway(env, cost, Dispatch(env, st).st.task)
    ensures Weight(Dispatch(env, st).st.task.rows) < Weight(st.task.rows)
  {
    var rows := st.task.rows;
    var ready := ReadyBelow(rows, |rows|);
    var q := Quota(env, st.task, |ready|, 0);
    ReadyListed(rows, |rows|);
    SpawnedRows(env, st, ready, q);
    SpawnFirstKeeps(env, st, ready, q);
    var t := SpawnFirst(env, st, ready, q).st.task;
    StartedUnderway(env, cost, st.task, t, ready[0]);
  }

  lemma StartedUnderway(env: Env, cost: string -> real, t: TeamTask, t': TeamTask, i: nat)
    requires Underway(env, cost, t) && Sound(t') && SpawnedTo(t, t', Some(i)) && Ready(t.rows, i)
    ensures Underway(env, cost, t') && Weight(t'.rows) < Weight(t.rows)
  {
    StartsMove(t.rows, t'.rows, cost);
    StartDrops(t.rows, t'.rows, cost, i);
    forall k | 0 <= k < |t'.rows|
      ensures GoodRow(t'.rows[k])
    {
      assert GoodRow(t.rows[k]) && StartedOrSame(t.rows[k], t'.rows[k]);
    }
  }

  /** With nothing running and something left to do, the tick starts a step. */
  lemma IdleStarts(env: Env, cost: string -> real, st: TickState)
    requires Calm(env) && Underway(env, cost, st.task) && forall id :: cost(id) >= 0.0
    requires (forall i: nat :: !RunningAt(st, i)) && !AllDone(st.task.rows)
    ensures Dispatch(env, st).action != Idle
  {
    forall i | 0 <= i < |st.task.rows|
      ensures st.task.rows[i].status == Pending || st.task.rows[i].status == Done
    {
      assert GoodRow(st.task.rows[i]) && !RunningAt(st, i);
    }
    OpenCostBound(st.task.rows, cost);
    NothingToPoll(env, st);
    var i := ReadyExists(st.task);
    DispatchIdle(env, st);
  }

  // ---------------------------------------------------------------------------------------
  // Turn after turn
  // ---------------------------------------------------------------------------------------

  /** What a turn can make of a task that is underway: it is completed, unchanged, or has less left to do. */
  ghost predicate Moved(env: Env, cost: string -> real, st: TickState, st': TickState) {
    || st'.task.status == Completed
    || (Underway(env, cost, st'.task) && (st' == st || Weight(st'.task.rows) < Weight(st.task.rows)))
  }

  lemma TurnMoves(env: Env, cost: string -> real, st: TickState, m: Turn)
    requires Calm(env) && Underway(env, cost, st.task) && forall id :: cost(id) >= 0.0
    ensures Moved(env, cost, st, TakeTurn(env, cost, st, m))
  {
    match m
    case TickTurn =>
      UnderwayTick(env, cost, st);
      if Dispatch(env, st).action != Idle { DispatchMoves(env, cost, st); }
    case DeliverTurn(i) =>
      if RunningAt(st, i) { DeliveryKeeps(env, cost, st.task, i); }
  }

  lemma MovedThrough(env: Env, cost: string -> real, a: TickState, b: TickState, c: TickState)
    requires Moved(env, cost, a, b) && b.task.status != Completed && Moved(env, cost, b, c)
    ensures Moved(env, cost, a, c)
  {
  }

  /** The turn that settles what is next: the delivery of a running row, or a tick if nothing runs. */
  predicate Decisive(st: TickState, m: Turn, i: nat) {
    if RunningAt(st, i) then m == DeliverTurn(i) else m == TickTurn
  }

  lemma DecisiveTurn(env: Env, cost: string -> real, st: TickState, m: Turn, i: nat)
    requires Calm(env) && Underway(env, cost, st.task) && forall id :: cost(id) >= 0.0
    requires Decisive(st, m, i) && (RunningAt(st, i) || forall k: nat :: !RunningAt(st, k))
    ensures var st' := TakeTurn(env, cost, st, m);
            st'.task.status == Completed || (Underway(env, cost, st'.task) && Weight(st'.task.rows) < Weight(st.task.rows))
  {
    if RunningAt(st, i) {
      DeliveryKeeps(env, cost, st.task, i);
    } else {
      UnderwayTick(env, cost, st);
      if !AllDone(st.task.rows) { IdleStarts(env, cost, st); }
      if Dispatch(env, st).action != Idle { DispatchMoves(env, cost, st); }
    }
  }

  /** Every turn of the run moves the task, or leaves it as it is. */
  ghost predicate AllMoved(env: Env, cost: string -> real, st: nat -> TickState) {
    forall k: nat :: Underway(env, cost, st(k).task) ==> Moved(env, cost, st(k), st(k + 1))
  }

  lemma EveryTurnMoves(env: Env, cost: string -> real, st: nat -> TickState, turn: nat -> Turn)
    requires IsTurnRun(env, cost, st, turn) && Calm(env) && (forall id :: cost(id) >= 0.0)
    ensures AllMoved(env, cost, st)
  {
    forall k: nat | Underway(env, cost, st(k).task)
      ensures Moved(env, cost, st(k), st(k + 1))
    {
      TurnMoves(env, cost, st(k), turn(k));
      assert st(k + 1) == TakeTurn(env, cost, st(k), turn(k));
    }
  }

  lemma MovedStill(env: Env, cost: string -> real, a: TickState)
    requires Underway(env, cost, a.task)
    ensures Moved(env, cost, a, a)
  {
  }

  /** One turn more. */
  lemma MovedOn(env: Env, cost: string -> real, st: nat -> TickState, k: nat, j: nat)
    requires AllMoved(env, cost, st) && Underway(env, cost, st(k).task)
    requires Moved(env, cost, st(k), st(j)) && st(j).task.status != Completed
    ensures Moved(env, cost, st(k), st(j + 1))
  {
    assert Underway(env, cost, st(j).task);
    assert Moved(env, cost, st(j), st(j + 1));
    MovedThrough(env, cost, st(k), st(j), st(j + 1));
  }

  /** Until `j`: the task is completed on the way, or it is still as it was, or there is less left to do. */
  lemma {:induction false} UntilTurn(env: Env, cost: string -> real, st: nat -> TickState, k: nat, j: nat) returns (n: nat)
    requires AllMoved(env, cost, st) && Underway(env, cost, st(k).task) && k <= j
    ensures n <= j && Moved(env, cost, st(k), st(n)) && (n == j || st(n).task.status == Completed)
    decreases j - k
  {
    if k == j {
      MovedStill(env, cost, st(k));
      n := k;
    } else {
      n := UntilTurn(env, cost, st, k, j - 1);
      if st(n).task.status != Completed {
        MovedOn(env, cost, st, k, j - 1);
        n := j;
      }
    }
  }

  lemma NextDecisive(st: nat -> TickState, turn: nat -> Turn, k: nat) returns (i: nat, j: nat)
    requires Fair(st, turn)
    ensures k <= j && Decisive(st(k), turn(j), i) && (RunningAt(st(k), i) || forall m: nat :: !RunningAt(st(k), m))
  {
    if r: nat :| RunningAt(st(k), r) {
      i := r;
      assert Later(turn, k, DeliverTurn(i));
      j :| k <= j && turn(j) == DeliverTurn(i);
    } else {
      i := 0;
      assert Later(turn, k, TickTurn);
      j :| k <= j && turn(j) == TickTurn;
    }
  }

  /**
   However ticks and deliveries interleave, as long as the ticker keeps looking and every running
   step delivers at some time: a confirmed plan without peer reviews whose costs leave one step's
   share of the cap is completed.
   */
  lemma {:induction false} FairRunCompletes(env: Env, cost: string -> real, st: nat -> TickState, turn: nat -> Turn, k: nat)
      returns (n: nat)
    requires IsTurnRun(env, cost, st, turn) && Fair(st, turn) && Calm(env) && (forall id :: cost(id) >= 0.0)
    requires Underway(env, cost, st(k).task)
    ensures st(n).task.status == Completed
    decreases Weight(st(k).task.rows)
  {
    var i, j := NextDecisive(st, turn, k);
    EveryTurnMoves(env, cost, st, turn);
    n := UntilTurn(env, cost, st, k, j);
    if st(n).task.status != Completed {
      if st(j) == st(k) {
        DecisiveTurn(env, cost, st(j), turn(j), i);
        assert st(j + 1) == TakeTurn(env, cost, st(j), turn(j));
        n := j + 1;
      }
      if st(n).task.status != Completed {
        n := FairRunCompletes(env, cost, st, turn, n);
      }
    }
  }
}
