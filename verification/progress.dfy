/**
 What the coordinator's tick guarantees: it keeps a task's plan sound, and exactly when it
 leaves an unfinished task alone (src/agent/coordinator_graph.py).
 */
module Progress {
  import opened Common
  import opened DependencyGraph
  import opened Planning
  import opened TaskRows
  import opened PlanRuns
  import opened TeamTaskStore
  import opened Ticker

  // ---------------------------------------------------------------------------------------
  // A sound plan with nothing in flight always has a step to start
  // ---------------------------------------------------------------------------------------

  /** Every row is waiting to start or finished well. */
  predicate Quiet(rows: seq<Row>) {
    forall i :: 0 <= i < |rows| ==> rows[i].status == Pending || rows[i].status == Done
  }

  lemma {:induction false} GroundedAt(rows: seq<Row>, i: nat)
    requires Grounded(rows) && i < |rows|
    ensures GroundedRow(rows[..i], rows[i])
  {
    var front := rows[..|rows| - 1];
    if i < |rows| - 1 {
      GroundedAt(front, i);
      assert front[..i] == rows[..i];
    }
  }

  /** The confirmed row with a given id carries that node's deps. */
  lemma ConfirmedRowOf(rows: seq<Row>, id: string) returns (i: nat)
    requires UniqueRows(rows) && UniqueIds(Confirmed(rows)) && id in GraphOf(Confirmed(rows))
    ensures i < |rows| && rows[i].step.stepId == id && rows[i].step.deps == GraphOf(Confirmed(rows))[id]
  {
    var k: nat :| k < |Confirmed(rows)| && Confirmed(rows)[k].stepId == id;
    var c := Confirmed(rows)[k];
    ConfirmedMember(rows, c);
    i :| i < |rows| && !rows[i].systemInserted && rows[i].step == c;
  }

  /** Of the unfinished confirmed steps, the first in dependency order is ready. */
  lemma {:induction false} ReadyInOrder(t: TeamTask, order: seq<string>, k: nat) returns (i: nat)
    requires Sound(t) && Quiet(t.rows)
    requires TopologicalOrder(GraphOf(Confirmed(t.rows)), order)
    requires k < |order| && !DoneRow(t.rows, order[k])
    ensures i < |t.rows| && Ready(t.rows, i)
    decreases k
  {
    var g := GraphOf(Confirmed(t.rows));
    if AllDepsDone(t.rows, g[order[k]]) {
      i := ConfirmedRowOf(t.rows, order[k]);
      assert t.rows[i].status == Pending;
    } else {
      var m := EarlierUndone(t.rows, g, order, k);
      i := ReadyInOrder(t, order, m);
    }
  }

  predicate AllDepsDone(rows: seq<Row>, deps: seq<string>) {
    forall d :: d in deps ==> DoneRow(rows, d)
  }

  lemma EarlierUndone(rows: seq<Row>, g: Graph, order: seq<string>, k: nat) returns (m: nat)
    requires OrderedPrefix(g, order) && k < |order| && !AllDepsDone(rows, g[order[k]])
    ensures m < k && !DoneRow(rows, order[m])
  {
    var d :| d in g[order[k]] && !DoneRow(rows, d);
    assert DepsBefore(g, order, k);
    m :| m < k && order[..k][m] == d;
  }

  /** The earliest pending row, if ticker-minted, has only finished rows above it. */
  lemma ReadyMinted(t: TeamTask, i: nat)
    requires Sound(t) && Quiet(t.rows)
    requires i < |t.rows| && t.rows[i].systemInserted && t.rows[i].status == Pending
    requires forall j :: 0 <= j < i ==> t.rows[j].status == Done
    ensures Ready(t.rows, i)
  {
    GroundedAt(t.rows, i);
    forall d | d in t.rows[i].step.deps
      ensures DoneRow(t.rows, d)
    {
      assert HasRow(t.rows[..i], d);
      var j: nat :| j < i && t.rows[..i][j].step.stepId == d;
      assert t.rows[j].status == Done;
    }
  }

  lemma FirstPending(rows: seq<Row>, from: nat) returns (i: nat)
    requires Quiet(rows) && !AllDone(rows) && from <= |rows|
    requires forall j :: 0 <= j < from ==> rows[j].status == Done
    ensures i < |rows| && rows[i].status == Pending
    ensures forall j :: 0 <= j < i ==> rows[j].status == Done
    decreases |rows| - from
  {
    if rows[from].status == Pending { i := from; } else { i := FirstPending(rows, from + 1); }
  }

  lemma ReadyExists(t: TeamTask) returns (i: nat)
    requires Sound(t) && Quiet(t.rows) && !AllDone(t.rows)
    ensures i < |t.rows| && Ready(t.rows, i)
  {
    i := FirstPending(t.rows, 0);
    if t.rows[i].systemInserted {
      ReadyMinted(t, i);
    } else {
      ConfirmedMember(t.rows, t.rows[i].step);
      var g := GraphOf(Confirmed(t.rows));
      var order :| TopologicalOrder(g, order);
      var id := t.rows[i].step.stepId;
      assert id in g.Keys && id in Elements(order);
      var k: nat :| k < |order| && order[k] == id;
      if DoneRow(t.rows, id) {
        var j: nat :| j < |t.rows| && t.rows[j].step.stepId == id && t.rows[j].status == Done;
        SameSlot(t.rows, i, j);
        assert false;
      }
      i := ReadyInOrder(t, order, k);
    }
  }

  // ---------------------------------------------------------------------------------------
  // When a tick does nothing
  // ---------------------------------------------------------------------------------------

  lemma SoundHash(t: TeamTask)
    requires Sound(t)
    ensures HashVerified(t)
  {
  }

  /** A tick that reports nothing, or that raises, changed nothing. */
  lemma IdleUnchanged(env: Env, st: TickState)
    requires Act(env, st).action == Idle || Act(env, st).action == Raised
    ensures Act(env, st).st == st
  {
  }

  predicate NoReviewDue(env: Env, rows: seq<Row>) {
    forall i: nat :: i < |rows| ==> !ReviewDue(env, rows, i)
  }

  /** Nothing running or awaiting: no poll can act. */
  lemma NothingToPoll(env: Env, st: TickState)
    requires !SomeInFlight(st.task.rows)
    ensures FirstRunning(env, st) == |st.task.rows| && FirstAwaiting(env, st) == |st.task.rows|
    ensures RunningCount(st.task.rows) == 0
  {
    forall i: nat | i < |st.task.rows|
      ensures !RunningActs(env, st, i) && !AwaitingActs(env, st, i)
    {
      assert !InFlightRow(st.task.rows[i]);
    }
    NoneRunning(st.task.rows);
  }

  lemma {:induction false} NoneRunning(rows: seq<Row>)
    requires forall i :: 0 <= i < |rows| ==> rows[i].status != Running
    ensures RunningCount(rows) == 0
  {
    if rows != [] { NoneRunning(rows[..|rows| - 1]); }
  }

  /** Dispatch starts nothing exactly when nothing is ready or there is no room for one step. */
  lemma DispatchIdle(env: Env, st: TickState)
    ensures Dispatch(env, st).action == Idle <==>
              (forall i: nat :: i < |st.task.rows| ==> !Ready(st.task.rows, i)) || !Room(env, st.task, 0)
  {
    var ready := ReadyBelow(st.task.rows, |st.task.rows|);
    var q := Quota(env, st.task, |ready|, 0);
    ReadyListed(st.task.rows, |st.task.rows|);
    if q == 0 {
      if ready == [] {
        forall i: nat | i < |st.task.rows|
          ensures !Ready(st.task.rows, i)
        {
          assert i !in ready;
        }
      }
    } else {
      assert Ready(st.task.rows, ready[0]) && Room(env, st.task, 0);
    }
  }

  /**
   The exact condition under which a tick leaves a sound task with nothing in flight alone: it is
   unfinished, nothing has died, the cap holds, no review is due, and there is no room for a step.
   */
  lemma IdleIff(env: Env, st: TickState)
    requires Sound(st.task) && !SomeInFlight(st.task.rows)
    ensures Act(env, st).action == Idle <==>
              && Spent(st.task) <= env.cap && NoReviewDue(env, st.task.rows)
              && !AllDone(st.task.rows) && !SomeDead(st.task.rows)
              && !Room(env, st.task, 0)
  {
    SoundHash(st.task);
    NothingToPoll(env, st);
    DispatchIdle(env, st);
    ActIdle(env, st);
    if !SomeDead(st.task.rows) && !AllDone(st.task.rows) {
      QuietRows(st.task.rows);
      var i := ReadyExists(st.task);
    }
  }

  lemma QuietRows(rows: seq<Row>)
    requires !SomeDead(rows) && !SomeInFlight(rows)
    ensures Quiet(rows)
  {
    forall i | 0 <= i < |rows|
      ensures rows[i].status == Pending || rows[i].status == Done
    {
      assert !DeadRow(rows[i]) && !InFlightRow(rows[i]);
    }
  }

  lemma ActIdle(env: Env, st: TickState)
    requires HashVerified(st.task) && st.task.rows != [] && !SomeInFlight(st.task.rows)
    requires FirstRunning(env, st) == |st.task.rows| && FirstAwaiting(env, st) == |st.task.rows|
    ensures Act(env, st).action == Idle <==>
              && Spent(st.task) <= env.cap && NoReviewDue(env, st.task.rows) && Dispatch(env, st).action == Idle
              && !AllDone(st.task.rows) && !SomeDead(st.task.rows)
  {
    var review := FirstReview(env, st.task.rows);
    if review < |st.task.rows| {
      assert ReviewDue(env, st.task.rows, review);
    }
  }

  /**
   The documented guarantee, with the condition it needs: if a tick reports nothing for a sound
   task, then a step is running or awaiting approval, or there is no room for one more step.
   */
  lemma IdleMeansInFlightOrNoRoom(env: Env, st: TickState)
    requires Sound(st.task) && Act(env, st).action == Idle
    ensures SomeInFlight(st.task.rows) || !Room(env, st.task, 0)
  {
    if !SomeInFlight(st.task.rows) {
      IdleIff(env, st);
    }
  }

  /**
   The family in which the guarantee fails: less than one step's share of the cap is left, but the
   cap is not exceeded. No tick, whatever the outside world answers, ever changes such a task.
   */
  lemma StuckWithoutHeadroom(env: Env, st: TickState)
    requires Sound(st.task) && Quiet(st.task.rows) && !AllDone(st.task.rows)
    requires NoReviewDue(env, st.task.rows)
    requires env.cap - Estimate(env.cap) < Spent(st.task) <= env.cap
    ensures Act(env, st) == Outcome(Idle, st)
  {
    QuietNotDead(st.task.rows);
    NothingToPoll(env, st);
    NoRoomLeft(env, st.task);
    IdleIff(env, st);
    IdleUnchanged(env, st);
  }

  lemma QuietNotDead(rows: seq<Row>)
    requires Quiet(rows)
    ensures !SomeInFlight(rows) && !SomeDead(rows)
  {
  }

  lemma NoRoomLeft(env: Env, t: TeamTask)
    requires RunningCount(t.rows) == 0 && env.cap - Estimate(env.cap) < Spent(t)
    ensures !Room(env, t, 0)
  {
  }

  // ---------------------------------------------------------------------------------------
  // Every action of a tick keeps the plan sound
  // ---------------------------------------------------------------------------------------

  /** What a tick keeps of a sound task. */
  ghost predicate Keeps(t: TeamTask, t': TeamTask) {
    Sound(t') && Persists(t.rows, t'.rows) && t'.picId == t.picId
  }

  lemma KeepsThrough(a: TeamTask, b: TeamTask, c: TeamTask)
    requires Keeps(a, b) && Keeps(b, c)
    ensures Keeps(a, c)
  {
    PersistsThrough(a.rows, b.rows, c.rows);
  }

  lemma RowKept(t: TeamTask, i: nat, r: Row)
    requires Sound(t) && i < |t.rows| && Advances(t.rows[i], r) && MayAdvance(t.rows, i)
    ensures Keeps(t, t.(rows := t.rows[i := r]))
  {
    AdvanceSound(t, i, r);
    PersistsAdvance(t.rows, i, r);
  }

  /** A ready row may leave `pending`: the finished rows it waits for are the ones above it. */
  lemma ReadyMayAdvance(t: TeamTask, i: nat)
    requires Sound(t) && i < |t.rows| && Ready(t.rows, i)
    ensures MayAdvance(t.rows, i)
  {
    GroundedAt(t.rows, i);
    if t.rows[i].systemInserted {
      forall d | d in t.rows[i].step.deps
        ensures StartedRow(t.rows[..i], d)
      {
        assert HasRow(t.rows[..i], d);
        var j: nat :| j < i && t.rows[..i][j].step.stepId == d;
        var k: nat :| k < |t.rows| && t.rows[k].step.stepId == d && t.rows[k].status == Done;
        SameSlot(t.rows, j, k);
        assert t.rows[..i][j].status != Pending;
      }
    }
  }

  lemma SpawnKeeps(env: Env, st: TickState, i: nat)
    requires Sound(st.task) && i < |st.task.rows| && MayAdvance(st.task.rows, i)
    ensures Keeps(st.task, Spawn(env, st, i).st.task)
    ensures |Spawn(env, st, i).st.task.rows| == |st.task.rows|
    ensures forall j :: 0 <= j < |st.task.rows| && j != i ==> Spawn(env, st, i).st.task.rows[j] == st.task.rows[j]
  {
    RowKept(st.task, i, Spawn(env, st, i).st.task.rows[i]);
  }

  /** Starting one ready row leaves the later ready rows ready. */
  lemma ReadyThroughSpawn(env: Env, st: TickState, i: nat, j: nat)
    requires UniqueRows(st.task.rows)
    requires i < |st.task.rows| && j < |st.task.rows| && i != j && Ready(st.task.rows, i) && Ready(st.task.rows, j)
    ensures Ready(Spawn(env, st, i).st.task.rows, j)
  {
    var rows, rows' := st.task.rows, Spawn(env, st, i).st.task.rows;
    forall d | d in rows[j].step.deps
      ensures DoneRow(rows', d)
    {
      var k: nat :| k < |rows| && rows[k].step.stepId == d && rows[k].status == Done;
      assert rows'[k] == rows[k];
    }
  }

  /** Starting the first `k` ready rows keeps the plan sound and the other ready rows ready. */
  lemma {:induction false} SpawnFirstKeeps(env: Env, st: TickState, places: seq<nat>, k: nat)
    requires Sound(st.task) && ReadyPlaces(st.task.rows, places) && k <= |places|
    ensures Places(st.task.rows, places)
    ensures Keeps(st.task, SpawnFirst(env, st, places, k).st.task)
    ensures forall m :: k <= m < |places| ==> Ready(SpawnFirst(env, st, places, k).st.task.rows, places[m])
  {
    if k == 0 {
      PersistsSelf(st.task.rows);
    } else {
      SpawnFirstKeeps(env, st, places, k - 1);
      var before, last := SpawnFirst(env, st, places, k - 1).st, places[k - 1];
      ReadyMayAdvance(before.task, last);
      SpawnKeeps(env, before, last);
      KeepsThrough(st.task, before.task, Spawn(env, before, last).st.task);
      forall m | k <= m < |places|
        ensures Ready(Spawn(env, before, last).st.task.rows, places[m])
      {
        ReadyThroughSpawn(env, before, last, places[m]);
      }
    }
  }

  /** The row a review rule mints is ticker-minted and waits only for rows that exist. */
  lemma MintWaitsForRows(env: Env, rows: seq<Row>, i: nat)
    requires i < |rows| && ReviewRule(env, rows, i).Mint?
    ensures var row := ReviewRule(env, rows, i).row;
            && Minted(row) == row
            && forall d :: d in row.step.deps ==> HasRow(rows, d)
  {
  }

  /** The newest review of a parent is the one that has come furthest. */
  lemma NewestFurthest(rows: seq<Row>, parent: string, j: nat)
    requires Shaped(rows) && j < |rows| && rows[j].stepType == Review && rows[j].parent == Some(parent)
    ensures NewestChild(rows, parent, Review) < |rows|
    ensures rows[j].reviewRound <= rows[NewestChild(rows, parent, Review)].reviewRound
  {
    var k := NewestChild(rows, parent, Review);
    assert FitsRound(rows[..k], rows[k]);
    assert j < k ==> rows[..k][j] == rows[j];
  }

  /** The review rule mints rows of the right shape, round after round. */
  lemma MintShaped(env: Env, rows: seq<Row>, i: nat)
    requires i < |rows| && Shaped(rows) && ReviewRule(env, rows, i).Mint?
    ensures MintedShape(ReviewRule(env, rows, i).row) && FitsRound(rows, ReviewRule(env, rows, i).row)
  {
    var row := ReviewRule(env, rows, i).row;
    assert PlannedShape(rows[i]) || MintedShape(rows[i]);
    forall j | 0 <= j < |rows| && rows[j].stepType == Review && rows[j].parent == row.parent
      ensures rows[j].reviewRound <= row.reviewRound || row.stepType != Review
    {
      NewestFurthest(rows, row.parent.value, j);
    }
  }

  lemma ReviewKeeps(env: Env, st: TickState, i: nat)
    requires Sound(st.task) && ReviewDue(env, st.task.rows, i)
    ensures Keeps(st.task, ApplyReview(env, st, i).st.task)
  {
    PersistsSelf(st.task.rows);
    match ReviewRule(env, st.task.rows, i)
    case Exhausted =>
    case Mint(row) =>
      MintWaitsForRows(env, st.task.rows, i);
      MintShaped(env, st.task.rows, i);
      if !HasRow(st.task.rows, row.step.stepId) {
        InsertSound(st.task, row);
        PersistsAppend(st.task.rows, [row]);
      }
  }

  lemma PollRunningKeeps(env: Env, st: TickState, i: nat)
    requires Sound(st.task) && i < |st.task.rows| && st.task.rows[i].status == Running
    ensures Keeps(st.task, PollRunning(env, st, i).st.task)
  {
    PersistsSelf(st.task.rows);
    var r := st.task.rows[i];
    if Dead(env, r) && RetryCount(st.retries, r.step.stepId) < MAX_STEP_RETRIES {
      var id := r.step.stepId;
      SpawnKeeps(env, st.(retries := st.retries[id := RetryCount(st.retries, id) + 1]), i);
    } else if Dead(env, r) {
      RowKept(st.task, i, Written(r, Mark(Failed, r.attempt)));
    } else if env.leaseExpired(r.step.stepId) {
      RowKept(st.task, i, Written(r, Mark(TimedOut, r.attempt)));
    }
  }

  lemma PollAwaitingKeeps(env: Env, st: TickState, i: nat)
    requires Sound(st.task) && i < |st.task.rows| && Polled(st.task.rows[i])
    ensures Keeps(st.task, PollAwaiting(env, st, i).st.task)
  {
    PersistsSelf(st.task.rows);
    var r := st.task.rows[i];
    match env.approval(r.approvalId.value)
    case Approved => SpawnKeeps(env, st, i);
    case Rejected => RowKept(st.task, i, Written(r, Mark(Failed, r.attempt)));
    case Undecided =>
  }

  lemma DispatchKeeps(env: Env, st: TickState)
    requires Sound(st.task)
    ensures Keeps(st.task, Dispatch(env, st).st.task)
  {
    var ready := ReadyBelow(st.task.rows, |st.task.rows|);
    ReadyListed(st.task.rows, |st.task.rows|);
    SpawnFirstKeeps(env, st, ready, Quota(env, st.task, |ready|, 0));
  }

  /** The hash re-check stalls a task exactly when the stored hash is not that of its confirmed rows. */
  lemma HashStallIff(env: Env, st: TickState)
    ensures Act(env, st).action == HashStall <==> !HashVerified(st.task)
    ensures Sound(st.task) ==> Act(env, st).action != HashStall
  {
    if Sound(st.task) { SoundHash(st.task); }
  }

  /** Every tick of a sound task leaves it sound. */
  lemma ActKeeps(env: Env, st: TickState)
    requires Sound(st.task)
    ensures Keeps(st.task, Act(env, st).st.task)
  {
    SoundHash(st.task);
    PersistsSelf(st.task.rows);
    var review := FirstReview(env, st.task.rows);
    if review < |st.task.rows| {
      ReviewKeeps(env, st, review);
    } else {
      PollOrStartKeeps(env, st);
    }
  }

  lemma PollOrStartKeeps(env: Env, st: TickState)
    requires Sound(st.task)
    ensures Keeps(st.task, PollOrStart(env, st).st.task)
  {
    var running, awaiting := FirstRunning(env, st), FirstAwaiting(env, st);
    if running < |st.task.rows| {
      PollRunningKeeps(env, st, running);
    } else if awaiting < |st.task.rows| {
      PollAwaitingKeeps(env, st, awaiting);
    } else {
      StartKeeps(env, st);
    }
  }

  lemma StartKeeps(env: Env, st: TickState)
    requires Sound(st.task)
    ensures Keeps(st.task, Dispatch(env, st).st.task) && Keeps(st.task, Wrap(env, st).st.task)
  {
    DispatchKeeps(env, st);
    WrapKeeps(env, st);
  }

  lemma WrapKeeps(env: Env, st: TickState)
    requires Sound(st.task)
    ensures Keeps(st.task, Wrap(env, st).st.task)
  {
    PersistsSelf(st.task.rows);
  }

  /** A whole tick, between any other events of a run, keeps the run's invariant. */
  lemma TickKeepsRun(env: Env, w: World, retries: map<string, nat>, leases: nat)
    requires WorldInv(w)
    ensures WorldInv(w.(task := Act(env, TickState(w.task, retries, leases)).st.task))
  {
    ActKeeps(env, TickState(w.task, retries, leases));
    BoundThrough(w, w.(task := Act(env, TickState(w.task, retries, leases)).st.task));
  }

  // ---------------------------------------------------------------------------------------
  // Whole runs with ticks
  // ---------------------------------------------------------------------------------------

  /** The ticker advances the task while previews and drafts are outstanding. */
  function Ticked(w: World, env: Env, retries: map<string, nat>, leases: nat): World {
    w.(task := Act(env, TickState(w.task, retries, leases)).st.task)
  }

  datatype Move = Operation(event: Event) | Tick(env: Env, retries: map<string, nat>, leases: nat)

  ghost predicate Moves(w: World, m: Move, w': World) {
    match m
    case Operation(e) => Next(w, e, w')
    case Tick(env, retries, leases) => w' == Ticked(w, env, retries, leases)
  }

  /** A run of store operations and ticks, in any order, from a freshly persisted accepted plan. */
  ghost predicate IsLiveRun(ws: seq<World>, ms: seq<Move>) {
    && |ws| == |ms| + 1
    && Start(ws[0])
    && forall i :: 0 <= i < |ms| ==> Moves(ws[i], ms[i], ws[i + 1])
  }

  lemma {:induction false} EveryLiveRunSound(ws: seq<World>, ms: seq<Move>, i: nat)
    requires IsLiveRun(ws, ms) && i < |ws|
    ensures WorldInv(ws[i])
  {
    if i == 0 {
      StartSound(ws[0]);
    } else {
      EveryLiveRunSound(ws, ms, i - 1);
      assert Moves(ws[i - 1], ms[i - 1], ws[i]);
      match ms[i - 1]
      case Operation(e) => NextKeeps(ws[i - 1], e, ws[i]);
      case Tick(env, retries, leases) => TickKeepsRun(env, ws[i - 1], retries, leases);
    }
  }
}
