/**
 What any run of store operations and ticks can lead to, and what every such state has in common
 (src/agent/coordinator_graph.py, src/agent/ops_adjust_team_task.py).
 */
module LiveTasks {
  import opened TaskRows
  import opened Amendment
  import opened PlanRuns
  import opened Ticker
  import opened Progress

  // ---------------------------------------------------------------------------------------
  // What can come about
  // ---------------------------------------------------------------------------------------

  /** Some run leads to this world. */
  ghost predicate LiveWorld(w: World) {
    exists ws, ms :: IsLiveRun(ws, ms) && ws[|ws| - 1] == w
  }

  /** A task that can come about, whatever previews and drafts are outstanding. */
  ghost predicate LiveTask(t: TeamTask) {
    exists w :: LiveWorld(w) && w.task == t
  }

  ghost predicate Chained<S(!new), M(!new)>(step: (S, M, S) -> bool, ss: seq<S>, ms: seq<M>) {
    |ss| == |ms| + 1 && forall i :: 0 <= i < |ms| ==> step(ss[i], ms[i], ss[i + 1])
  }

  lemma ChainGrows<S(!new), M(!new)>(step: (S, M, S) -> bool, ss: seq<S>, ms: seq<M>, m: M, s: S)
    requires Chained(step, ss, ms) && step(ss[|ms|], m, s)
    ensures Chained(step, ss + [s], ms + [m])
  {
    forall i | 0 <= i < |ms| + 1
      ensures step((ss + [s])[i], (ms + [m])[i], (ss + [s])[i + 1])
    {
      assert i < |ms| ==> step(ss[i], ms[i], ss[i + 1]);
    }
  }

  lemma StartLive(w: World)
    requires Start(w)
    ensures LiveWorld(w)
  {
    assert IsLiveRun([w], []);
  }

  lemma MoveLive(w: World, m: Move, w': World)
    requires LiveWorld(w) && Moves(w, m, w')
    ensures LiveWorld(w')
  {
    var ws, ms :| IsLiveRun(ws, ms) && ws[|ws| - 1] == w;
    var step := (a: World, e: Move, b: World) => Moves(a, e, b);
    ChainGrows(step, ws, ms, m, w');
    LongerRun(ws, ms, m, w', step);
  }

  lemma LongerRun(ws: seq<World>, ms: seq<Move>, m: Move, w': World, step: (World, Move, World) -> bool)
    requires |ws| > 0 && Start(ws[0]) && Chained(step, ws + [w'], ms + [m])
    requires forall a, e, b :: step(a, e, b) ==> Moves(a, e, b)
    ensures LiveWorld(w')
  {
    var longer, moves := ws + [w'], ms + [m];
    assert longer[0] == ws[0] && longer[|longer| - 1] == w';
    assert forall i :: 0 <= i < |moves| ==> step(longer[i], moves[i], longer[i + 1]);
    assert IsLiveRun(longer, moves);
  }

  lemma ConfirmLive(t: TeamTask, h: PlanHash)
    requires LiveTask(t)
    ensures LiveTask(ConfirmPlanned(t, h))
  {
    var w :| LiveWorld(w) && w.task == t;
    MoveLive(w, Operation(ConfirmPlan(h)), w.(task := ConfirmPlanned(t, h)));
  }

  lemma CostLive(t: TeamTask, amount: real)
    requires LiveTask(t)
    ensures LiveTask(t.(decomposeCost := t.decomposeCost + amount))
  {
    var w :| LiveWorld(w) && w.task == t;
    MoveLive(w, Operation(RecordCost(amount, 0.0)), w.(task := t.(decomposeCost := t.decomposeCost + amount)));
  }

  lemma AdvanceLive(t: TeamTask, i: nat, r: Row)
    requires LiveTask(t) && i < |t.rows| && Advances(t.rows[i], r) && MayAdvance(t.rows, i)
    ensures LiveTask(t.(rows := t.rows[i := r]))
  {
    var w :| LiveWorld(w) && w.task == t;
    MoveLive(w, Operation(Advance(i, r)), w.(task := t.(rows := t.rows[i := r])));
  }

  lemma TickLive(env: Env, st: TickState)
    requires LiveTask(st.task)
    ensures LiveTask(Act(env, st).st.task)
  {
    var w :| LiveWorld(w) && w.task == st.task;
    MoveLive(w, Tick(env, st.retries, st.leases), w.(task := Act(env, st).st.task));
  }

  lemma LiveWorldSound(w: World)
    requires LiveWorld(w)
    ensures WorldInv(w)
  {
    var ws, ms :| IsLiveRun(ws, ms) && ws[|ws| - 1] == w;
    EveryLiveRunSound(ws, ms, |ws| - 1);
  }

  lemma LiveTaskSound(t: TeamTask)
    requires LiveTask(t)
    ensures Sound(t)
  {
    var w :| LiveWorld(w) && w.task == t;
    LiveWorldSound(w);
  }

  // ---------------------------------------------------------------------------------------
  // When an amend fails for what has started
  // ---------------------------------------------------------------------------------------

  /**
   At any point of any run an amend fails before the first model reply, when there is staff,
   exactly if a confirmed step that has started was left without id or assignee by stripping.
   */
  lemma AmendRefusedIff(t: TeamTask)
    requires LiveTask(t)
    ensures FrozenPrefix(t.rows).Err? <==> exists i :: 0 <= i < |t.rows| && StartedBlank(t.rows[i])
  {
    LiveTaskSound(t);
    FrozenBuilt(t.rows);
    FrozenFailsIff(t.rows);
  }
}
