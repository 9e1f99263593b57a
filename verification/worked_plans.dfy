/**
 Small plans carried to the states in which a promise fails: each one passes the planner's checks and
 is reached by store operations alone.
 */
module WorkedPlans {
  import opened Common
  import opened DependencyGraph
  import opened Planning
  import opened TaskRows
  import opened Amendment
  import opened PlanRuns
  import opened LiveTasks
  import Text

  // ---------------------------------------------------------------------------------------
  // Plans listed in an order in which they can be carried out
  // ---------------------------------------------------------------------------------------

  /** Each step only waits for steps listed before it. */
  predicate InOrder(steps: seq<StepContent>) {
    UniqueIds(steps) && forall i :: 0 <= i < |steps| ==> forall d :: d in steps[i].deps ==> d in Ids(steps[..i])
  }

  function Listed(steps: seq<StepContent>): (order: seq<string>)
    ensures |order| == |steps| && forall i :: 0 <= i < |steps| ==> order[i] == steps[i].stepId
  {
    seq(|steps|, i requires 0 <= i < |steps| => steps[i].stepId)
  }

  lemma EarlierStep(steps: seq<StepContent>, i: nat, d: string) returns (j: nat)
    requires InOrder(steps) && i < |steps| && d in steps[i].deps
    ensures j < i && steps[j].stepId == d
  {
    assert d in Ids(steps[..i]);
    j :| j < i && steps[..i][j].stepId == d;
  }

  lemma InOrderKnown(steps: seq<StepContent>)
    requires InOrder(steps)
    ensures KnownDeps(steps)
  {
    forall i, d | 0 <= i < |steps| && d in steps[i].deps
      ensures d in Ids(steps)
    {
      var j := EarlierStep(steps, i, d);
    }
  }

  lemma InOrderPrefix(steps: seq<StepContent>)
    requires InOrder(steps)
    ensures OrderedPrefix(GraphOf(steps), Listed(steps))
  {
    var g, order := GraphOf(steps), Listed(steps);
    forall i | 0 <= i < |steps|
      ensures DepsBefore(g, order, i)
    {
      forall d | d in steps[i].deps
        ensures d in order[..i]
      {
        var j := EarlierStep(steps, i, d);
        assert order[..i][j] == d;
      }
    }
  }

  lemma InOrderHasOrder(steps: seq<StepContent>)
    requires InOrder(steps)
    ensures KnownDeps(steps) && HasOrder(GraphOf(steps))
  {
    InOrderKnown(steps);
    InOrderPrefix(steps);
    var g, order := GraphOf(steps), Listed(steps);
    forall n | n in g
      ensures n in Elements(order)
    {
      var j: nat :| j < |steps| && steps[j].stepId == n;
      assert order[j] == n;
    }
    assert TopologicalOrder(g, order);
  }

  /** Every step but the last is waited for. */
  predicate Funnels(steps: seq<StepContent>) {
    forall i :: 0 <= i < |steps| - 1 ==> steps[i].stepId in DepTargets(steps)
  }

  lemma DepsEarlier(steps: seq<StepContent>, i: nat, id: string, k: nat)
    requires InOrder(steps) && i <= k < |steps| && id == steps[k].stepId
    ensures id !in steps[i].deps
  {
    forall d | d in steps[i].deps
      ensures d != id
    {
      var j := EarlierStep(steps, i, d);
    }
  }

  lemma LastNotWaitedFor(steps: seq<StepContent>)
    requires steps != [] && InOrder(steps)
    ensures steps[|steps| - 1].stepId !in DepTargets(steps)
  {
    var last := steps[|steps| - 1];
    forall i | 0 <= i < |steps|
      ensures last.stepId !in steps[i].deps
    {
      DepsEarlier(steps, i, last.stepId, |steps| - 1);
    }
  }

  lemma LastIsTerminal(steps: seq<StepContent>)
    requires steps != [] && InOrder(steps) && Funnels(steps)
    ensures Terminals(steps, DepTargets(steps)) == [steps[|steps| - 1]]
  {
    LastNotWaitedFor(steps);
    OneNotWaitedFor(steps, DepTargets(steps));
  }

  lemma OneNotWaitedFor(steps: seq<StepContent>, targets: set<string>)
    requires steps != [] && UniqueIds(steps)
    requires steps[|steps| - 1].stepId !in targets && forall i :: 0 <= i < |steps| - 1 ==> steps[i].stepId in targets
    ensures Terminals(steps, targets) == [steps[|steps| - 1]]
  {
    var r := Terminals(steps, targets);
    TerminalsDistinct(steps, targets);
    forall s | s in r
      ensures s.stepId == steps[|steps| - 1].stepId
    {
      var i: nat :| i < |steps| && steps[i] == s;
    }
    OnlyOne(r, steps[|steps| - 1]);
  }

  /** A plan in order whose steps are all one person's passes every check with that person as PIC. */
  lemma PlanAssigned(raws: seq<StepPlan>, plans: seq<StepPlan>, who: string)
    requires MakeAll(raws) == Ok(plans) && AllWork(plans) && 1 <= |plans| <= MAX_STEPS && who != ""
    requires InOrder(Contents(plans)) && Funnels(Contents(plans))
    requires forall i :: 0 <= i < |plans| ==> plans[i].step.assignedTo == who
    ensures AssignedPlan(plans, {who}, who)
  {
    InOrderSchema(plans);
    InOrderAcceptable(Contents(plans), who);
  }

  lemma InOrderSchema(plans: seq<StepPlan>)
    requires AllWork(plans) && 1 <= |plans| <= MAX_STEPS && InOrder(Contents(plans))
    ensures SchemaProblem(plans).None?
  {
    var steps := Contents(plans);
    InOrderHasOrder(steps);
    forall i | 0 <= i < |plans|
      ensures plans[i].step.stepId !in plans[i].step.deps
    {
      assert steps[i] == plans[i].step;
      DepsEarlier(steps, i, steps[i].stepId, i);
    }
    SchemaAccepts(plans);
  }

  lemma InOrderAcceptable(steps: seq<StepContent>, who: string)
    requires 1 <= |steps| <= MAX_STEPS && InOrder(steps) && Funnels(steps)
    requires forall i :: 0 <= i < |steps| ==> steps[i].assignedTo == who
    ensures Acceptable(steps, {who}, who)
  {
    InOrderHasOrder(steps);
    OrderExcludesCycle(GraphOf(steps));
    LastIsTerminal(steps);
  }

  /** Steps that pass the field validators unchanged. */
  lemma {:induction false} MadeOfItself(plans: seq<StepPlan>)
    requires forall i :: 0 <= i < |plans| ==> MakeStep(plans[i]) == Ok(plans[i])
    ensures MakeAll(plans) == Ok(plans)
  {
    if plans != [] {
      MadeOfItself(plans[..|plans| - 1]);
      assert plans == plans[..|plans| - 1] + [plans[|plans| - 1]];
    }
  }

  // ---------------------------------------------------------------------------------------
  // From the draft to any mixture of row states
  // ---------------------------------------------------------------------------------------

  /** The row of this step: as planned, or moved on. */
  predicate RowOf(p: StepPlan, r: Row) {
    r == PlannedRow(p) || Advances(PlannedRow(p), r)
  }

  predicate RowsOf(plans: seq<StepPlan>, rows: seq<Row>) {
    |rows| == |plans| && forall i :: 0 <= i < |plans| ==> RowOf(plans[i], rows[i])
  }

  function OpenTask(plans: seq<StepPlan>, who: string, spent: real, rows: seq<Row>): TeamTask {
    TeamTask(Open, Some(Contents(plans)), who, spent, 0.0, rows)
  }

  lemma DraftLive(plans: seq<StepPlan>, who: string)
    requires AssignedPlan(plans, {who}, who)
    ensures LiveTask(TeamTask(Planned, Some(Contents(plans)), who, 0.0, 0.0, PlannedRows(plans)))
  {
    var w := World(TeamTask(Planned, Some(Contents(plans)), who, 0.0, 0.0, PlannedRows(plans)), [], []);
    assert AcceptedPlan(plans, {who}, w.task.picId);
    assert Start(w);
    StartLive(w);
  }

  lemma OpenLive(plans: seq<StepPlan>, who: string, spent: real)
    requires LiveTask(TeamTask(Planned, Some(Contents(plans)), who, 0.0, 0.0, PlannedRows(plans)))
    ensures LiveTask(OpenTask(plans, who, spent, PlannedRows(plans)))
  {
    var t := TeamTask(Planned, Some(Contents(plans)), who, 0.0, 0.0, PlannedRows(plans));
    ConfirmLive(t, Contents(plans));
    CostLive(t.(status := Open), spent);
  }

  /** The first `k` rows as in `rows`, the others as planned. */
  function Mixture(plans: seq<StepPlan>, rows: seq<Row>, k: nat): (r: seq<Row>)
    requires |rows| == |plans| && k <= |plans|
    ensures |r| == |plans|
    ensures forall i :: 0 <= i < |plans| ==> r[i] == if i < k then rows[i] else PlannedRow(plans[i])
  {
    seq(|plans|, i requires 0 <= i < |plans| => if i < k then rows[i] else PlannedRow(plans[i]))
  }

  lemma {:induction false} MixtureLive(plans: seq<StepPlan>, who: string, spent: real, rows: seq<Row>, k: nat)
    requires LiveTask(OpenTask(plans, who, spent, PlannedRows(plans)))
    requires RowsOf(plans, rows) && k <= |plans|
    ensures LiveTask(OpenTask(plans, who, spent, Mixture(plans, rows, k)))
  {
    if k == 0 {
      assert Mixture(plans, rows, 0) == PlannedRows(plans);
    } else {
      MixtureLive(plans, who, spent, rows, k - 1);
      NextRowLive(OpenTask(plans, who, spent, Mixture(plans, rows, k - 1)), plans[k - 1], k - 1, rows[k - 1]);
      assert Mixture(plans, rows, k - 1)[k - 1 := rows[k - 1]] == Mixture(plans, rows, k);
    }
  }

  lemma NextRowLive(t: TeamTask, p: StepPlan, i: nat, r: Row)
    requires LiveTask(t) && i < |t.rows| && t.rows[i] == PlannedRow(p) && RowOf(p, r)
    ensures LiveTask(t.(rows := t.rows[i := r]))
  {
    if r == t.rows[i] {
      assert t.rows[i := r] == t.rows;
    } else {
      AdvanceLive(t, i, r);
    }
  }

  /** An assigned plan can get to any mixture of row states, with any amount spent on planning it. */
  lemma TaskLive(plans: seq<StepPlan>, who: string, spent: real, rows: seq<Row>)
    requires AssignedPlan(plans, {who}, who) && RowsOf(plans, rows)
    ensures LiveTask(OpenTask(plans, who, spent, rows)) && Sound(OpenTask(plans, who, spent, rows))
  {
    DraftLive(plans, who);
    OpenLive(plans, who, spent);
    MixtureLive(plans, who, spent, rows, |plans|);
    assert Mixture(plans, rows, |plans|) == rows;
    LiveTaskSound(OpenTask(plans, who, spent, rows));
  }

  // ---------------------------------------------------------------------------------------
  // Plans of one, two and three steps
  // ---------------------------------------------------------------------------------------

  function StepNo(id: string, deps: seq<string>, needsReview: bool): StepPlan {
    StepPlan(StepContent(id, "x", "c", deps), Work, needsReview)
  }

  lemma StepMade(id: string, deps: seq<string>, needsReview: bool)
    requires Text.Stripped(id) && 1 <= |id| <= 40
    ensures MakeStep(StepNo(id, deps, needsReview)) == Ok(StepNo(id, deps, needsReview))
  {
    Text.StripFixed(id);
    Text.StripFixed("x");
    Text.StripFixed("c");
  }

  lemma OneStepAssigned(raws: seq<StepPlan>, p: StepPlan)
    requires MakeAll(raws) == Ok([p]) && p.stepType == Work && p.step.assignedTo == "c" && p.step.deps == []
    ensures AssignedPlan([p], {"c"}, "c")
  {
    assert Contents([p]) == [p.step];
    PlanAssigned(raws, [p], "c");
  }

  lemma TwoInOrder(steps: seq<StepContent>)
    requires |steps| == 2 && steps[0].stepId != steps[1].stepId && steps[0].deps == [] && steps[1].deps == [steps[0].stepId]
    ensures InOrder(steps) && Funnels(steps)
  {
    assert steps[..1][0] == steps[0];
    assert steps[0].stepId in Ids(steps[..1]) && steps[0].stepId in steps[1].deps;
  }

  lemma ThreeInOrder(steps: seq<StepContent>)
    requires |steps| == 3 && UniqueIds(steps)
    requires steps[0].deps == [] && steps[1].deps == [] && steps[2].deps == [steps[0].stepId, steps[1].stepId]
    ensures InOrder(steps) && Funnels(steps)
  {
    assert steps[..2][0] == steps[0] && steps[..2][1] == steps[1];
    assert steps[0].stepId in Ids(steps[..2]) && steps[1].stepId in Ids(steps[..2]);
    assert steps[0].stepId in steps[2].deps && steps[1].stepId in steps[2].deps;
  }

  /** Plans of built steps that are all the PIC's. */
  predicate Ordinary(plans: seq<StepPlan>) {
    1 <= |plans| <= MAX_STEPS && AllWork(plans)
    && forall i :: 0 <= i < |plans| ==> MakeStep(plans[i]) == Ok(plans[i]) && plans[i].step.assignedTo == "c"
  }

  lemma OrdinaryAssigned(plans: seq<StepPlan>)
    requires Ordinary(plans) && InOrder(Contents(plans)) && Funnels(Contents(plans))
    ensures AssignedPlan(plans, {"c"}, "c")
  {
    MadeOfItself(plans);
    PlanAssigned(plans, plans, "c");
  }

  /** Two independent steps and one that waits for both. */
  predicate Fork(plans: seq<StepPlan>) {
    && |plans| == 3 && UniqueIds(Contents(plans))
    && plans[0].step.deps == [] && plans[1].step.deps == []
    && plans[2].step.deps == [plans[0].step.stepId, plans[1].step.stepId]
    && forall i :: 0 <= i < 3 ==> !plans[i].needsReview
  }

  lemma ForkMade() returns (plans: seq<StepPlan>)
    ensures Fork(plans) && Ordinary(plans)
  {
    plans := [StepNo("a", [], false), StepNo("b", [], false), StepNo("d", ["a", "b"], false)];
    StepMade("a", [], false);
    StepMade("b", [], false);
    StepMade("d", ["a", "b"], false);
  }

  /** Any mixture of row states of this plan can come about. */
  ghost predicate Carried(plans: seq<StepPlan>) {
    forall spent, rows :: RowsOf(plans, rows) ==> LiveTask(OpenTask(plans, "c", spent, rows))
  }

  lemma OrdinaryCarried(plans: seq<StepPlan>)
    requires Ordinary(plans) && InOrder(Contents(plans)) && Funnels(Contents(plans))
    ensures Carried(plans)
  {
    OrdinaryAssigned(plans);
    forall spent, rows | RowsOf(plans, rows)
      ensures LiveTask(OpenTask(plans, "c", spent, rows))
    {
      TaskLive(plans, "c", spent, rows);
    }
  }

  lemma ForkPlan() returns (plans: seq<StepPlan>)
    ensures Fork(plans) && Carried(plans)
  {
    plans := ForkMade();
    ThreeInOrder(Contents(plans));
    OrdinaryCarried(plans);
  }

  /** One step without deps. */
  lemma OnePlan() returns (p: StepPlan)
    ensures !p.needsReview && p.step.deps == [] && Carried([p])
  {
    p := StepNo("a", [], false);
    StepMade("a", [], false);
    assert Contents([p]) == [p.step];
    OrdinaryCarried([p]);
  }

  // ---------------------------------------------------------------------------------------
  // A blank id
  // ---------------------------------------------------------------------------------------

  /** A step whose id is one blank passes all checks, with the empty id. */
  lemma BlankIdAssigned() returns (p: StepPlan)
    ensures p == StepNo("", [], false) && MakeAll([StepNo(" ", [], false)]) == Ok([p])
    ensures AssignedPlan([p], {"c"}, "c")
  {
    var raw := StepNo(" ", [], false);
    p := StepNo("", [], false);
    Text.StripFixed("x");
    Text.StripFixed("c");
    assert " "[1..] == "" && Text.TrimLeft(" ") == "";
    assert Text.Strip(" ") == "";
    assert MakeStep(raw) == Ok(p);
    assert [raw][..0] == [] && [] + [p] == [p];
    OneStepAssigned([raw], p);
  }

  /** Once that step has started, every amend with staff ends before the model is asked. */
  lemma BlankIdWitness(staff: set<string>, replies: nat -> Reply) returns (t: TeamTask)
    requires staff != {}
    ensures LiveTask(t) && AmendOutcome(t.rows, t.picId, staff, replies).Aborted?
  {
    var p := BlankIdAssigned();
    var rows := [PlannedRow(p).(status := Running)];
    t := OpenTask([p], "c", 0.0, rows);
    TaskLive([p], "c", 0.0, rows);
    AmendRefusedIff(t);
    assert StartedBlank(rows[0]);
  }

  // ---------------------------------------------------------------------------------------
  // A task read in two pieces
  // ---------------------------------------------------------------------------------------

  /** The events of a run in which the one pending step is replaced. */
  function Replacement(p: StepPlan, q: StepPlan): seq<Event> {
    [ConfirmPlan([p.step]), ReadForAmend, WriteDraft(0, [q], [q]), ConfirmDraft(0)]
  }

  function ReplacementDraft(p: StepPlan, q: StepPlan): Draft {
    Draft([p.step], [q.step], [q], {p.step.stepId}, Live)
  }

  function ReplacementRun(p: StepPlan, q: StepPlan): seq<World> {
    var rows := [PlannedRow(p)];
    var t := TeamTask(Open, Some([p.step]), "c", 0.0, 0.0, rows);
    var d := ReplacementDraft(p, q);
    [World(t.(status := Planned), [], []), World(t, [], []), World(t, [rows], []), World(t, [rows], [d]),
     World(t.(rows := [PlannedRow(q)], planHash := Some([q.step])), [rows], [d.(status := Used)])]
  }

  lemma PendingOnly(r: Row)
    requires r.status == Pending
    ensures Started([r]) == [] && Frozen([r]) == [] && Steps([r]) == [r.step] && PendingIds([r]) == {r.step.stepId}
  {
    assert [r][..0] == [];
  }

  lemma SliceValid(p: StepPlan, q: StepPlan)
    requires AssignedPlan([q], {"c"}, "c")
    ensures ValidAmendment([PlannedRow(p)], "c", [q])
  {
    AcceptedPlanIsSound([q], {"c"}, "c");
    PendingOnly(PlannedRow(p));
    assert [] + Contents([q]) == Contents([q]);
  }

  lemma SwapApplies(p: StepPlan, q: StepPlan)
    ensures var run := ReplacementRun(p, q);
            ConfirmAmendment(run[3].task, ReplacementDraft(p, q)) == Applied(run[4].task)
  {
    var rows := [PlannedRow(p)];
    PendingOnly(rows[0]);
    assert PendingRow(rows, p.step.stepId) && Raced(rows, {p.step.stepId}) == {};
    assert rows[..0] == [] && Without(rows, {p.step.stepId}) == [];
    assert PlannedRows([q]) == [PlannedRow(q)] && [] + PlannedRows([q]) == [PlannedRow(q)];
  }

  lemma ReplacementStarts(p: StepPlan, q: StepPlan)
    requires AssignedPlan([p], {"c"}, "c")
    ensures Start(ReplacementRun(p, q)[0])
  {
    var w := ReplacementRun(p, q)[0];
    assert Contents([p]) == [p.step] && PlannedRows([p]) == [PlannedRow(p)];
    assert AcceptedPlan([p], {"c"}, w.task.picId);
  }

  lemma ReplacementOpens(p: StepPlan, q: StepPlan)
    ensures var ws, es := ReplacementRun(p, q), Replacement(p, q);
            Next(ws[0], es[0], ws[1]) && Next(ws[1], es[1], ws[2])
  {
  }

  lemma ReplacementDraftFits(p: StepPlan, q: StepPlan)
    ensures DraftFrom([PlannedRow(p)], [q], [q]) == ReplacementDraft(p, q)
    ensures AddDraft([], ReplacementDraft(p, q)) == [ReplacementDraft(p, q)]
    ensures Contents([q]) == Frozen([PlannedRow(p)]) + Contents([q])
  {
    PendingOnly(PlannedRow(p));
    assert Contents([q]) == [q.step];
  }

  lemma ReplacementDrafts(p: StepPlan, q: StepPlan)
    requires ValidAmendment([PlannedRow(p)], "c", [q])
    ensures var ws, es := ReplacementRun(p, q), Replacement(p, q); Next(ws[2], es[2], ws[3])
  {
    ReplacementDraftFits(p, q);
  }

  lemma ReplacementConfirms(p: StepPlan, q: StepPlan)
    ensures var ws, es := ReplacementRun(p, q), Replacement(p, q); Next(ws[3], es[3], ws[4])
  {
    SwapApplies(p, q);
  }

  lemma FourSteps(ws: seq<World>, es: seq<Event>)
    requires |ws| == 5 && |es| == 4 && Start(ws[0])
    requires Next(ws[0], es[0], ws[1]) && Next(ws[1], es[1], ws[2])
    requires Next(ws[2], es[2], ws[3]) && Next(ws[3], es[3], ws[4])
    ensures IsRun(ws, es)
  {
  }

  lemma ReplacementIsRun(p: StepPlan, q: StepPlan)
    requires AssignedPlan([p], {"c"}, "c") && AssignedPlan([q], {"c"}, "c")
    ensures IsRun(ReplacementRun(p, q), Replacement(p, q))
  {
    ReplacementStarts(p, q);
    SliceValid(p, q);
    ReplacementOpens(p, q);
    ReplacementDrafts(p, q);
    ReplacementConfirms(p, q);
    FourSteps(ReplacementRun(p, q), Replacement(p, q));
  }

  /**
   An untampered task stalled for its hash: the header is read, an amendment is confirmed, the rows
   are read.
   */
  lemma TornReadWitness() returns (ws: seq<World>, es: seq<Event>)
    ensures IsRun(ws, es) && |ws| == 5 && AmendedAt(ws, es, 3)
    ensures HashVerified(ws[3].task) && HashVerified(ws[4].task) && !HashVerified(Torn(ws[3].task, ws[4].task))
  {
    var p, q := StepNo("a", [], false), StepNo("b", [], false);
    StepMade("a", [], false);
    StepMade("b", [], false);
    MadeOfItself([p]);
    MadeOfItself([q]);
    OneStepAssigned([p], p);
    OneStepAssigned([q], q);
    ws, es := ReplacementRun(p, q), Replacement(p, q);
    ReplacementIsRun(p, q);
    SwapApplies(p, q);
    EveryRunSound(ws, es, 3);
    EveryRunSound(ws, es, 4);
    TornReadFailsIff(ws[3].task, ws[4].task);
  }
}
