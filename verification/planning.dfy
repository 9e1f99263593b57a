/**
 Team-task plans: the schema validators, the Kahn acyclicity check, the "one terminal step
 owned by the PIC" rule and the decomposition gate (src/agent/task_decomposition.py).
 */
module Planning {
  import opened Common
  import opened DependencyGraph
  import Text

  /** Ceiling on the number of steps of a plan. */
  const MAX_STEPS: nat := 7

  /** The four fields the content hash binds. */
  datatype StepContent = StepContent(stepId: string, title: string, assignedTo: string, deps: seq<string>)

  datatype StepType = Work | Review | Rework

  /** `TeamStepPlan`: the hashed fields plus metadata. */
  datatype StepPlan = StepPlan(step: StepContent, stepType: StepType, needsReview: bool)

  /** `DecomposedTask`: a proposed plan and the staffer responsible for it ("" for none). */
  datatype DecomposedTask = DecomposedTask(steps: seq<StepPlan>, picId: string)

  /** What makes the schema refuse a proposal. */
  datatype SchemaError =
    | BadField(stepId: string)
    | BadLength
    | DuplicateId
    | UnknownDep(stepId: string)
    | SelfDep(stepId: string)
    | ReservedType(stepId: string)

  /** What makes the gate refuse a well-formed proposal. */
  datatype PlanError =
    | StepCount(n: nat)
    | DependencyCycle
    | Unauthorized(ids: set<string>)
    | PicNotStaff(picId: string)
    | TerminalCount(n: nat)
    | TerminalNotPic(stepId: string)

  function Contents(plans: seq<StepPlan>): seq<StepContent> {
    seq(|plans|, i requires 0 <= i < |plans| => plans[i].step)
  }

  // ---------------------------------------------------------------------------------------
  // The dependency graph of a plan
  // ---------------------------------------------------------------------------------------

  function Ids(steps: seq<StepContent>): set<string> {
    set i | 0 <= i < |steps| :: steps[i].stepId
  }

  predicate UniqueIds(steps: seq<StepContent>) {
    forall i, j :: 0 <= i < j < |steps| ==> steps[i].stepId != steps[j].stepId
  }

  predicate KnownDeps(steps: seq<StepContent>) {
    forall i :: 0 <= i < |steps| ==> forall d :: d in steps[i].deps ==> d in Ids(steps)
  }

  /** The plan as a graph from each step to its deps. */
  function GraphOf(steps: seq<StepContent>): (g: Graph)
    requires UniqueIds(steps)
    ensures g.Keys == Ids(steps)
    ensures forall i :: 0 <= i < |steps| ==> g[steps[i].stepId] == steps[i].deps
  {
    map i | 0 <= i < |steps| :: steps[i].stepId := steps[i].deps
  }

  lemma GraphClosed(steps: seq<StepContent>)
    requires UniqueIds(steps) && KnownDeps(steps)
    ensures Closed(GraphOf(steps))
  {
  }

  lemma {:induction false} IdCount(steps: seq<StepContent>)
    requires UniqueIds(steps)
    ensures |Ids(steps)| == |steps|
  {
    if steps != [] {
      var front, last := steps[..|steps| - 1], steps[|steps| - 1];
      IdCount(front);
      assert steps == front + [last];
      assert Ids(steps) == Ids(front) + {last.stepId};
    }
  }

  // ---------------------------------------------------------------------------------------
  // The Kahn check
  // ---------------------------------------------------------------------------------------

  /** Each step of the plan is a node of `g` with its own deps. */
  ghost predicate StepsOf(g: Graph, steps: seq<StepContent>) {
    forall i :: 0 <= i < |steps| ==> steps[i].stepId in g && g[steps[i].stepId] == steps[i].deps
  }

  /** The in-degrees after the nodes in `read` have been read. */
  ghost predicate DegreesBuilt(g: Graph, read: set<string>, indeg: map<string, int>) {
    indeg.Keys == g.Keys && forall n :: n in g ==> indeg[n] == if n in read then |g[n]| else 0
  }

  /** The adjacency lists after the nodes in `read` have been read. */
  ghost predicate EdgesBuilt(g: Graph, read: set<string>, adj: map<string, seq<string>>) {
    && adj.Keys == g.Keys
    && (forall d, n :: d in adj && n in adj[d] ==> n in g)
    && forall d, n :: d in adj && n in g ==> multiset(adj[d])[n] == if n in read then multiset(g[n])[d] else 0
  }

  /** `adj` is `adj0` with `id` appended once for every entry of `deps`. */
  ghost predicate Appended(adj0: map<string, seq<string>>, adj: map<string, seq<string>>, id: string, deps: seq<string>) {
    && adj.Keys == adj0.Keys
    && (forall d, n :: d in adj && n in adj[d] ==> n in adj0[d] || n == id)
    && forall d, n :: d in adj ==>
         multiset(adj[d])[n] == multiset(adj0[d])[n] + if n == id then multiset(deps)[d] else 0
  }

  /** The edges of one step: its id joins the list of each of its deps. */
  method AddEdges(s: StepContent, adj0: map<string, seq<string>>) returns (adj: map<string, seq<string>>, added: nat)
    requires forall d :: d in s.deps ==> d in adj0
    ensures Appended(adj0, adj, s.stepId, s.deps) && added == |s.deps|
  {
    adj, added := adj0, 0;
    for k := 0 to |s.deps|
      invariant Appended(adj0, adj, s.stepId, s.deps[..k]) && added == k
    {
      var d := s.deps[k];
      assert s.deps[..k + 1] == s.deps[..k] + [d];
      adj := adj[d := adj[d] + [s.stepId]];
      added := added + 1;
    }
    assert s.deps[..|s.deps|] == s.deps;
  }

  lemma EdgesStep(g: Graph, read: set<string>, adj: map<string, seq<string>>, adj': map<string, seq<string>>, id: string)
    requires EdgesBuilt(g, read, adj) && id in g && id !in read && Appended(adj, adj', id, g[id])
    ensures EdgesBuilt(g, read + {id}, adj')
  {
  }

  lemma DegreesStep(g: Graph, read: set<string>, indeg: map<string, int>, id: string)
    requires DegreesBuilt(g, read, indeg) && id in g && id !in read
    ensures indeg[id] == 0 && DegreesBuilt(g, read + {id}, indeg[id := |g[id]|])
  {
  }

  /** One step is read: its in-degree is set and its edges are added. */
  method ReadStep(ghost g: Graph, ghost read: set<string>, s: StepContent, indeg0: map<string, int>, adj0: map<string, seq<string>>)
    returns (indeg: map<string, int>, adj: map<string, seq<string>>)
    requires s.stepId in g && g[s.stepId] == s.deps && s.stepId !in read && Closed(g)
    requires DegreesBuilt(g, read, indeg0) && EdgesBuilt(g, read, adj0)
    ensures DegreesBuilt(g, read + {s.stepId}, indeg) && EdgesBuilt(g, read + {s.stepId}, adj)
  {
    var added;
    adj, added := AddEdges(s, adj0);
    EdgesStep(g, read, adj0, adj, s.stepId);
    DegreesStep(g, read, indeg0, s.stepId);
    indeg := indeg0[s.stepId := indeg0[s.stepId] + added];
  }

  method BuildGraph(ghost g: Graph, steps: seq<StepContent>) returns (indeg: map<string, int>, adj: map<string, seq<string>>)
    requires UniqueIds(steps) && StepsOf(g, steps) && Closed(g) && g.Keys == Ids(steps)
    ensures AdjacencyOf(g, adj) && InDegrees(g, indeg, {})
  {
    indeg := map id | id in Ids(steps) :: 0;
    adj := map id | id in Ids(steps) :: [];
    ghost var read: set<string> := {};
    for i := 0 to |steps|
      invariant read == Ids(steps[..i])
      invariant DegreesBuilt(g, read, indeg)
      invariant EdgesBuilt(g, read, adj)
    {
      IdsStep(steps, i);
      indeg, adj := ReadStep(g, read, steps[i], indeg, adj);
      read := read + {steps[i].stepId};
    }
    assert steps[..|steps|] == steps;
    FullyBuilt(g, indeg, adj);
  }

  lemma FullyBuilt(g: Graph, indeg: map<string, int>, adj: map<string, seq<string>>)
    requires DegreesBuilt(g, g.Keys, indeg) && EdgesBuilt(g, g.Keys, adj)
    ensures AdjacencyOf(g, adj) && InDegrees(g, indeg, {})
  {
    forall n | n in g
      ensures indeg[n] == OpenDeps(g[n], {})
    {
      OpenDepsNone(g[n]);
    }
  }

  lemma IdsStep(steps: seq<StepContent>, i: nat)
    requires UniqueIds(steps) && i < |steps|
    ensures steps[i].stepId !in Ids(steps[..i])
    ensures Ids(steps[..i + 1]) == Ids(steps[..i]) + {steps[i].stepId}
  {
    assert steps[..i + 1] == steps[..i] + [steps[i]];
  }

  /** The queue starts with the steps that have no deps, in plan order. */
  method InitialQueue(steps: seq<StepContent>, indeg: map<string, int>) returns (queue: seq<string>)
    requires UniqueIds(steps) && indeg.Keys == Ids(steps)
    ensures NoDuplicates(queue)
    ensures forall n :: n in queue <==> n in Ids(steps) && indeg[n] == 0
  {
    queue := [];
    for i := 0 to |steps|
      invariant NoDuplicates(queue)
      invariant forall n :: n in queue <==> n in Ids(steps[..i]) && n in indeg && indeg[n] == 0
    {
      IdsStep(steps, i);
      assert steps[i].stepId in Ids(steps);
      if indeg[steps[i].stepId] == 0 {
        queue := queue + [steps[i].stepId];
      }
    }
    assert steps[..|steps|] == steps;
  }

  /** `_acyclic`: keep popping ready steps from the end of the queue, then compare the counts. */
  method Acyclic(steps: seq<StepContent>) returns (ok: bool)
    requires UniqueIds(steps) && KnownDeps(steps)
    ensures ok <==> HasOrder(GraphOf(steps))
    ensures ok <==> !HasCycle(GraphOf(steps))
  {
    ghost var g := GraphOf(steps);
    GraphClosed(steps);
    var indeg, adj := BuildGraph(g, steps);
    var queue := InitialQueue(steps, indeg);
    IdCount(steps);
    assert Elements<string>([]) == {};
    var visited := CountPopped(g, adj, indeg, queue);
    ok := visited == |steps|;
  }

  /** A plan without cycles has an order: what the Kahn check's two readings have in common. */
  lemma AcyclicHasOrder(steps: seq<StepContent>)
    requires UniqueIds(steps) && KnownDeps(steps) && !HasCycle(GraphOf(steps))
    ensures HasOrder(GraphOf(steps))
  {
    GraphClosed(steps);
    GrowOrder(GraphOf(steps), []);
  }

  // ---------------------------------------------------------------------------------------
  // Schema validators
  // ---------------------------------------------------------------------------------------

  /** The field validators of one step: lengths first, then stripping, then a non-blank title. */
  function MakeStep(raw: StepPlan): Result<StepPlan, SchemaError> {
    var c := raw.step;
    if !(1 <= |c.stepId| <= 40) || !(1 <= |c.title| <= 300) || !(1 <= |c.assignedTo| <= 40) || Text.Strip(c.title) == "" then
      Err(BadField(c.stepId))
    else
      Ok(raw.(step := c.(stepId := Text.Strip(c.stepId), title := Text.Strip(c.title),
                         assignedTo := Text.Strip(c.assignedTo))))
  }

  /** A built step survives being built again exactly when stripping left its id and assignee non-empty. */
  lemma MakeStepStable(raw: StepPlan, made: StepPlan)
    requires MakeStep(raw) == Ok(made)
    ensures MakeStep(made) == Ok(made) <==> made.step.stepId != "" && made.step.assignedTo != ""
  {
    Text.StripTwice(raw.step.stepId);
    Text.StripTwice(raw.step.title);
    Text.StripTwice(raw.step.assignedTo);
  }

  /** The plan-level validators, in the order they run. */
  function SchemaProblem(plans: seq<StepPlan>): Option<SchemaError> {
    if !(1 <= |plans| <= MAX_STEPS) then Some(BadLength)
    else if !UniqueIds(Contents(plans)) then Some(DuplicateId)
    else
      var p := DepsProblem(plans, Ids(Contents(plans)), 0);
      if p.Some? then p else TypeProblem(plans, 0)
  }

  /** What passing the schema means for the plan as a whole. */
  lemma SchemaAccepts(plans: seq<StepPlan>)
    ensures SchemaProblem(plans).None? <==>
              && 1 <= |plans| <= MAX_STEPS
              && UniqueIds(Contents(plans)) && KnownDeps(Contents(plans))
              && forall i :: 0 <= i < |plans| ==>
                   plans[i].step.stepId !in plans[i].step.deps && plans[i].stepType == Work
  {
    assert forall i :: 0 <= i < |plans| ==> Contents(plans)[i] == plans[i].step;
  }

  function DepsProblem(plans: seq<StepPlan>, ids: set<string>, i: nat): (p: Option<SchemaError>)
    requires i <= |plans|
    ensures p.None? <==> forall j :: i <= j < |plans| ==>
                           plans[j].step.stepId !in plans[j].step.deps && forall d :: d in plans[j].step.deps ==> d in ids
    decreases |plans| - i
  {
    if i == |plans| then None
    else if exists d :: d in plans[i].step.deps && d !in ids then Some(UnknownDep(plans[i].step.stepId))
    else if plans[i].step.stepId in plans[i].step.deps then Some(SelfDep(plans[i].step.stepId))
    else DepsProblem(plans, ids, i + 1)
  }

  function TypeProblem(plans: seq<StepPlan>, i: nat): (p: Option<SchemaError>)
    requires i <= |plans|
    ensures p.None? <==> forall j :: i <= j < |plans| ==> plans[j].stepType == Work
    decreases |plans| - i
  {
    if i == |plans| then None
    else if plans[i].stepType != Work then Some(ReservedType(plans[i].step.stepId))
    else TypeProblem(plans, i + 1)
  }

  // ---------------------------------------------------------------------------------------
  // The PIC rule
  // ---------------------------------------------------------------------------------------

  function DepTargets(steps: seq<StepContent>): set<string> {
    set i, d | 0 <= i < |steps| && d in steps[i].deps :: d
  }

  /** The steps that no step of the slice depends on, in plan order. */
  function Terminals(steps: seq<StepContent>, targets: set<string>): (r: seq<StepContent>)
    ensures forall s :: s in r <==> s in steps && s.stepId !in targets
    ensures |r| <= |steps|
  {
    if steps == [] then []
    else (if steps[0].stepId in targets then [] else [steps[0]]) + Terminals(steps[1..], targets)
  }

  /** `validate_pic_terminal` over a slice of steps. */
  function PicProblem(steps: seq<StepContent>, picId: string): Option<PlanError> {
    var terminals := Terminals(steps, DepTargets(steps));
    if |terminals| != 1 then Some(TerminalCount(|terminals|))
    else if terminals[0].assignedTo != picId then Some(TerminalNotPic(terminals[0].stepId))
    else None
  }

  lemma {:induction false} TerminalsDistinct(steps: seq<StepContent>, targets: set<string>)
    requires UniqueIds(steps)
    ensures UniqueIds(Terminals(steps, targets))
  {
    if steps != [] {
      TerminalsDistinct(steps[1..], targets);
      assert forall s :: s in steps[1..] ==> s.stepId != steps[0].stepId;
    }
  }

  lemma TerminalOfGraph(steps: seq<StepContent>, n: string)
    requires UniqueIds(steps)
    ensures Terminal(GraphOf(steps), n) <==> n in Ids(steps) && n !in DepTargets(steps)
  {
    var g := GraphOf(steps);
    if n in Ids(steps) {
      if n in DepTargets(steps) {
        var i :| 0 <= i < |steps| && n in steps[i].deps;
        assert steps[i].stepId in g && n in g[steps[i].stepId];
      } else {
        forall m | m in g
          ensures n !in g[m]
        {
          var j: nat :| j < |steps| && steps[j].stepId == m;
        }
      }
    }
  }

  /**
   The PIC rule is a statement about the whole slice: it passes exactly when some step owned by
   the PIC is fed, directly or transitively, by every step.
   */
  lemma PicOwnsTheFunnel(steps: seq<StepContent>, picId: string)
    requires UniqueIds(steps) && KnownDeps(steps) && HasOrder(GraphOf(steps))
    ensures PicProblem(steps, picId) == None <==>
              exists t :: && t in steps && t.assignedTo == picId
                          && forall s :: s in steps ==> Feeds(GraphOf(steps), s.stepId, t.stepId)
  {
    var g := GraphOf(steps);
    var terminals := Terminals(steps, DepTargets(steps));
    if |terminals| == 1 { assert terminals == [terminals[0]]; }
    if PicProblem(steps, picId) == None {
      FunnelFromRule(steps, terminals[0]);
    }
    if t :| && t in steps && t.assignedTo == picId
            && forall s :: s in steps ==> Feeds(g, s.stepId, t.stepId) {
      SinkIsOnlyTerminal(steps, t);
    }
  }

  lemma FunnelFromRule(steps: seq<StepContent>, t: StepContent)
    requires UniqueIds(steps) && HasOrder(GraphOf(steps))
    requires Terminals(steps, DepTargets(steps)) == [t]
    ensures t in steps && forall s :: s in steps ==> Feeds(GraphOf(steps), s.stepId, t.stepId)
  {
    assert t in Terminals(steps, DepTargets(steps));
    forall n | Terminal(GraphOf(steps), n)
      ensures n == t.stepId
    {
      TerminalOfGraph(steps, n);
      var i: nat :| i < |steps| && steps[i].stepId == n;
      assert steps[i] in Terminals(steps, DepTargets(steps));
    }
    forall s | s in steps
      ensures Feeds(GraphOf(steps), s.stepId, t.stepId)
    {
      FeedsOf(steps, s, t);
    }
  }

  lemma FeedsOf(steps: seq<StepContent>, s: StepContent, t: StepContent)
    requires UniqueIds(steps) && HasOrder(GraphOf(steps)) && s in steps
    requires forall n :: Terminal(GraphOf(steps), n) ==> n == t.stepId
    ensures Feeds(GraphOf(steps), s.stepId, t.stepId)
  {
    var g := GraphOf(steps);
    var order :| TopologicalOrder(g, order);
    assert s.stepId in Elements(order);
    var k: nat :| k < |order| && order[k] == s.stepId;
    FeedsTerminal(g, order, t.stepId, k);
  }

  lemma SinkIsOnlyTerminal(steps: seq<StepContent>, t: StepContent)
    requires UniqueIds(steps) && HasOrder(GraphOf(steps)) && t in steps
    requires forall s :: s in steps ==> Feeds(GraphOf(steps), s.stepId, t.stepId)
    ensures Terminals(steps, DepTargets(steps)) == [t]
  {
    var r := Terminals(steps, DepTargets(steps));
    SinkIsTerminal(steps, t);
    TerminalsDistinct(steps, DepTargets(steps));
    forall s | s in r
      ensures s.stepId == t.stepId
    {
      var i: nat :| i < |steps| && steps[i] == s;
      TerminalOfGraph(steps, s.stepId);
    }
    TerminalOfGraph(steps, t.stepId);
    OnlyOne(r, t);
  }

  lemma SinkIsTerminal(steps: seq<StepContent>, t: StepContent)
    requires UniqueIds(steps) && HasOrder(GraphOf(steps)) && t in steps
    requires forall s :: s in steps ==> Feeds(GraphOf(steps), s.stepId, t.stepId)
    ensures Terminal(GraphOf(steps), t.stepId)
    ensures forall n :: Terminal(GraphOf(steps), n) ==> n == t.stepId
  {
    var g := GraphOf(steps);
    forall n | n in g
      ensures Feeds(g, n, t.stepId)
    {
      var i: nat :| i < |steps| && steps[i].stepId == n;
      assert steps[i] in steps;
    }
    FedByAllIsTerminal(g, t.stepId);
  }

  lemma OnlyOne(r: seq<StepContent>, t: StepContent)
    requires UniqueIds(r) && t in r
    requires forall s :: s in r ==> s.stepId == t.stepId
    ensures r == [t]
  {
    var k: nat :| k < |r| && r[k] == t;
    forall i {:trigger r[i]} | 0 <= i < |r|
      ensures i == k
    {
      assert r[i] in r && r[i].stepId == r[k].stepId;
    }
    assert r[0] in r && r[|r| - 1] in r;
  }

  // ---------------------------------------------------------------------------------------
  // The decomposition gate
  // ---------------------------------------------------------------------------------------

  function EffectivePic(task: DecomposedTask, picId: Option<string>): string {
    if picId.None? then task.picId else Text.Strip(picId.value)
  }

  /** The assignees that are not on the staff. */
  function Outsiders(steps: seq<StepContent>, staff: set<string>): (ids: set<string>)
    ensures ids == {} <==> forall s :: s in steps ==> s.assignedTo in staff
  {
    var ids := set s | s in steps && s.assignedTo !in staff :: s.assignedTo;
    assert forall s :: s in steps && s.assignedTo !in staff ==> s.assignedTo in ids;
    ids
  }

  /** What a plan must satisfy to be accepted for the given staff and PIC. */
  ghost predicate Acceptable(steps: seq<StepContent>, staff: set<string>, picId: string)
    requires UniqueIds(steps)
  {
    && 1 <= |steps| <= MAX_STEPS
    && !HasCycle(GraphOf(steps))
    && (forall s :: s in steps ==> s.assignedTo in staff)
    && (picId != "" ==> picId in staff && PicProblem(steps, picId) == None)
  }

  /** `validate_decomposition`: bounds, acyclicity, role authorization, then the PIC rule. */
  method ValidateDecomposition(task: DecomposedTask, staff: set<string>, picId: Option<string>)
    returns (r: Result<DecomposedTask, PlanError>)
    requires UniqueIds(Contents(task.steps)) && KnownDeps(Contents(task.steps))
    ensures r.Ok? <==> Acceptable(Contents(task.steps), staff, EffectivePic(task, picId))
    ensures r.Ok? ==> r.value == task.(picId := if picId.Some? then Text.Strip(picId.value) else task.picId)
    ensures r == Err(DependencyCycle) ==> HasCycle(GraphOf(Contents(task.steps)))
  {
    var steps := Contents(task.steps);
    if !(1 <= |steps| <= MAX_STEPS) {
      return Err(StepCount(|steps|));
    }
    var acyclic := Acyclic(steps);
    if !acyclic {
      return Err(DependencyCycle);
    }
    var unauthorized := Outsiders(steps, staff);
    if unauthorized != {} {
      return Err(Unauthorized(unauthorized));
    }
    var effective := EffectivePic(task, picId);
    if effective != "" {
      if effective !in staff {
        return Err(PicNotStaff(effective));
      }
      var problem := PicProblem(steps, effective);
      if problem.Some? {
        return Err(problem.value);
      }
    }
    return Ok(task.(picId := effective));
  }

  /** In an accepted plan with a PIC every step feeds one step, and that step is the PIC's. */
  lemma AcceptedPlanEndsAtPic(steps: seq<StepContent>, staff: set<string>, picId: string) returns (t: StepContent)
    requires UniqueIds(steps) && KnownDeps(steps) && HasOrder(GraphOf(steps))
    requires Acceptable(steps, staff, picId) && picId != ""
    ensures t in steps && t.assignedTo == picId
    ensures Terminals(steps, DepTargets(steps)) == [t]
    ensures forall s :: s in steps ==> Feeds(GraphOf(steps), s.stepId, t.stepId)
  {
    PicOwnsTheFunnel(steps, picId);
    t :| && t in steps && t.assignedTo == picId
         && forall s :: s in steps ==> Feeds(GraphOf(steps), s.stepId, t.stepId);
    SinkIsOnlyTerminal(steps, t);
  }
}
