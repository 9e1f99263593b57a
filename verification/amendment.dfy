/**
 Replanning the pending tail of a running task: the bounded amend loop
 (src/agent/team_task_amend_prompt.py), the draft it binds (src/agent/ops_adjust_team_task.py)
 and the confirm-time swap (src/runtime/team_task_amend.py, team_task_steps.py).
 */
module Amendment {
  import opened Common
  import opened DependencyGraph
  import opened Planning
  import opened TaskRows

  // ---------------------------------------------------------------------------------------
  // The amend loop
  // ---------------------------------------------------------------------------------------

  const MAX_AMEND_ATTEMPTS: nat := 3

  /** What one model reply parses to (`None`: not the expected JSON) and what it cost. */
  datatype Reply = Reply(steps: Option<seq<StepPlan>>, cost: Option<real>)

  datatype Attempt =
    | Accepted(newPending: seq<StepPlan>)
    | Retry
    | SchemaAbort(error: SchemaError)

  datatype AmendResult =
    | Amended(steps: seq<StepPlan>, combined: seq<StepPlan>)
    | NoStaff
    | Exhausted
    | Aborted(why: SchemaError)

  /** Field validation of every step; the first failing step decides. */
  function MakeAll(raws: seq<StepPlan>): (r: Result<seq<StepPlan>, SchemaError>)
    ensures r.Ok? ==> |r.value| == |raws|
  {
    if raws == [] then Ok([])
    else
      var front := MakeAll(raws[..|raws| - 1]);
      if front.Err? then front
      else
        var last := MakeStep(raws[|raws| - 1]);
        if last.Err? then Err(last.error) else Ok(front.value + [last.value])
  }

  lemma {:induction false} MakeAllAt(raws: seq<StepPlan>, i: nat)
    requires MakeAll(raws).Ok? && i < |raws|
    ensures MakeStep(raws[i]) == Ok(MakeAll(raws).value[i])
  {
    if i < |raws| - 1 {
      MakeAllAt(raws[..|raws| - 1], i);
    }
  }

  /** The confirmed rows that are no longer pending: the part of the plan an amend keeps. */
  function Frozen(rows: seq<Row>): seq<StepContent> {
    Confirmed(Started(rows))
  }

  /** `_amend_frozen_prefix`: those rows rebuilt as plan steps. */
  function FrozenPrefix(rows: seq<Row>): Result<seq<StepPlan>, SchemaError> {
    MakeAll(AsPlans(Frozen(rows)))
  }

  function AsPlans(steps: seq<StepContent>): seq<StepPlan> {
    seq(|steps|, i requires 0 <= i < |steps| => StepPlan(steps[i], Work, false))
  }

  /** One pass of the loop: only the combined plan's own schema check can escape the retry. */
  ghost function TryAmend(frozen: seq<StepPlan>, picId: string, staff: set<string>, reply: Reply): Attempt {
    if reply.steps.None? then Retry
    else
      var made := MakeAll(reply.steps.value);
      if made.Err? || SchemaProblem(made.value).Some? then Retry
      else if SchemaProblem(frozen + made.value).Some? then SchemaAbort(SchemaProblem(frozen + made.value).value)
      else if SchemaAccepts(frozen + made.value); !Acceptable(Contents(frozen + made.value), staff, "") then Retry
      else if picId != "" && PicProblem(Contents(made.value), picId).Some? then Retry
      else Accepted(made.value)
  }

  method AttemptAmend(frozen: seq<StepPlan>, picId: string, staff: set<string>, reply: Reply) returns (a: Attempt)
    ensures a == TryAmend(frozen, picId, staff, reply)
  {
    if reply.steps.None? {
      return Retry;
    }
    var made := MakeAll(reply.steps.value);
    if made.Err? || SchemaProblem(made.value).Some? {
      return Retry;
    }
    var combined := frozen + made.value;
    var problem := SchemaProblem(combined);
    if problem.Some? {
      return SchemaAbort(problem.value);
    }
    SchemaAccepts(combined);
    var verdict := ValidateDecomposition(DecomposedTask(combined, ""), staff, None);
    if verdict.Err? {
      return Retry;
    }
    if picId != "" && PicProblem(Contents(made.value), picId).Some? {
      return Retry;
    }
    return Accepted(made.value);
  }

  /** The loop from attempt `i` on, as a recursion over what the attempts come to. */
  ghost function AmendFrom(frozen: seq<StepPlan>, attempts: nat -> Attempt, i: nat): AmendResult
    decreases MAX_AMEND_ATTEMPTS - i
  {
    if i >= MAX_AMEND_ATTEMPTS then Exhausted
    else
      match attempts(i)
      case Accepted(steps) => Amended(steps, frozen + steps)
      case SchemaAbort(e) => Aborted(e)
      case Retry => AmendFrom(frozen, attempts, i + 1)
  }

  ghost function Attempts(frozen: seq<StepPlan>, picId: string, staff: set<string>, replies: nat -> Reply): nat -> Attempt {
    (i: nat) => TryAmend(frozen, picId, staff, replies(i))
  }

  /** What `amend_with_retries` comes to. */
  ghost function AmendOutcome(rows: seq<Row>, picId: string, staff: set<string>, replies: nat -> Reply): AmendResult {
    if staff == {} then NoStaff
    else
      match FrozenPrefix(rows)
      case Err(e) => Aborted(e)
      case Ok(frozen) => AmendFrom(frozen, Attempts(frozen, picId, staff, replies), 0)
  }

  /** `amend_with_retries`; `asked` is how many model replies were paid for. */
  method AmendWithRetries(rows: seq<Row>, picId: string, staff: set<string>, replies: nat -> Reply)
    returns (r: AmendResult, totalCost: real, asked: nat)
    ensures r == AmendOutcome(rows, picId, staff, replies)
    ensures r == NoStaff <==> staff == {}
    ensures staff == {} || FrozenPrefix(rows).Err? ==> asked == 0
    ensures staff != {} && FrozenPrefix(rows).Ok? ==> AmendSettled(FrozenPrefix(rows).value, picId, staff, replies, r, asked)
    ensures asked <= MAX_AMEND_ATTEMPTS && totalCost == CostOf(replies, asked)
  {
    totalCost, asked := 0.0, 0;
    if staff == {} {
      return NoStaff, totalCost, asked;
    }
    var prefix := FrozenPrefix(rows);
    if prefix.Err? {
      return Aborted(prefix.error), totalCost, asked;
    }
    FrozenIsWork(rows);
    r, totalCost, asked := AmendLoop(prefix.value, picId, staff, replies);
  }

  function Finish(frozen: seq<StepPlan>, a: Attempt): AmendResult {
    match a
    case Accepted(steps) => Amended(steps, frozen + steps)
    case SchemaAbort(e) => Aborted(e)
    case Retry => Exhausted
  }

  lemma AmendUnfold(frozen: seq<StepPlan>, attempts: nat -> Attempt, i: nat)
    requires i < MAX_AMEND_ATTEMPTS
    ensures AmendFrom(frozen, attempts, i) ==
              if attempts(i).Retry? then AmendFrom(frozen, attempts, i + 1) else Finish(frozen, attempts(i))
  {
  }

  /** The loop proper, over whatever the attempts come to. */
  method AmendLoop(frozen: seq<StepPlan>, picId: string, staff: set<string>, replies: nat -> Reply)
    returns (r: AmendResult, totalCost: real, asked: nat)
    requires AllWork(frozen)
    ensures r == AmendFrom(frozen, Attempts(frozen, picId, staff, replies), 0)
    ensures AmendSettled(frozen, picId, staff, replies, r, asked)
    ensures asked <= MAX_AMEND_ATTEMPTS && totalCost == CostOf(replies, asked)
  {
    totalCost, asked := 0.0, 0;
    ghost var attempts := Attempts(frozen, picId, staff, replies);
    while asked < MAX_AMEND_ATTEMPTS
      invariant asked <= MAX_AMEND_ATTEMPTS && totalCost == CostOf(replies, asked)
      invariant AmendFrom(frozen, attempts, 0) == AmendFrom(frozen, attempts, asked)
      invariant RetriedBelow(attempts, asked)
    {
      var a, cost := NextAttempt(frozen, picId, staff, replies, asked, attempts);
      totalCost := totalCost + cost;
      AmendUnfold(frozen, attempts, asked);
      asked := asked + 1;
      if !a.Retry? {
        SettledBy(frozen, picId, staff, replies, attempts, asked, a);
        return Finish(frozen, a), totalCost, asked;
      }
    }
    SettledBy(frozen, picId, staff, replies, attempts, asked, Retry);
    return Exhausted, totalCost, asked;
  }

  method NextAttempt(frozen: seq<StepPlan>, picId: string, staff: set<string>, replies: nat -> Reply, i: nat,
                     ghost attempts: nat -> Attempt)
    returns (a: Attempt, cost: real)
    requires attempts == Attempts(frozen, picId, staff, replies)
    ensures a == attempts(i) && CostOf(replies, i + 1) == CostOf(replies, i) + cost
  {
    var reply := replies(i);
    cost := if reply.cost.Some? then reply.cost.value else 0.0;
    a := AttemptAmend(frozen, picId, staff, reply);
  }

  function CostOf(replies: nat -> Reply, n: nat): real {
    if n == 0 then 0.0
    else CostOf(replies, n - 1) + match replies(n - 1).cost case Some(c) => c case None => 0.0
  }

  // ---------------------------------------------------------------------------------------
  // What an accepted amendment satisfies
  // ---------------------------------------------------------------------------------------

  /** A new pending slice that fits behind the frozen rows of `rows`. */
  ghost predicate ValidAmendment(rows: seq<Row>, picId: string, slice: seq<StepPlan>) {
    && slice != [] && AllWork(slice)
    && SoundPlan(Frozen(rows) + Contents(slice))
    && SoundPlan(Contents(slice))
    && (picId != "" ==> PicProblem(Contents(slice), picId) == None)
  }

  lemma MadeBuilt(raw: StepPlan, made: StepPlan)
    requires MakeStep(raw) == Ok(made)
    ensures Built(made.step)
  {
    Text.StripTwice(raw.step.stepId);
    Text.StripTwice(raw.step.title);
    Text.StripTwice(raw.step.assignedTo);
  }

  lemma BuiltMade(raw: StepPlan, made: StepPlan)
    requires Built(raw.step) && MakeStep(raw) == Ok(made)
    ensures made == raw
  {
  }

  lemma ContentsAppend(a: seq<StepPlan>, b: seq<StepPlan>)
    ensures Contents(a + b) == Contents(a) + Contents(b)
  {
  }

  /** A built step is refused the second time exactly if stripping had left it without id or assignee. */
  lemma BuiltRefusedIff(raw: StepPlan)
    requires Built(raw.step)
    ensures MakeStep(raw).Err? <==> raw.step.stepId == "" || raw.step.assignedTo == ""
  {
  }

  lemma {:induction false} MakeAllFailsIff(raws: seq<StepPlan>)
    ensures MakeAll(raws).Err? <==> exists i :: 0 <= i < |raws| && MakeStep(raws[i]).Err?
  {
    if raws != [] {
      MakeAllFailsIff(raws[..|raws| - 1]);
      assert raws == raws[..|raws| - 1] + [raws[|raws| - 1]];
    }
  }

  /** A confirmed row that has started and whose id or assignee was blanks only. */
  predicate StartedBlank(r: Row) {
    !r.systemInserted && r.status != Pending && (r.step.stepId == "" || r.step.assignedTo == "")
  }

  /** The frozen prefix cannot be rebuilt exactly when such a row exists. */
  lemma FrozenFailsIff(rows: seq<Row>)
    requires forall i :: 0 <= i < |Frozen(rows)| ==> Built(Frozen(rows)[i])
    ensures FrozenPrefix(rows).Err? <==> exists i :: 0 <= i < |rows| && StartedBlank(rows[i])
  {
    var raws := AsPlans(Frozen(rows));
    MakeAllFailsIff(raws);
    forall i | 0 <= i < |raws|
      ensures MakeStep(raws[i]).Err? <==> raws[i].step.stepId == "" || raws[i].step.assignedTo == ""
    {
      BuiltRefusedIff(raws[i]);
    }
    if i :| 0 <= i < |rows| && StartedBlank(rows[i]) {
      FrozenHas(rows, i);
      var k: nat :| k < |Frozen(rows)| && Frozen(rows)[k] == rows[i].step;
      assert MakeStep(raws[k]).Err?;
    }
    if k :| 0 <= k < |raws| && MakeStep(raws[k]).Err? {
      var i := FrozenFrom(rows, k);
      assert StartedBlank(rows[i]);
    }
  }

  lemma FrozenHas(rows: seq<Row>, i: nat)
    requires i < |rows| && !rows[i].systemInserted && rows[i].status != Pending
    ensures rows[i].step in Frozen(rows)
  {
    StartedMember(rows, rows[i]);
    var j: nat :| j < |Started(rows)| && Started(rows)[j] == rows[i];
    ConfirmedMember(Started(rows), rows[i].step);
  }

  lemma FrozenFrom(rows: seq<Row>, k: nat) returns (i: nat)
    requires k < |Frozen(rows)|
    ensures i < |rows| && !rows[i].systemInserted && rows[i].status != Pending && rows[i].step == Frozen(rows)[k]
  {
    ConfirmedMember(Started(rows), Frozen(rows)[k]);
    var j: nat :| j < |Started(rows)| && !Started(rows)[j].systemInserted && Started(rows)[j].step == Frozen(rows)[k];
    StartedMember(rows, Started(rows)[j]);
    i :| i < |rows| && rows[i] == Started(rows)[j];
  }

  /** A sound plan's frozen part consists of built steps. */
  lemma FrozenBuilt(rows: seq<Row>)
    requires forall i :: 0 <= i < |Confirmed(rows)| ==> Built(Confirmed(rows)[i])
    ensures forall i :: 0 <= i < |Frozen(rows)| ==> Built(Frozen(rows)[i])
  {
    forall k | 0 <= k < |Frozen(rows)|
      ensures Built(Frozen(rows)[k])
    {
      var i := FrozenFrom(rows, k);
      ConfirmedMember(rows, rows[i].step);
      var j: nat :| j < |Confirmed(rows)| && Confirmed(rows)[j] == rows[i].step;
    }
  }

  /** Rebuilding built steps changes nothing. */
  lemma RebuiltPrefix(steps: seq<StepContent>, plans: seq<StepPlan>)
    requires forall i :: 0 <= i < |steps| ==> Built(steps[i])
    requires MakeAll(AsPlans(steps)) == Ok(plans)
    ensures Contents(plans) == steps
  {
    var raws := AsPlans(steps);
    forall i | 0 <= i < |steps|
      ensures Contents(plans)[i] == steps[i]
    {
      MakeAllAt(raws, i);
      BuiltMade(raws[i], plans[i]);
    }
  }

  /** A suffix that only refers to itself inherits acyclicity from the whole plan. */
  lemma SliceAcyclic(frozen: seq<StepContent>, slice: seq<StepContent>)
    requires UniqueIds(frozen + slice) && UniqueIds(slice) && KnownDeps(slice)
    requires HasOrder(GraphOf(frozen + slice))
    ensures HasOrder(GraphOf(slice))
  {
    var whole, part := GraphOf(frozen + slice), GraphOf(slice);
    forall n | n in part
      ensures n in whole && whole[n] == part[n]
    {
      var i: nat :| i < |slice| && slice[i].stepId == n;
      assert (frozen + slice)[|frozen| + i] == slice[i];
    }
    OrderRestricts(whole, part);
  }

  lemma MadeAllBuilt(raws: seq<StepPlan>)
    requires MakeAll(raws).Ok?
    ensures forall i :: 0 <= i < |raws| ==> Built(Contents(MakeAll(raws).value)[i])
  {
    forall i | 0 <= i < |raws|
      ensures Built(MakeAll(raws).value[i].step)
    {
      MakeAllAt(raws, i);
      MadeBuilt(raws[i], MakeAll(raws).value[i]);
    }
  }

  lemma SoundParts(frozen: seq<StepContent>, slice: seq<StepContent>)
    requires UniqueIds(frozen + slice) && KnownDeps(frozen + slice) && !HasCycle(GraphOf(frozen + slice))
    requires UniqueIds(slice) && KnownDeps(slice)
    requires forall i :: 0 <= i < |frozen| ==> Built(frozen[i])
    requires forall i :: 0 <= i < |slice| ==> Built(slice[i])
    ensures SoundPlan(frozen + slice) && SoundPlan(slice)
  {
    AcyclicHasOrder(frozen + slice);
    SliceAcyclic(frozen, slice);
  }

  // ---------------------------------------------------------------------------------------
  // A reply that breaks the loop
  // ---------------------------------------------------------------------------------------

  /** The reply is a plan of its own. */
  predicate GoodReply(reply: Reply) {
    reply.steps.Some? && MakeAll(reply.steps.value).Ok? && SchemaProblem(MakeAll(reply.steps.value).value).None?
  }

  /** A frozen row waits for a step that is neither frozen nor in the slice, or for itself. */
  predicate DanglingDep(frozen: seq<StepPlan>, slice: seq<StepPlan>) {
    exists i :: 0 <= i < |frozen| &&
      (frozen[i].step.stepId in frozen[i].step.deps
       || exists d :: d in frozen[i].step.deps && d !in Ids(Contents(frozen + slice)))
  }

  /** Putting the two plans together breaks the schema. */
  predicate Misfit(frozen: seq<StepPlan>, slice: seq<StepPlan>) {
    || |frozen| + |slice| > MAX_STEPS
    || !UniqueIds(Contents(frozen + slice))
    || DanglingDep(frozen, slice)
  }

  /**
   The schema of the combined plan fails, given a frozen prefix of work steps and a slice that is a
   plan of its own, exactly for too many steps together, a shared id, or a frozen step whose
   dep is gone.
   */
  lemma MisfitIff(frozen: seq<StepPlan>, slice: seq<StepPlan>)
    requires AllWork(frozen) && SchemaProblem(slice).None?
    ensures SchemaProblem(frozen + slice).Some? <==> Misfit(frozen, slice)
  {
    SchemaAccepts(slice);
    SchemaAccepts(frozen + slice);
    var whole := frozen + slice;
    SliceKnown(frozen, slice);
    forall i | 0 <= i < |whole|
      ensures whole[i] == if i < |frozen| then frozen[i] else slice[i - |frozen|]
    {
    }
    if SchemaProblem(whole).None? {
      forall i, d | 0 <= i < |frozen| && d in frozen[i].step.deps
        ensures d in Ids(Contents(whole)) && d != frozen[i].step.stepId
      {
        assert Contents(whole)[i] == frozen[i].step && whole[i] == frozen[i];
      }
    }
  }

  lemma SliceKnown(frozen: seq<StepPlan>, slice: seq<StepPlan>)
    requires KnownDeps(Contents(slice))
    ensures forall i, d :: 0 <= i < |slice| && d in slice[i].step.deps ==> d in Ids(Contents(frozen + slice))
  {
    forall i, d | 0 <= i < |slice| && d in slice[i].step.deps
      ensures d in Ids(Contents(frozen + slice))
    {
      assert Contents(slice)[i] == slice[i].step;
      var j: nat :| j < |slice| && Contents(slice)[j].stepId == d;
      assert Contents(frozen + slice)[|frozen| + j].stepId == d;
    }
  }

  predicate Breaks(frozen: seq<StepPlan>, reply: Reply) {
    GoodReply(reply) && Misfit(frozen, MakeAll(reply.steps.value).value)
  }

  /** A reply that passes its own schema escapes the retry exactly when it does not fit the frozen rows. */
  lemma AbortsIff(frozen: seq<StepPlan>, picId: string, staff: set<string>, reply: Reply)
    requires AllWork(frozen)
    ensures TryAmend(frozen, picId, staff, reply).SchemaAbort? <==> Breaks(frozen, reply)
  {
    if GoodReply(reply) { MisfitIff(frozen, MakeAll(reply.steps.value).value); }
  }

  /** A reply whose one step takes the id of a frozen step: a plan of its own, and the end of the loop. */
  lemma AbortWitness(picId: string, staff: set<string>)
    ensures var step := StepPlan(StepContent("a", "x", "c", []), Work, false);
            var reply := Reply(Some([step]), None);
            GoodReply(reply) && TryAmend([step], picId, staff, reply).SchemaAbort?
  {
    var step := StepPlan(StepContent("a", "x", "c", []), Work, false);
    Text.StripFixed("a");
    Text.StripFixed("x");
    Text.StripFixed("c");
    assert MakeStep(step) == Ok(step);
    assert [step][..0] == [] && MakeAll([step]) == Ok([] + [step]);
    assert SchemaProblem([step]).None? by { SchemaAccepts([step]); }
    assert [] + [step] == [step] && MakeAll([step]).value == [step];
    assert !UniqueIds(Contents([step] + [step])) by {
      assert Contents([step] + [step])[0].stepId == Contents([step] + [step])[1].stepId;
    }
    AbortsIff([step], picId, staff, Reply(Some([step]), None));
  }

  /** The prefix the loop starts from consists of work steps. */
  lemma FrozenIsWork(rows: seq<Row>)
    requires FrozenPrefix(rows).Ok?
    ensures AllWork(FrozenPrefix(rows).value)
  {
    var raws := AsPlans(Frozen(rows));
    forall i | 0 <= i < |raws|
      ensures FrozenPrefix(rows).value[i].stepType == Work
    {
      MakeAllAt(raws, i);
    }
  }

  // ---------------------------------------------------------------------------------------
  // What the loop comes to, said of the replies
  // ---------------------------------------------------------------------------------------

  /** Combined with the frozen rows the slice has no cycle and asks only staff, and it ends at the PIC alone. */
  ghost predicate Fine(frozen: seq<StepPlan>, picId: string, staff: set<string>, slice: seq<StepPlan>)
    requires UniqueIds(Contents(frozen + slice))
  {
    && !HasCycle(GraphOf(Contents(frozen + slice)))
    && (forall s :: s in Contents(frozen + slice) ==> s.assignedTo in staff)
    && (picId != "" ==> EndsWith(Contents(slice), picId))
  }

  /** Exactly one step is waited for by no other, and it is this person's. */
  ghost predicate EndsWith(steps: seq<StepContent>, who: string) {
    exists t :: t in steps && t.assignedTo == who && forall s :: s in steps ==> (s == t <==> Unwaited(steps, s))
  }

  /** No step waits for this one. */
  ghost predicate Unwaited(steps: seq<StepContent>, s: StepContent) {
    forall u :: u in steps ==> s.stepId !in u.deps
  }

  /** The steps of a reply, built: a plan of its own, of one to seven work steps with known deps. */
  ghost predicate OwnPlan(reply: Reply, slice: seq<StepPlan>) {
    && reply.steps.Some? && MadeOf(reply.steps.value, slice)
    && 1 <= |slice| <= MAX_STEPS && UniqueIds(Contents(slice)) && KnownDeps(Contents(slice))
    && forall i :: 0 <= i < |slice| ==> slice[i].step.stepId !in slice[i].step.deps && slice[i].stepType == Work
  }

  /** This reply is accepted, with these steps. */
  ghost predicate Settles(frozen: seq<StepPlan>, picId: string, staff: set<string>, reply: Reply, slice: seq<StepPlan>) {
    OwnPlan(reply, slice) && !Misfit(frozen, slice) && Fine(frozen, picId, staff, slice)
  }

  /** After this reply the model is asked again: it is no plan, or it fits but is not fine. */
  ghost predicate AskedAgain(frozen: seq<StepPlan>, picId: string, staff: set<string>, reply: Reply) {
    forall slice :: OwnPlan(reply, slice) ==> !Misfit(frozen, slice) && !Fine(frozen, picId, staff, slice)
  }

  /** This reply ends the loop with the schema's error: a plan that does not fit the frozen rows. */
  ghost predicate Escapes(frozen: seq<StepPlan>, reply: Reply) {
    exists slice :: OwnPlan(reply, slice) && Misfit(frozen, slice)
  }

  lemma UnwaitedIff(steps: seq<StepContent>, s: StepContent)
    requires s in steps
    ensures s in Terminals(steps, DepTargets(steps)) <==> Unwaited(steps, s)
  {
    if s.stepId in DepTargets(steps) {
      var i: nat :| i < |steps| && s.stepId in steps[i].deps;
      assert steps[i] in steps;
    } else {
      forall u | u in steps
        ensures s.stepId !in u.deps
      {
        var i: nat :| i < |steps| && steps[i] == u;
      }
    }
  }

  /** The PIC rule, said of the steps. */
  lemma EndsWithIff(steps: seq<StepContent>, who: string)
    requires UniqueIds(steps)
    ensures PicProblem(steps, who).None? <==> EndsWith(steps, who)
  {
    var r := Terminals(steps, DepTargets(steps));
    forall s | s in steps
      ensures s in r <==> Unwaited(steps, s)
    {
      UnwaitedIff(steps, s);
    }
    if PicProblem(steps, who).None? {
      assert r == [r[0]] && r[0] in r;
    }
    if t :| t in steps && t.assignedTo == who && forall s :: s in steps ==> (s == t <==> Unwaited(steps, s)) {
      TerminalsDistinct(steps, DepTargets(steps));
      OnlyOne(r, t);
    }
  }

  /** Built step by step: all pass, and each gives its own plan. */
  predicate MadeOf(raws: seq<StepPlan>, plans: seq<StepPlan>) {
    |plans| == |raws| && forall i :: 0 <= i < |plans| ==> MakeStep(raws[i]) == Ok(plans[i])
  }

  lemma MakeAllIs(raws: seq<StepPlan>, plans: seq<StepPlan>)
    ensures MakeAll(raws) == Ok(plans) <==> MadeOf(raws, plans)
  {
    MakeAllFailsIff(raws);
    if MakeAll(raws).Ok? {
      var made := MakeAll(raws).value;
      forall i | 0 <= i < |raws|
        ensures MakeStep(raws[i]) == Ok(made[i])
      {
        MakeAllAt(raws, i);
      }
      if MadeOf(raws, plans) {
        assert forall i :: 0 <= i < |made| ==> made[i] == plans[i];
        assert made == plans;
      }
    }
  }

  lemma OwnPlanIs(reply: Reply, slice: seq<StepPlan>)
    ensures OwnPlan(reply, slice) <==> GoodReply(reply) && slice == MakeAll(reply.steps.value).value
  {
    SchemaAccepts(slice);
    if reply.steps.Some? { MakeAllIs(reply.steps.value, slice); }
  }

  lemma FineIff(frozen: seq<StepPlan>, picId: string, staff: set<string>, slice: seq<StepPlan>)
    requires SchemaProblem(slice).None? && SchemaProblem(frozen + slice).None?
    ensures UniqueIds(Contents(frozen + slice))
    ensures Fine(frozen, picId, staff, slice) <==>
              Acceptable(Contents(frozen + slice), staff, "") && (picId != "" ==> PicProblem(Contents(slice), picId).None?)
  {
    SchemaAccepts(slice);
    SchemaAccepts(frozen + slice);
    EndsWithIff(Contents(slice), picId);
  }

  /** One reply: accepted with its own built steps, asked again, or the end of the loop, and each exactly when said. */
  lemma ReplyIs(frozen: seq<StepPlan>, picId: string, staff: set<string>, reply: Reply)
    requires AllWork(frozen)
    ensures var a := TryAmend(frozen, picId, staff, reply);
            && (a.Retry? <==> AskedAgain(frozen, picId, staff, reply))
            && (a.SchemaAbort? <==> Escapes(frozen, reply))
            && forall slice :: a == Accepted(slice) <==> Settles(frozen, picId, staff, reply, slice)
  {
    forall slice
      ensures OwnPlan(reply, slice) <==> GoodReply(reply) && slice == MakeAll(reply.steps.value).value
    {
      OwnPlanIs(reply, slice);
    }
    if GoodReply(reply) {
      var made := MakeAll(reply.steps.value).value;
      MisfitIff(frozen, made);
      if !Misfit(frozen, made) { FineIff(frozen, picId, staff, made); }
      assert OwnPlan(reply, made);
    }
  }

  /** What `amend_with_retries` comes to once the frozen rows are rebuilt. */
  ghost predicate AmendSettled(frozen: seq<StepPlan>, picId: string, staff: set<string>, replies: nat -> Reply, r: AmendResult, asked: nat) {
    && 1 <= asked <= MAX_AMEND_ATTEMPTS
    && (forall j: nat :: j < asked - 1 ==> AskedAgain(frozen, picId, staff, replies(j)))
    && match r
       case Amended(steps, combined) => Settles(frozen, picId, staff, replies(asked - 1), steps) && combined == frozen + steps
       case Aborted(_) => Escapes(frozen, replies(asked - 1))
       case Exhausted => asked == MAX_AMEND_ATTEMPTS && AskedAgain(frozen, picId, staff, replies(asked - 1))
       case NoStaff => false
  }

  ghost predicate RetriedBelow(attempts: nat -> Attempt, n: nat) {
    forall j: nat :: j < n ==> attempts(j).Retry?
  }

  lemma SettledBy(frozen: seq<StepPlan>, picId: string, staff: set<string>, replies: nat -> Reply, attempts: nat -> Attempt,
                  asked: nat, a: Attempt)
    requires AllWork(frozen) && 1 <= asked <= MAX_AMEND_ATTEMPTS && attempts == Attempts(frozen, picId, staff, replies)
    requires RetriedBelow(attempts, asked - 1) && a == attempts(asked - 1) && (a.Retry? ==> asked == MAX_AMEND_ATTEMPTS)
    ensures AmendSettled(frozen, picId, staff, replies, Finish(frozen, a), asked)
  {
    forall j: nat | j < asked
      ensures attempts(j).Retry? <==> AskedAgain(frozen, picId, staff, replies(j))
    {
      ReplyIs(frozen, picId, staff, replies(j));
    }
    ReplyIs(frozen, picId, staff, replies(asked - 1));
  }

  /**
   `amend_with_retries` succeeds with these steps exactly if some reply among the first three is
   accepted with them and every reply before it was to be asked for again.
   */
  lemma AmendedIff(rows: seq<Row>, picId: string, staff: set<string>, replies: nat -> Reply, frozen: seq<StepPlan>, slice: seq<StepPlan>)
    requires FrozenPrefix(rows) == Ok(frozen) && staff != {}
    ensures AmendOutcome(rows, picId, staff, replies) == Amended(slice, frozen + slice) <==>
              exists k: nat :: && k < MAX_AMEND_ATTEMPTS && Settles(frozen, picId, staff, replies(k), slice)
                               && forall j: nat :: j < k ==> AskedAgain(frozen, picId, staff, replies(j))
  {
    FrozenIsWork(rows);
    var attempts := Attempts(frozen, picId, staff, replies);
    forall k: nat | k < MAX_AMEND_ATTEMPTS
      ensures attempts(k).Retry? <==> AskedAgain(frozen, picId, staff, replies(k))
      ensures attempts(k) == Accepted(slice) <==> Settles(frozen, picId, staff, replies(k), slice)
    {
      ReplyIs(frozen, picId, staff, replies(k));
    }
    LoopAmendsIff(frozen, attempts, 0, slice);
  }

  lemma {:induction false} LoopAmendsIff(frozen: seq<StepPlan>, attempts: nat -> Attempt, i: nat, slice: seq<StepPlan>)
    ensures AmendFrom(frozen, attempts, i) == Amended(slice, frozen + slice) <==>
              exists k: nat :: i <= k < MAX_AMEND_ATTEMPTS && attempts(k) == Accepted(slice) && forall j: nat :: i <= j < k ==> attempts(j).Retry?
    decreases MAX_AMEND_ATTEMPTS - i
  {
    if i < MAX_AMEND_ATTEMPTS {
      AmendUnfold(frozen, attempts, i);
      LoopAmendsIff(frozen, attempts, i + 1, slice);
      if attempts(i).Retry? {
        if k: nat :| i + 1 <= k < MAX_AMEND_ATTEMPTS && attempts(k) == Accepted(slice) && forall j: nat :: i + 1 <= j < k ==> attempts(j).Retry? {
          assert forall j: nat :: i <= j < k ==> attempts(j).Retry?;
        }
      }
    }
  }

  /** The whole loop aborts exactly when some attempt aborts and all before it were to be retried. */
  lemma {:induction false} LoopAbortsIff(frozen: seq<StepPlan>, attempts: nat -> Attempt, i: nat)
    ensures AmendFrom(frozen, attempts, i).Aborted? <==>
              exists k: nat :: i <= k < MAX_AMEND_ATTEMPTS && attempts(k).SchemaAbort? && forall j: nat :: i <= j < k ==> attempts(j).Retry?
    decreases MAX_AMEND_ATTEMPTS - i
  {
    if i < MAX_AMEND_ATTEMPTS {
      AmendUnfold(frozen, attempts, i);
      LoopAbortsIff(frozen, attempts, i + 1);
      if attempts(i).Retry? {
        if k: nat :| i + 1 <= k < MAX_AMEND_ATTEMPTS && attempts(k).SchemaAbort? && forall j: nat :: i + 1 <= j < k ==> attempts(j).Retry? {
          assert forall j: nat :: i <= j < k ==> attempts(j).Retry?;
        }
      }
    }
  }

  /** `amend_with_retries` as a whole: which replies make it fail with a schema error. */
  lemma AmendAbortsIff(rows: seq<Row>, picId: string, staff: set<string>, replies: nat -> Reply, frozen: seq<StepPlan>)
    requires FrozenPrefix(rows) == Ok(frozen)
    ensures var attempts := Attempts(frozen, picId, staff, replies);
            AmendFrom(frozen, attempts, 0).Aborted? <==>
              exists k: nat :: && k < MAX_AMEND_ATTEMPTS && Breaks(frozen, replies(k))
                               && forall j: nat :: j < k ==> attempts(j).Retry?
  {
    var attempts := Attempts(frozen, picId, staff, replies);
    FrozenIsWork(rows);
    LoopAbortsIff(frozen, attempts, 0);
    forall k: nat | k < MAX_AMEND_ATTEMPTS
      ensures attempts(k).SchemaAbort? <==> Breaks(frozen, replies(k))
    {
      AbortsIff(frozen, picId, staff, replies(k));
    }
  }

  // ---------------------------------------------------------------------------------------
  // A fresh plan
  // ---------------------------------------------------------------------------------------

  /** A plan the planner lets through: built by the field validators, past the schema and the gate. */
  ghost predicate AcceptedPlan(plans: seq<StepPlan>, staff: set<string>, picId: string) {
    && (exists raws :: MakeAll(raws) == Ok(plans))
    && SchemaProblem(plans).None?
    && UniqueIds(Contents(plans)) && Acceptable(Contents(plans), staff, picId)
  }

  /**
   One decomposition attempt: the reply is parsed into a plan, then validated against staff and PIC;
   a new task must have a PIC.
   */
  method Decompose(raws: seq<StepPlan>, parsedPic: string, staff: set<string>, picId: Option<string>)
    returns (r: Option<DecomposedTask>)
    ensures var pic := if picId.Some? then Text.Strip(picId.value) else parsedPic;
            && (r.Some? <==> MakeAll(raws).Ok? && AssignedPlan(MakeAll(raws).value, staff, pic))
            && (r.Some? ==> r.value == DecomposedTask(MakeAll(raws).value, pic))
  {
    var made := MakeAll(raws);
    if made.Err? {
      return None;
    }
    if SchemaProblem(made.value).Some? {
      return None;
    }
    SchemaAccepts(made.value);
    var verdict := ValidateDecomposition(DecomposedTask(made.value, parsedPic), staff, picId);
    if verdict.Err? || verdict.value.picId == "" {
      return None;
    }
    return Some(verdict.value);
  }

  /** A plan a new task is assigned with: accepted, and with a PIC. */
  ghost predicate AssignedPlan(plans: seq<StepPlan>, staff: set<string>, picId: string) {
    AcceptedPlan(plans, staff, picId) && picId != ""
  }

  /** Every newly assigned task ends at its PIC: all its steps feed the PIC's one terminal step. */
  lemma AssignedPlanEndsAtPic(plans: seq<StepPlan>, staff: set<string>, picId: string) returns (t: StepContent)
    requires AssignedPlan(plans, staff, picId)
    ensures UniqueIds(Contents(plans)) && t in Contents(plans) && t.assignedTo == picId && picId in staff
    ensures Terminals(Contents(plans), DepTargets(Contents(plans))) == [t]
    ensures forall s :: s in Contents(plans) ==> Feeds(GraphOf(Contents(plans)), s.stepId, t.stepId)
  {
    AcceptedPlanIsSound(plans, staff, picId);
    t := AcceptedPlanEndsAtPic(Contents(plans), staff, picId);
  }

  /** What the planner lets through is what the ticker relies on. */
  lemma AcceptedPlanIsSound(plans: seq<StepPlan>, staff: set<string>, picId: string)
    requires AcceptedPlan(plans, staff, picId)
    ensures plans != [] && AllWork(plans) && SoundPlan(Contents(plans))
  {
    var raws :| MakeAll(raws) == Ok(plans);
    SchemaAccepts(plans);
    MadeAllBuilt(raws);
    AcyclicHasOrder(Contents(plans));
  }

  /** What the schema, gate and PIC checks together say about an accepted reply. */
  lemma AcceptedIsValid(rows: seq<Row>, picId: string, staff: set<string>, reply: Reply, frozen: seq<StepPlan>)
    requires forall i :: 0 <= i < |Frozen(rows)| ==> Built(Frozen(rows)[i])
    requires FrozenPrefix(rows) == Ok(frozen)
    requires TryAmend(frozen, picId, staff, reply).Accepted?
    ensures ValidAmendment(rows, picId, TryAmend(frozen, picId, staff, reply).newPending)
    ensures Contents(frozen) == Frozen(rows)
  {
    var slice := TryAmend(frozen, picId, staff, reply).newPending;
    RebuiltPrefix(Frozen(rows), frozen);
    ContentsAppend(frozen, slice);
    MadeAllBuilt(reply.steps.value);
    SchemaAccepts(slice);
    SchemaAccepts(frozen + slice);
    SoundParts(Frozen(rows), Contents(slice));
  }

  /** A successful loop returns what one of its attempts accepted. */
  lemma {:induction false} AmendedBy(frozen: seq<StepPlan>, attempts: nat -> Attempt, i: nat) returns (k: nat)
    requires AmendFrom(frozen, attempts, i).Amended?
    ensures var r := AmendFrom(frozen, attempts, i);
            attempts(k) == Accepted(r.steps) && r.combined == frozen + r.steps
    decreases MAX_AMEND_ATTEMPTS - i
  {
    if attempts(i).Retry? { k := AmendedBy(frozen, attempts, i + 1); } else { k := i; }
  }

  /** Every plan the whole loop returns is a valid one. */
  lemma AmendedIsValid(rows: seq<Row>, picId: string, staff: set<string>, replies: nat -> Reply, frozen: seq<StepPlan>, i: nat)
    requires forall k :: 0 <= k < |Frozen(rows)| ==> Built(Frozen(rows)[k])
    requires FrozenPrefix(rows) == Ok(frozen)
    ensures var r := AmendFrom(frozen, Attempts(frozen, picId, staff, replies), i);
            r.Amended? ==>
              ValidAmendment(rows, picId, r.steps) && Contents(r.combined) == Frozen(rows) + Contents(r.steps)
  {
    var attempts := Attempts(frozen, picId, staff, replies);
    if AmendFrom(frozen, attempts, i).Amended? {
      var k := AmendedBy(frozen, attempts, i);
      AcceptedIsValid(rows, picId, staff, replies(k), frozen);
      ContentsAppend(frozen, AmendFrom(frozen, attempts, i).steps);
    }
  }

  /** In an accepted slice of a task with a PIC every new step feeds one step, and it is the PIC's. */
  lemma SliceEndsAtPic(rows: seq<Row>, picId: string, slice: seq<StepPlan>) returns (t: StepContent)
    requires ValidAmendment(rows, picId, slice) && picId != ""
    ensures t in Contents(slice) && t.assignedTo == picId
    ensures forall s :: s in Contents(slice) ==> Feeds(GraphOf(Contents(slice)), s.stepId, t.stepId)
  {
    PicOwnsTheFunnel(Contents(slice), picId);
    t :| && t in Contents(slice) && t.assignedTo == picId
         && forall s :: s in Contents(slice) ==> Feeds(GraphOf(Contents(slice)), s.stepId, t.stepId);
  }
}
