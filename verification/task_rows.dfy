/**
 The rows of one team task (src/runtime/team_task_steps.py): what the store keeps per step, the
 row sets the coordinator and the amend path look at, and the facts about a task that every
 store operation keeps.
 */
module TaskRows {
  import opened Common
  import opened DependencyGraph
  import opened Planning
  import Text

  datatype StepStatus = Pending | Running | AwaitingApproval | Done | Failed | TimedOut

  /** `TeamStep`: the hashed fields, the lifecycle columns and the peer-review columns. */
  datatype Row = Row(step: StepContent, status: StepStatus, stepType: StepType, needsReview: bool,
                     systemInserted: bool, parent: Option<string>, reviewRound: nat,
                     attempt: Option<nat>, pid: Option<int>, hasOutcome: bool,
                     approvalId: Option<nat>, cost: Option<real>)

  datatype TaskStatus = Planned | Open | InProgress | Completed | Cancelled | Stalled

  /** The plan hash, identified with the content it is computed from. */
  type PlanHash = seq<StepContent>

  /** `TeamTask`: the header plus its rows in insertion (`seq`) order. */
  datatype TeamTask = TeamTask(status: TaskStatus, planHash: Option<PlanHash>, picId: string,
                               decomposeCost: real, aggregateCost: real, rows: seq<Row>)

  // ---------------------------------------------------------------------------------------
  // Row sets
  // ---------------------------------------------------------------------------------------

  function Steps(rows: seq<Row>): seq<StepContent> {
    seq(|rows|, i requires 0 <= i < |rows| => rows[i].step)
  }

  predicate UniqueRows(rows: seq<Row>) {
    forall i, j :: 0 <= i < j < |rows| ==> rows[i].step.stepId != rows[j].step.stepId
  }

  predicate HasRow(rows: seq<Row>, id: string) {
    exists i :: 0 <= i < |rows| && rows[i].step.stepId == id
  }

  /** The row exists and is no longer pending. */
  predicate StartedRow(rows: seq<Row>, id: string) {
    exists i :: 0 <= i < |rows| && rows[i].step.stepId == id && rows[i].status != Pending
  }

  predicate DoneRow(rows: seq<Row>, id: string) {
    exists i :: 0 <= i < |rows| && rows[i].step.stepId == id && rows[i].status == Done
  }

  /** The steps the CEO confirmed: rows that were not minted by the ticker. */
  function Confirmed(rows: seq<Row>): seq<StepContent> {
    if rows == [] then []
    else Confirmed(rows[..|rows| - 1]) + ConfirmedStep(rows[|rows| - 1])
  }

  function ConfirmedStep(r: Row): seq<StepContent> {
    if r.systemInserted then [] else [r.step]
  }

  /** The rows that are no longer pending: what an amend must leave alone. */
  function Started(rows: seq<Row>): seq<Row> {
    if rows == [] then []
    else Started(rows[..|rows| - 1]) + if rows[|rows| - 1].status == Pending then [] else [rows[|rows| - 1]]
  }

  function PendingIds(rows: seq<Row>): set<string> {
    set i | 0 <= i < |rows| && rows[i].status == Pending :: rows[i].step.stepId
  }

  function PlannedRow(p: StepPlan): Row {
    Row(p.step, Pending, p.stepType, p.needsReview, false, None, 0, None, None, false, None, None)
  }

  function PlannedRows(plans: seq<StepPlan>): seq<Row> {
    seq(|plans|, i requires 0 <= i < |plans| => PlannedRow(plans[i]))
  }

  lemma {:induction false} ConfirmedAppend(a: seq<Row>, b: seq<Row>)
    ensures Confirmed(a + b) == Confirmed(a) + Confirmed(b)
  {
    if b == [] {
      assert a + b == a;
    } else {
      var front := b[..|b| - 1];
      ConfirmedAppend(a, front);
      assert (a + b)[..|a + b| - 1] == a + front && (a + b)[|a + b| - 1] == b[|b| - 1];
      assert Confirmed(a) + (Confirmed(front) + ConfirmedStep(b[|b| - 1])) == Confirmed(a) + Confirmed(front) + ConfirmedStep(b[|b| - 1]);
    }
  }

  lemma {:induction false} ConfirmedPlanned(plans: seq<StepPlan>)
    ensures Confirmed(PlannedRows(plans)) == Contents(plans)
  {
    if plans != [] {
      var front := plans[..|plans| - 1];
      ConfirmedPlanned(front);
      assert PlannedRows(plans)[..|plans| - 1] == PlannedRows(front);
      assert Contents(plans) == Contents(front) + [plans[|plans| - 1].step];
    }
  }

  lemma {:induction false} ConfirmedMember(rows: seq<Row>, c: StepContent)
    ensures c in Confirmed(rows) <==> exists i :: 0 <= i < |rows| && !rows[i].systemInserted && rows[i].step == c
  {
    if rows != [] {
      var front := rows[..|rows| - 1];
      ConfirmedMember(front, c);
      assert forall i :: 0 <= i < |front| ==> front[i] == rows[i];
    }
  }

  lemma {:induction false} ConfirmedUnique(rows: seq<Row>)
    requires UniqueRows(rows)
    ensures UniqueIds(Confirmed(rows))
  {
    if rows != [] {
      var front, last := rows[..|rows| - 1], rows[|rows| - 1];
      ConfirmedUnique(front);
      forall c | c in Confirmed(front)
        ensures c.stepId != last.step.stepId
      {
        ConfirmedMember(front, c);
      }
    }
  }

  lemma {:induction false} StartedMember(rows: seq<Row>, r: Row)
    ensures r in Started(rows) <==> r in rows && r.status != Pending
  {
    if rows != [] {
      StartedMember(rows[..|rows| - 1], r);
      assert rows == rows[..|rows| - 1] + [rows[|rows| - 1]];
    }
  }

  lemma {:induction false} StartedUnique(rows: seq<Row>)
    requires UniqueRows(rows)
    ensures UniqueRows(Started(rows))
  {
    if rows != [] {
      var front, last := rows[..|rows| - 1], rows[|rows| - 1];
      StartedUnique(front);
      forall i | 0 <= i < |Started(front)|
        ensures Started(front)[i].step.stepId != last.step.stepId
      {
        StartedMember(front, Started(front)[i]);
      }
    }
  }

  // ---------------------------------------------------------------------------------------
  // Grounding of ticker-minted rows
  // ---------------------------------------------------------------------------------------

  /**
   A ticker-minted row depends only on rows above it, and it has left `pending` only after
   they did.
   */
  predicate GroundedRow(above: seq<Row>, r: Row) {
    r.systemInserted ==> forall d :: d in r.step.deps ==>
      HasRow(above, d) && (r.status != Pending ==> StartedRow(above, d))
  }

  predicate Grounded(rows: seq<Row>) {
    rows == [] || (Grounded(rows[..|rows| - 1]) && GroundedRow(rows[..|rows| - 1], rows[|rows| - 1]))
  }

  lemma StartedKeeps(rows: seq<Row>, d: string)
    requires StartedRow(rows, d)
    ensures HasRow(Started(rows), d) && StartedRow(Started(rows), d)
  {
    var i :| 0 <= i < |rows| && rows[i].step.stepId == d && rows[i].status != Pending;
    StartedMember(rows, rows[i]);
    var j :| 0 <= j < |Started(rows)| && Started(rows)[j] == rows[i];
  }

  /** Dropping the pending rows leaves the ticker-minted ones grounded. */
  lemma {:induction false} StartedGrounded(rows: seq<Row>)
    requires Grounded(rows)
    ensures Grounded(Started(rows))
  {
    if rows != [] {
      var front, last := rows[..|rows| - 1], rows[|rows| - 1];
      StartedGrounded(front);
      if last.status != Pending {
        if last.systemInserted {
          forall d | d in last.step.deps
            ensures HasRow(Started(front), d) && StartedRow(Started(front), d)
          {
            StartedKeeps(front, d);
          }
        }
        assert GroundedRow(front, last);
        assert Started(rows) == Started(front) + [last];
        assert Started(rows)[..|Started(rows)| - 1] == Started(front);
        assert GroundedRow(Started(front), last);
      } else {
        assert Started(rows) == Started(front);
      }
    }
  }

  lemma {:induction false} GroundedAppendConfirmed(rows: seq<Row>, more: seq<Row>)
    requires Grounded(rows) && forall i :: 0 <= i < |more| ==> !more[i].systemInserted
    ensures Grounded(rows + more)
  {
    if more == [] {
      assert rows + more == rows;
    } else {
      GroundedAppendConfirmed(rows, more[..|more| - 1]);
      assert (rows + more)[..|rows + more| - 1] == rows + more[..|more| - 1];
    }
  }

  lemma GroundedAppendSystem(rows: seq<Row>, r: Row)
    requires Grounded(rows) && r.status == Pending
    requires forall d :: d in r.step.deps ==> HasRow(rows, d)
    ensures Grounded(rows + [r])
  {
    assert (rows + [r])[..|rows + [r]| - 1] == rows;
  }

  /** A row may change its lifecycle columns, and may not go back to `pending`. */
  predicate Advances(r: Row, r': Row) {
    && r'.step == r.step && r'.systemInserted == r.systemInserted
    && r'.stepType == r.stepType && r'.needsReview == r.needsReview
    && r'.parent == r.parent && r'.reviewRound == r.reviewRound
    && r'.status != Pending
  }

  /** A ticker-minted row may only leave `pending` once the rows it depends on have. */
  predicate MayAdvance(rows: seq<Row>, i: nat)
    requires i < |rows|
  {
    rows[i].systemInserted && rows[i].status == Pending ==>
      forall d :: d in rows[i].step.deps ==> StartedRow(rows[..i], d)
  }

  lemma StartedMonotone(rows: seq<Row>, i: nat, r: Row, d: string)
    requires i < |rows| && Advances(rows[i], r)
    ensures HasRow(rows, d) ==> HasRow(rows[i := r], d)
    ensures StartedRow(rows, d) ==> StartedRow(rows[i := r], d)
  {
    if j :| 0 <= j < |rows| && rows[j].step.stepId == d {
      assert rows[i := r][j].step.stepId == d;
    }
    if j :| 0 <= j < |rows| && rows[j].step.stepId == d && rows[j].status != Pending {
      assert rows[i := r][j].step.stepId == d && rows[i := r][j].status != Pending;
    }
  }

  lemma {:induction false} AdvanceGrounded(rows: seq<Row>, i: nat, r: Row)
    requires Grounded(rows) && i < |rows| && Advances(rows[i], r) && MayAdvance(rows, i)
    ensures Grounded(rows[i := r])
  {
    var front, last := rows[..|rows| - 1], rows[|rows| - 1];
    if i == |rows| - 1 {
      assert rows[i := r][..|rows| - 1] == front;
      assert rows[..i] == front;
    } else {
      assert rows[i := r][..|rows| - 1] == front[i := r];
      assert front[..i] == rows[..i];
      AdvanceGrounded(front, i, r);
      if last.systemInserted {
        forall d | d in last.step.deps
          ensures HasRow(front[i := r], d) && (last.status != Pending ==> StartedRow(front[i := r], d))
        {
          StartedMonotone(front, i, r, d);
        }
      }
    }
  }

  lemma {:induction false} AdvanceConfirmed(rows: seq<Row>, i: nat, r: Row)
    requires i < |rows| && Advances(rows[i], r)
    ensures Confirmed(rows[i := r]) == Confirmed(rows)
  {
    var front := rows[..|rows| - 1];
    if i == |rows| - 1 {
      assert rows[i := r][..|rows| - 1] == front;
    } else {
      assert rows[i := r][..|rows| - 1] == front[i := r];
      AdvanceConfirmed(front, i, r);
    }
  }

  // ---------------------------------------------------------------------------------------
  // Planned and minted rows
  // ---------------------------------------------------------------------------------------

  /** The last review round that may still ask for a rework. */
  const MAX_REVIEW_ROUNDS: nat := 2

  /** Reviews come in rounds 0 to 2, reworks in rounds 0 and 1. */
  function RoundLimit(kind: StepType): nat {
    if kind == Rework then MAX_REVIEW_ROUNDS - 1 else MAX_REVIEW_ROUNDS
  }

  function ReworkId(parent: string, round: nat): string {
    parent + "-rework-" + Text.Digits(round)
  }

  predicate PlannedShape(r: Row) {
    !r.systemInserted && r.stepType == Work && r.parent.None? && r.reviewRound == 0
  }

  /** A review or rework row as the ticker mints it: the id of a rework tells its parent and round. */
  predicate MintedShape(r: Row) {
    && r.systemInserted && r.parent.Some? && r.stepType != Work && !r.needsReview
    && r.reviewRound <= RoundLimit(r.stepType)
    && (r.stepType == Rework ==> r.step.stepId == ReworkId(r.parent.value, r.reviewRound))
  }

  /** No review of the same parent has come further. */
  predicate FitsRound(rows: seq<Row>, r: Row) {
    r.stepType == Review ==>
      forall j :: 0 <= j < |rows| && rows[j].stepType == Review && rows[j].parent == r.parent ==>
        rows[j].reviewRound <= r.reviewRound
  }

  /** Every row is planned or minted, and the reviews of one parent go through the rounds in order. */
  predicate Shaped(rows: seq<Row>) {
    && (forall i :: 0 <= i < |rows| ==> PlannedShape(rows[i]) || MintedShape(rows[i]))
    && forall i :: 0 <= i < |rows| ==> FitsRound(rows[..i], rows[i])
  }

  lemma ShapedAppend(rows: seq<Row>, r: Row)
    requires Shaped(rows) && (PlannedShape(r) || (MintedShape(r) && FitsRound(rows, r)))
    ensures Shaped(rows + [r])
  {
    forall i | 0 <= i < |rows + [r]|
      ensures FitsRound((rows + [r])[..i], (rows + [r])[i])
    {
      assert (rows + [r])[..i] == rows[..i];
      assert rows[..|rows|] == rows;
    }
  }

  lemma ShapedFront(rows: seq<Row>)
    requires Shaped(rows) && rows != []
    ensures Shaped(rows[..|rows| - 1]) && FitsRound(rows[..|rows| - 1], rows[|rows| - 1])
  {
    var front := rows[..|rows| - 1];
    forall i | 0 <= i < |front|
      ensures FitsRound(front[..i], front[i])
    {
      assert front[..i] == rows[..i];
    }
  }

  lemma {:induction false} ShapedStarted(rows: seq<Row>)
    requires Shaped(rows)
    ensures Shaped(Started(rows))
  {
    if rows != [] {
      var front, last := rows[..|rows| - 1], rows[|rows| - 1];
      ShapedFront(rows);
      ShapedStarted(front);
      if last.status != Pending {
        forall j | 0 <= j < |Started(front)|
          ensures Started(front)[j] in front
        {
          StartedMember(front, Started(front)[j]);
        }
        assert FitsRound(Started(front), last);
        ShapedAppend(Started(front), last);
        assert Started(rows) == Started(front) + [last];
      } else {
        assert Started(rows) == Started(front);
      }
    }
  }

  lemma {:induction false} ShapedPlanned(rows: seq<Row>, plans: seq<StepPlan>)
    requires Shaped(rows) && AllWork(plans)
    ensures Shaped(rows + PlannedRows(plans))
  {
    if plans == [] {
      assert rows + PlannedRows(plans) == rows;
    } else {
      var front := plans[..|plans| - 1];
      ShapedPlanned(rows, front);
      ShapedAppend(rows + PlannedRows(front), PlannedRow(plans[|plans| - 1]));
      assert rows + PlannedRows(plans) == rows + PlannedRows(front) + [PlannedRow(plans[|plans| - 1])];
    }
  }

  lemma ShapedAdvance(rows: seq<Row>, i: nat, r: Row)
    requires Shaped(rows) && i < |rows| && Advances(rows[i], r)
    ensures Shaped(rows[i := r])
  {
    var rows' := rows[i := r];
    forall k | 0 <= k < |rows'|
      ensures FitsRound(rows'[..k], rows'[k])
    {
      assert FitsRound(rows[..k], rows[k]);
      assert forall j :: 0 <= j < k ==> rows[..k][j] == rows[j];
    }
  }

  /** A plan proposes work steps only. */
  predicate AllWork(plans: seq<StepPlan>) {
    forall i :: 0 <= i < |plans| ==> plans[i].stepType == Work
  }

  // ---------------------------------------------------------------------------------------
  // What every store operation keeps
  // ---------------------------------------------------------------------------------------

  /** What the field validators make of a step: stripped, within the lengths, with a title. */
  predicate Built(c: StepContent) {
    && Text.Strip(c.stepId) == c.stepId && |c.stepId| <= 40
    && Text.Strip(c.title) == c.title && 1 <= |c.title| <= 300
    && Text.Strip(c.assignedTo) == c.assignedTo && |c.assignedTo| <= 40
  }

  /** A plan that passed the schema and the acyclicity check. */
  ghost predicate SoundPlan(steps: seq<StepContent>) {
    && UniqueIds(steps) && KnownDeps(steps)
    && HasOrder(GraphOf(steps))
    && forall i :: 0 <= i < |steps| ==> Built(steps[i])
  }

  /**
   The stored hash is the hash of the confirmed rows, those rows form a sound plan, and the
   ticker-minted rows are grounded and go through their rounds in order.
   */
  ghost predicate Sound(t: TeamTask) {
    && t.rows != []
    && UniqueRows(t.rows)
    && SoundPlan(Confirmed(t.rows))
    && Grounded(t.rows) && Shaped(t.rows)
    && t.planHash == Some(Confirmed(t.rows))
  }

  /** A freshly persisted plan. */
  lemma PlanIsSound(t: TeamTask, plans: seq<StepPlan>)
    requires plans != [] && AllWork(plans) && SoundPlan(Contents(plans))
    requires t.rows == PlannedRows(plans) && t.planHash == Some(Contents(plans))
    ensures Sound(t)
  {
    ConfirmedPlanned(plans);
    GroundedAppendConfirmed([], t.rows);
    ShapedPlanned([], plans);
    assert [] + t.rows == t.rows;
    PlannedDistinct(plans);
  }

  lemma PlannedDistinct(plans: seq<StepPlan>)
    requires UniqueIds(Contents(plans))
    ensures UniqueRows(PlannedRows(plans))
  {
    var rows := PlannedRows(plans);
    forall i, j | 0 <= i < j < |rows|
      ensures rows[i].step.stepId != rows[j].step.stepId
    {
      assert Contents(plans)[i].stepId != Contents(plans)[j].stepId;
    }
  }

  lemma AdvanceSound(t: TeamTask, i: nat, r: Row)
    requires Sound(t) && i < |t.rows| && Advances(t.rows[i], r) && MayAdvance(t.rows, i)
    ensures Sound(t.(rows := t.rows[i := r]))
  {
    AdvanceGrounded(t.rows, i, r);
    AdvanceConfirmed(t.rows, i, r);
    ShapedAdvance(t.rows, i, r);
  }

  lemma InsertSound(t: TeamTask, r: Row)
    requires Sound(t) && MintedShape(r) && FitsRound(t.rows, r) && r.status == Pending
    requires !HasRow(t.rows, r.step.stepId) && forall d :: d in r.step.deps ==> HasRow(t.rows, d)
    ensures Sound(t.(rows := t.rows + [r]))
  {
    GroundedAppendSystem(t.rows, r);
    ShapedAppend(t.rows, r);
    assert (t.rows + [r])[..|t.rows + [r]| - 1] == t.rows;
    assert Confirmed(t.rows + [r]) == Confirmed(t.rows);
  }
}
