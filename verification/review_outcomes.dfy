/**
 What a tick does about peer reviews, said of the rows and of the verdicts on file
 (src/agent/coordinator_nodes/review_insert.py, src/agent/coordinator_graph.py).
 */
module ReviewOutcomes {
  import opened Common
  import opened Planning
  import opened TaskRows
  import opened PlanRuns
  import opened TeamTaskStore
  import opened Ticker
  import opened Progress

  // ---------------------------------------------------------------------------------------
  // Which rows call for something
  // ---------------------------------------------------------------------------------------

  predicate ReviewOf(r: Row, parent: string) {
    r.stepType == Review && r.parent == Some(parent)
  }

  /** The last row inserted to review this step. */
  predicate NewestReview(rows: seq<Row>, parent: string, k: nat) {
    k < |rows| && ReviewOf(rows[k], parent) && forall j :: k < j < |rows| ==> !ReviewOf(rows[j], parent)
  }

  predicate NeverReviewed(rows: seq<Row>, parent: string) {
    forall j :: 0 <= j < |rows| ==> !ReviewOf(rows[j], parent)
  }

  /** How often this step has been sent to review. */
  function Reviews(rows: seq<Row>, parent: string): nat {
    |set j | 0 <= j < |rows| && ReviewOf(rows[j], parent)|
  }

  /** Row `k` is the content step that row `i` is about. */
  predicate About(rows: seq<Row>, i: nat, k: nat) {
    i < |rows| && k < |rows| && rows[i].parent == Some(rows[k].step.stepId)
  }

  /** A finished review with this verdict on file for its step and round. */
  predicate Judged(env: Env, rows: seq<Row>, i: nat, k: nat, verdict: Option<bool>) {
    && About(rows, i, k) && rows[i].status == Done && rows[i].stepType == Review
    && env.verdict(rows[k].step.stepId, rows[i].reviewRound) == verdict
  }

  /** A finished work step that asked for a review, has had none, and has a colleague to do it. */
  predicate Unreviewed(env: Env, rows: seq<Row>, i: nat) {
    && i < |rows| && rows[i].status == Done && rows[i].stepType == Work && rows[i].needsReview
    && NeverReviewed(rows, rows[i].step.stepId) && env.reviewer(rows[i].step.assignedTo).Some?
  }

  /** The newest review of a step ended without a verdict. */
  predicate Unjudged(env: Env, rows: seq<Row>, i: nat, k: nat) {
    Judged(env, rows, i, k, None) && NewestReview(rows, rows[k].step.stepId, i)
  }

  /** A step was rejected in this round, which is not the last, and has not been reworked in it. */
  predicate Rejected(env: Env, rows: seq<Row>, i: nat, k: nat) {
    && Judged(env, rows, i, k, Some(false)) && rows[i].reviewRound < MAX_REVIEW_ROUNDS
    && forall j :: 0 <= j < |rows| ==>
         !(rows[j].stepType == Rework && rows[j].parent == rows[i].parent && rows[j].reviewRound == rows[i].reviewRound)
  }

  /** A step was rejected in the last round. */
  predicate RejectedForGood(env: Env, rows: seq<Row>, i: nat, k: nat) {
    Judged(env, rows, i, k, Some(false)) && rows[i].reviewRound >= MAX_REVIEW_ROUNDS
  }

  /** A finished rework whose round no review has gone beyond, with a colleague to review it. */
  predicate Unrechecked(env: Env, rows: seq<Row>, i: nat, k: nat) {
    && About(rows, i, k) && rows[i].status == Done && rows[i].stepType == Rework
    && (forall n :: 0 <= n < |rows| && NewestReview(rows, rows[k].step.stepId, n) ==> rows[n].reviewRound <= rows[i].reviewRound)
    && env.reviewer(rows[k].step.assignedTo).Some?
  }

  predicate CallsAbout(env: Env, rows: seq<Row>, i: nat, k: nat) {
    || Unjudged(env, rows, i, k) || Rejected(env, rows, i, k)
    || RejectedForGood(env, rows, i, k) || Unrechecked(env, rows, i, k)
  }

  /** The row calls for a review, a rework or a stall. */
  predicate Calls(env: Env, rows: seq<Row>, i: nat) {
    Unreviewed(env, rows, i) || exists k: nat :: k < |rows| && CallsAbout(env, rows, i, k)
  }

  /** The first row that calls for something. */
  predicate FirstCall(env: Env, rows: seq<Row>, i: nat) {
    Calls(env, rows, i) && forall j: nat :: j < i ==> !Calls(env, rows, j)
  }

  lemma NewestIs(rows: seq<Row>, parent: string, k: nat)
    ensures NewestReview(rows, parent, k) <==> k < |rows| && NewestChild(rows, parent, Review) == k
    ensures NeverReviewed(rows, parent) <==> NewestChild(rows, parent, Review) == |rows|
  {
    var n := NewestChild(rows, parent, Review);
    if n < |rows| { assert ReviewOf(rows[n], parent); }
  }

  lemma AboutIs(rows: seq<Row>, i: nat, k: nat)
    requires UniqueRows(rows) && i < |rows| && k < |rows|
    ensures About(rows, i, k) <==> rows[i].parent.Some? && FindRow(rows, rows[i].parent.value) == k
  {
    if About(rows, i, k) { SameSlot(rows, FindRow(rows, rows[i].parent.value), k); }
  }

  /** A verdict that passed calls for nothing: no rework, no further review, no stall. */
  lemma PassedCallsNothing(env: Env, rows: seq<Row>, i: nat, k: nat)
    requires UniqueRows(rows) && Judged(env, rows, i, k, Some(true))
    ensures !Calls(env, rows, i)
  {
    forall m: nat | m < |rows| && About(rows, i, m)
      ensures m == k
    {
      SameSlot(rows, m, k);
    }
  }

  lemma DueAfterReview(env: Env, rows: seq<Row>, i: nat, k: nat)
    requires UniqueRows(rows) && About(rows, i, k) && rows[i].status == Done && rows[i].stepType == Review
    ensures ReviewDue(env, rows, i) <==> Unjudged(env, rows, i, k) || Rejected(env, rows, i, k) || RejectedForGood(env, rows, i, k)
  {
    AboutIs(rows, i, k);
    NewestIs(rows, rows[k].step.stepId, i);
  }

  lemma DueAfterRework(env: Env, rows: seq<Row>, i: nat, k: nat)
    requires UniqueRows(rows) && About(rows, i, k) && rows[i].status == Done && rows[i].stepType == Rework
    ensures ReviewDue(env, rows, i) <==> Unrechecked(env, rows, i, k)
  {
    AboutIs(rows, i, k);
    var parent := rows[k].step.stepId;
    var n := NewestChild(rows, parent, Review);
    NewestIs(rows, parent, n);
    forall m: nat | NewestReview(rows, parent, m)
      ensures m == n
    {
      NewestIs(rows, parent, m);
    }
  }

  /** What the scan acts on are exactly the rows that call for something. */
  lemma CallsIff(env: Env, rows: seq<Row>, i: nat)
    requires UniqueRows(rows) && i < |rows|
    ensures ReviewDue(env, rows, i) <==> Calls(env, rows, i)
  {
    if rows[i].stepType == Work {
      NewestIs(rows, rows[i].step.stepId, i);
    } else if rows[i].status == Done && rows[i].parent.Some? && FindRow(rows, rows[i].parent.value) < |rows| {
      var k := FindRow(rows, rows[i].parent.value);
      AboutIs(rows, i, k);
      if rows[i].stepType == Review { DueAfterReview(env, rows, i, k); } else { DueAfterRework(env, rows, i, k); }
      forall m: nat | m < |rows| && About(rows, i, m)
        ensures m == k
      {
        SameSlot(rows, m, k);
      }
      assert CallsAbout(env, rows, i, k) <==> ReviewDue(env, rows, i);
    } else {
      NoneAbout(rows, i);
    }
  }

  lemma NoneAbout(rows: seq<Row>, i: nat)
    requires UniqueRows(rows) && i < |rows|
    requires rows[i].status != Done || rows[i].parent.None? || FindRow(rows, rows[i].parent.value) == |rows|
    ensures forall k: nat :: k < |rows| && About(rows, i, k) ==> rows[i].status != Done
  {
    forall k: nat | k < |rows| && About(rows, i, k)
      ensures rows[i].status != Done
    {
      AboutIs(rows, i, k);
    }
  }

  lemma FirstCallIs(env: Env, rows: seq<Row>, i: nat)
    requires UniqueRows(rows)
    ensures FirstCall(env, rows, i) <==> i < |rows| && FirstReview(env, rows) == i
  {
    forall j: nat | j < |rows|
      ensures ReviewDue(env, rows, j) <==> Calls(env, rows, j)
    {
      CallsIff(env, rows, j);
    }
    if Calls(env, rows, i) { assert i < |rows|; }
  }

  // ---------------------------------------------------------------------------------------
  // What the tick does for the first of them
  // ---------------------------------------------------------------------------------------

  lemma {:induction false} ReviewsCounted(rows: seq<Row>, parent: string)
    ensures ChildCount(rows, parent, Review) == Reviews(rows, parent)
  {
    var all := set j | 0 <= j < |rows| && ReviewOf(rows[j], parent);
    if rows != [] {
      var n := |rows| - 1;
      var front := set j | 0 <= j < |rows[..n]| && ReviewOf(rows[..n][j], parent);
      ReviewsCounted(rows[..n], parent);
      assert all == front + if ReviewOf(rows[n], parent) then {n} else {};
    }
  }

  /** A fresh row of this kind, waiting for one other row. */
  predicate Fresh(r: Row, kind: StepType, content: StepContent, round: nat, title: string, who: string, dep: string) {
    && r.status == Pending && r.stepType == kind && r.parent == Some(content.stepId) && r.reviewRound == round
    && r.step.title == title && r.step.assignedTo == who && r.step.deps == [dep]
    && r.systemInserted && !r.needsReview && !r.hasOutcome && r.attempt.None? && r.pid.None? && r.approvalId.None? && r.cost.None?
  }

  /** One row with this id was added at the end, or, if the id was taken, an exception left everything as it was. */
  predicate Adds(st: TickState, o: Outcome, action: TickAction, id: string) {
    if HasRow(st.task.rows, id) then o == Outcome(Raised, st)
    else
      var n := |st.task.rows|;
      && o.action == action && |o.st.task.rows| == n + 1 && o.st.task.rows[..n] == st.task.rows
      && o.st.task.rows[n].step.stepId == id && o.st == st.(task := st.task.(rows := o.st.task.rows))
  }

  /** The tick comes to this row. */
  ghost predicate Reaches(env: Env, st: TickState, i: nat) {
    Sound(st.task) && Spent(st.task) <= env.cap && FirstCall(env, st.task.rows, i)
  }

  lemma ReachedActs(env: Env, st: TickState, i: nat)
    requires Reaches(env, st, i)
    ensures ReviewDue(env, st.task.rows, i) && Act(env, st) == ApplyReview(env, st, i)
  {
    FirstCallIs(env, st.task.rows, i);
    SoundHash(st.task);
  }

  lemma AddsRow(env: Env, st: TickState, i: nat, row: Row)
    requires i < |st.task.rows| && ReviewRule(env, st.task.rows, i) == Mint(row) && Minted(row) == row
    ensures Adds(st, ApplyReview(env, st, i), if st.task.rows[i].stepType == Review then ReworkInserted else ReviewInserted, row.step.stepId)
    ensures !HasRow(st.task.rows, row.step.stepId) ==> ApplyReview(env, st, i).st.task.rows[|st.task.rows|] == row
  {
  }

  /** A work step that asked for it gets its first review, by the colleague the registry names. */
  lemma FirstReviewAdded(env: Env, st: TickState, i: nat)
    requires Reaches(env, st, i) && Unreviewed(env, st.task.rows, i)
    ensures var c, o := st.task.rows[i].step, Act(env, st);
            var id := c.stepId + "-review-" + Text.Digits(0) + "-" + Text.Digits(0);
            && Adds(st, o, ReviewInserted, id)
            && (!HasRow(st.task.rows, id) ==>
                  Fresh(o.st.task.rows[|st.task.rows|], Review, c, 0, "Soát chéo: " + c.title, env.reviewer(c.assignedTo).value, c.stepId))
  {
    var rows, c := st.task.rows, st.task.rows[i].step;
    ReachedActs(env, st, i);
    NewestIs(rows, c.stepId, i);
    ReviewsCounted(rows, c.stepId);
    assert (set j | 0 <= j < |rows| && ReviewOf(rows[j], c.stepId)) == {};
    AddsRow(env, st, i, ReviewRow(rows, c, env.reviewer(c.assignedTo).value, 0, c.stepId));
  }

  /** A review that left no verdict is repeated in the same round by the same colleague. */
  lemma ReviewRepeated(env: Env, st: TickState, i: nat, k: nat)
    requires Reaches(env, st, i) && Unjudged(env, st.task.rows, i, k)
    ensures var r, c, o := st.task.rows[i], st.task.rows[k].step, Act(env, st);
            var id := c.stepId + "-review-" + Text.Digits(r.reviewRound) + "-" + Text.Digits(Reviews(st.task.rows, c.stepId));
            && Adds(st, o, ReworkInserted, id)
            && (!HasRow(st.task.rows, id) ==>
                  Fresh(o.st.task.rows[|st.task.rows|], Review, c, r.reviewRound, "Soát chéo: " + c.title, r.step.assignedTo, c.stepId))
  {
    var rows, c := st.task.rows, st.task.rows[k].step;
    ReachedActs(env, st, i);
    AboutIs(rows, i, k);
    NewestIs(rows, c.stepId, i);
    ReviewsCounted(rows, c.stepId);
    AddsRow(env, st, i, ReviewRow(rows, c, rows[i].step.assignedTo, rows[i].reviewRound, c.stepId));
  }

  /** A rejected step is reworked once in that round, by its author, after its newest review. */
  lemma ReworkAdded(env: Env, st: TickState, i: nat, k: nat, newest: nat)
    requires Reaches(env, st, i) && Rejected(env, st.task.rows, i, k)
    requires NewestReview(st.task.rows, st.task.rows[k].step.stepId, newest)
    ensures var r, c, o := st.task.rows[i], st.task.rows[k].step, Act(env, st);
            var id := c.stepId + "-rework-" + Text.Digits(r.reviewRound);
            && Adds(st, o, ReworkInserted, id)
            && (!HasRow(st.task.rows, id) ==>
                  Fresh(o.st.task.rows[|st.task.rows|], Rework, c, r.reviewRound, c.title, c.assignedTo, st.task.rows[newest].step.stepId))
  {
    var rows, c := st.task.rows, st.task.rows[k].step;
    ReachedActs(env, st, i);
    AboutIs(rows, i, k);
    NewestIs(rows, c.stepId, newest);
    AddsRow(env, st, i, ReworkRow(rows, c, rows[i].reviewRound));
  }

  /** A step rejected in the last round stalls the task. */
  lemma RejectionStalls(env: Env, st: TickState, i: nat, k: nat)
    requires Reaches(env, st, i) && RejectedForGood(env, st.task.rows, i, k)
    ensures Act(env, st) == Outcome(ReviewStall, st.(task := st.task.(status := Stalled)))
  {
    ReachedActs(env, st, i);
    AboutIs(st.task.rows, i, k);
  }

  /** A finished rework is reviewed in the next round. */
  lemma NextReviewAdded(env: Env, st: TickState, i: nat, k: nat)
    requires Reaches(env, st, i) && Unrechecked(env, st.task.rows, i, k)
    ensures var r, c, o := st.task.rows[i], st.task.rows[k].step, Act(env, st);
            var id := c.stepId + "-review-" + Text.Digits(r.reviewRound + 1) + "-" + Text.Digits(Reviews(st.task.rows, c.stepId));
            && Adds(st, o, ReviewInserted, id)
            && (!HasRow(st.task.rows, id) ==>
                  Fresh(o.st.task.rows[|st.task.rows|], Review, c, r.reviewRound + 1, "Soát chéo: " + c.title,
                        env.reviewer(c.assignedTo).value, r.step.stepId))
  {
    var rows, c := st.task.rows, st.task.rows[k].step;
    ReachedActs(env, st, i);
    AboutIs(rows, i, k);
    var n := NewestChild(rows, c.stepId, Review);
    NewestIs(rows, c.stepId, n);
    ReviewsCounted(rows, c.stepId);
    AddsRow(env, st, i, ReviewRow(rows, c, env.reviewer(c.assignedTo).value, rows[i].reviewRound + 1, rows[i].step.stepId));
  }

  /** Where no row calls, the tick adds no row, stalls nothing for a review and raises nothing. */
  lemma NoCallNoReview(env: Env, st: TickState)
    requires Sound(st.task) && forall i: nat :: !Calls(env, st.task.rows, i)
    ensures var o := Act(env, st);
            && |o.st.task.rows| == |st.task.rows|
            && o.action != Raised && o.action != ReviewStall && o.action != ReviewInserted && o.action != ReworkInserted
  {
    FirstCallIs(env, st.task.rows, FirstReview(env, st.task.rows));
  }
}
