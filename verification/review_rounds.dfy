/**
 Peer review along whole runs: how often a step is reworked, when a round is reviewed again, and
 that nothing bounds how often (src/agent/coordinator_nodes/review_insert.py).
 */
module ReviewRounds {
  import opened Common
  import opened Planning
  import opened TaskRows
  import opened PlanRuns
  import opened TeamTaskStore
  import opened Ticker
  import opened Progress
  import opened LiveTasks
  import opened WorkedPlans
  import Text

  // ---------------------------------------------------------------------------------------
  // Rounds
  // ---------------------------------------------------------------------------------------

  predicate SameRework(a: Row, b: Row) {
    a.stepType == Rework && b.stepType == Rework && a.parent == b.parent
  }

  /** Review rounds stay within bounds, and a content step is reworked at most once per round. */
  predicate ReviewsBounded(rows: seq<Row>) {
    && (forall i :: 0 <= i < |rows| ==> rows[i].reviewRound <= RoundLimit(rows[i].stepType))
    && forall i, j :: 0 <= i < j < |rows| && SameRework(rows[i], rows[j]) ==> rows[i].reviewRound != rows[j].reviewRound
  }

  lemma SoundBounds(t: TeamTask)
    requires Sound(t)
    ensures ReviewsBounded(t.rows)
  {
    var rows := t.rows;
    forall i, j | 0 <= i < j < |rows| && SameRework(rows[i], rows[j])
      ensures rows[i].reviewRound != rows[j].reviewRound
    {
      assert MintedShape(rows[i]) && MintedShape(rows[j]);
      assert rows[i].step.stepId != rows[j].step.stepId;
    }
  }

  /** At every point of every run of store operations and ticks. */
  lemma EveryRunBoundsReviews(ws: seq<World>, ms: seq<Move>, n: nat)
    requires IsLiveRun(ws, ms) && n < |ws|
    ensures ReviewsBounded(ws[n].task.rows)
  {
    EveryLiveRunSound(ws, ms, n);
    SoundBounds(ws[n].task);
  }

  /** Hence no content step ever has three rework rows. */
  lemma ReworkedAtMostTwice(ws: seq<World>, ms: seq<Move>, n: nat, i: nat, j: nat, k: nat)
    requires IsLiveRun(ws, ms) && n < |ws| && i < j < k < |ws[n].task.rows|
    ensures var rows := ws[n].task.rows; SameRework(rows[i], rows[j]) ==> !SameRework(rows[j], rows[k])
  {
    EveryRunBoundsReviews(ws, ms, n);
    var rows := ws[n].task.rows;
    assert SameRework(rows[i], rows[j]) && SameRework(rows[j], rows[k]) ==> SameRework(rows[i], rows[k]);
  }

  // ---------------------------------------------------------------------------------------
  // Another review of the same round
  // ---------------------------------------------------------------------------------------

  /** A review of this parent and round is already there. */
  predicate Repeats(rows: seq<Row>, r: Row) {
    exists j :: 0 <= j < |rows| && rows[j].stepType == Review && rows[j].parent == r.parent && rows[j].reviewRound == r.reviewRound
  }

  /** The tick mints this review row. */
  predicate MintsReview(env: Env, st: TickState, row: Row) {
    var i := FirstReview(env, st.task.rows);
    && Spent(st.task) <= env.cap && i < |st.task.rows|
    && ReviewRule(env, st.task.rows, i) == Mint(row) && row.stepType == Review
    && !HasRow(st.task.rows, row.step.stepId)
  }

  /**
   A tick mints another review of a round exactly when what it acts on is that round's newest
   review, finished without a verdict; work and reworks only ever start a round.
   */
  lemma ReviewRepeatsIff(env: Env, st: TickState, row: Row)
    requires Sound(st.task) && MintsReview(env, st, row)
    ensures Act(env, st).st.task == st.task.(rows := st.task.rows + [row])
    ensures var r := st.task.rows[FirstReview(env, st.task.rows)];
            Repeats(st.task.rows, row) <==> r.stepType == Review && env.verdict(row.parent.value, row.reviewRound) == None
  {
    var rows := st.task.rows;
    var i := FirstReview(env, rows);
    SoundHash(st.task);
    MintWaitsForRows(env, rows, i);
    if j: nat :| j < |rows| && rows[j].stepType == Review && rows[j].parent == row.parent && rows[j].reviewRound == row.reviewRound {
      NewestFurthest(rows, row.parent.value, j);
    }
    assert rows[i].stepType == Review ==> rows[i].parent == row.parent && rows[i].reviewRound == row.reviewRound;
  }

  // ---------------------------------------------------------------------------------------
  // A review without end
  // ---------------------------------------------------------------------------------------

  /** The step in question. */
  const CONTENT := StepContent("a", "x", "c", [])

  function ReviewId(k: nat): string {
    "a-review-0-" + Text.Digits(k)
  }

  lemma ReviewIdsDiffer(j: nat, k: nat)
    requires j != k
    ensures ReviewId(j) != ReviewId(k) && ReviewId(k) != "a"
  {
    var front := "a-review-0-";
    if ReviewId(j) == ReviewId(k) {
      assert Text.Digits(j) == (front + Text.Digits(j))[|front|..];
      assert Text.Digits(k) == (front + Text.Digits(k))[|front|..];
      Text.DigitsInjective(j, k);
    }
  }

  /** The content step is done and wants a review. */
  function ContentRow(): Row {
    PlannedRow(StepPlan(CONTENT, Work, true)).(status := Done)
  }

  /** The k-th review of round 0, finished. */
  function ReviewNo(k: nat, who: string): Row {
    NewRow(StepContent(ReviewId(k), "Soát chéo: x", who, ["a"]), Review, "a", 0).(status := Done)
  }

  /** The content step and `n` finished reviews of it, none of which left a verdict. */
  function Unjudged(n: nat, who: string): (t: TeamTask)
    ensures |t.rows| == n + 1
  {
    if n == 0 then TeamTask(Open, Some([CONTENT]), "c", 0.0, 0.0, [ContentRow()])
    else Unjudged(n - 1, who).(rows := Unjudged(n - 1, who).rows + [ReviewNo(n - 1, who)])
  }

  /** What those tasks have in common. */
  predicate Series(rows: seq<Row>, n: nat, who: string) {
    && |rows| == n + 1 && rows[0] == ContentRow()
    && forall i :: 1 <= i <= n ==> rows[i] == ReviewNo(i - 1, who)
  }

  lemma {:induction false} UnjudgedSeries(n: nat, who: string)
    ensures Series(Unjudged(n, who).rows, n, who)
    ensures Unjudged(n, who) == TeamTask(Open, Some([CONTENT]), "c", 0.0, 0.0, Unjudged(n, who).rows)
  {
    if n > 0 {
      UnjudgedSeries(n - 1, who);
    }
  }

  lemma {:induction false} SeriesCounts(rows: seq<Row>, n: nat, who: string)
    requires Series(rows, n, who)
    ensures ChildCount(rows, "a", Review) == n && CostSum(rows) == 0.0
    ensures NewestChild(rows, "a", Review) == if n == 0 then 1 else n
  {
    if n == 0 {
      assert rows[..0] == [];
    } else {
      SeriesCounts(rows[..n], n - 1, who);
    }
  }

  lemma FreshReviewId(rows: seq<Row>, n: nat, who: string)
    requires Series(rows, n, who)
    ensures !HasRow(rows, ReviewId(n))
  {
    forall i | 0 <= i < |rows|
      ensures rows[i].step.stepId != ReviewId(n)
    {
      if i == 0 { ReviewIdsDiffer(n + 1, n); } else { ReviewIdsDiffer(i - 1, n); }
    }
  }

  lemma NextReviewRow(rows: seq<Row>, n: nat, who: string)
    requires Series(rows, n, who)
    ensures ReviewRow(rows, CONTENT, who, 0, "a") == ReviewNo(n, who).(status := Pending)
  {
    SeriesCounts(rows, n, who);
    assert Text.Digits(0) == "0";
    assert "a" + "-review-" + "0" + "-" + Text.Digits(n) == ReviewId(n);
    assert "Soát chéo: " + "x" == "Soát chéo: x";
  }

  lemma SeriesRule(env: Env, rows: seq<Row>, n: nat, who: string, j: nat)
    requires Series(rows, n, who) && j <= n
    requires env.verdict("a", 0) == None && env.reviewer("c") == Some(who)
    ensures ReviewRule(env, rows, j) == if j < n then Nothing else Mint(ReviewRow(rows, CONTENT, who, 0, "a"))
  {
    SeriesCounts(rows, n, who);
    assert FindRow(rows, "a") == 0 by { FindFirst(rows); }
  }

  lemma {:induction false} FindFirst(rows: seq<Row>)
    requires rows != []
    ensures FindRow(rows, rows[0].step.stepId) == 0
  {
  }

  /** The next tick mints the next review, of the same round, for as long as no verdict appears. */
  lemma UnjudgedMints(env: Env, t: TeamTask, n: nat, who: string)
    requires env.cap >= 0.0 && env.verdict("a", 0) == None && env.reviewer("c") == Some(who)
    requires Series(t.rows, n, who) && t.decomposeCost == 0.0 && t.aggregateCost == 0.0
    ensures MintsReview(env, TickState(t, map[], 0), ReviewNo(n, who).(status := Pending))
  {
    SeriesCounts(t.rows, n, who);
    FreshReviewId(t.rows, n, who);
    NextReviewRow(t.rows, n, who);
    forall j: nat | j <= n
      ensures ReviewDue(env, t.rows, j) <==> j == n
    {
      SeriesRule(env, t.rows, n, who, j);
    }
    SeriesRule(env, t.rows, n, who, n);
    assert FirstReview(env, t.rows) == n;
  }

  /**
   Nothing bounds the reviews of one round: while no verdict is ever written, tick after tick mints
   one more. Every task of the series can come about: it is the one before after a tick and the end
   of the review it minted.
   */
  lemma {:induction false} ReviewsWithoutEnd(env: Env, n: nat, who: string)
    requires env.cap >= 0.0 && env.verdict("a", 0) == None && env.reviewer("c") == Some(who)
    ensures LiveTask(Unjudged(n, who))
    ensures Act(env, TickState(Unjudged(n, who), map[], 0)).st.task.rows ==
              Unjudged(n, who).rows + [ReviewNo(n, who).(status := Pending)]
  {
    if n == 0 {
      UnjudgedStarts(who);
    } else {
      ReviewsWithoutEnd(env, n - 1, who);
      UnjudgedAdvances(env, n - 1, who);
    }
    LiveTaskSound(Unjudged(n, who));
    UnjudgedSeries(n, who);
    UnjudgedMints(env, Unjudged(n, who), n, who);
    ReviewRepeatsIff(env, TickState(Unjudged(n, who), map[], 0), ReviewNo(n, who).(status := Pending));
  }

  lemma MintedIsLive(env: Env, t: TeamTask, row: Row)
    requires LiveTask(t) && MintsReview(env, TickState(t, map[], 0), row)
    ensures LiveTask(t.(rows := t.rows + [row]))
  {
    LiveTaskSound(t);
    ReviewRepeatsIff(env, TickState(t, map[], 0), row);
    TickLive(env, TickState(t, map[], 0));
  }

  lemma UnjudgedAdvances(env: Env, n: nat, who: string)
    requires env.cap >= 0.0 && env.verdict("a", 0) == None && env.reviewer("c") == Some(who)
    requires LiveTask(Unjudged(n, who))
    ensures LiveTask(Unjudged(n + 1, who))
  {
    var t, row := Unjudged(n, who), ReviewNo(n, who).(status := Pending);
    UnjudgedSeries(n, who);
    UnjudgedMints(env, t, n, who);
    MintedIsLive(env, t, row);
    ReviewEnds(t.(rows := t.rows + [row]), n, who);
    assert (t.rows + [row])[n + 1 := ReviewNo(n, who)] == Unjudged(n + 1, who).rows;
  }

  lemma ReviewEnds(t: TeamTask, n: nat, who: string)
    requires LiveTask(t) && |t.rows| == n + 2 && t.rows[0] == ContentRow() && t.rows[n + 1] == ReviewNo(n, who).(status := Pending)
    ensures LiveTask(t.(rows := t.rows[n + 1 := ReviewNo(n, who)]))
  {
    assert t.rows[..n + 1][0] == ContentRow();
    assert StartedRow(t.rows[..n + 1], "a");
    AdvanceLive(t, n + 1, ReviewNo(n, who));
  }

  lemma UnjudgedStarts(who: string)
    ensures LiveTask(Unjudged(0, who))
  {
    var p := StepPlan(CONTENT, Work, true);
    StepMade("a", [], true);
    MadeOfItself([p]);
    OneStepAssigned([p], p);
    TaskLive([p], "c", 0.0, [ContentRow()]);
    assert Contents([p]) == [CONTENT];
  }
}
