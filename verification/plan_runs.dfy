/**
 The life of one task's plan: amendment drafts, the confirm-time swap and every interleaving of
 the operations that touch the task's rows (src/runtime/team_task_amend.py, team_task_store.py,
 team_task_steps.py; src/agent/ops_adjust_team_task.py).
 */
module PlanRuns {
  import opened Common
  import opened Planning
  import opened TaskRows
  import opened Amendment

  datatype DraftStatus = Live | Used | Withdrawn | Expired | Superseded

  /** `AmendmentDraft`: the DAG it was drawn against, the plan it installs, the rows it replaces. */
  datatype Draft = Draft(baseHash: PlanHash, newHash: PlanHash, newPending: seq<StepPlan>,
                         oldPendingIds: set<string>, status: DraftStatus)

  datatype ConfirmOutcome =
    | Applied(task: TeamTask)
    | NotFound
    | NotLive
    | PlanChanged
    | JustReserved(ids: set<string>)
    | DuplicateStep

  /** `preview_adjust_team_task` binds a draft to the rows it read and the amendment it got. */
  function DraftFrom(snapshot: seq<Row>, slice: seq<StepPlan>, combined: seq<StepPlan>): Draft {
    Draft(Steps(snapshot), Contents(combined), slice, PendingIds(snapshot), Live)
  }

  function Without(rows: seq<Row>, ids: set<string>): seq<Row> {
    if rows == [] then []
    else Without(rows[..|rows| - 1], ids) +
         if rows[|rows| - 1].step.stepId in ids then [] else [rows[|rows| - 1]]
  }

  predicate PendingRow(rows: seq<Row>, id: string) {
    exists i :: 0 <= i < |rows| && rows[i].step.stepId == id && rows[i].status == Pending
  }

  /** The ids a draft meant to replace that are no longer pending rows. */
  function Raced(rows: seq<Row>, ids: set<string>): set<string> {
    set id | id in ids && !PendingRow(rows, id)
  }

  /** `confirm_amendment`: re-validate, swap the pending tail, bind the new hash. */
  function ConfirmAmendment(t: TeamTask, d: Draft): ConfirmOutcome {
    if d.status != Live then NotLive
    else if Steps(t.rows) != d.baseHash then PlanChanged
    else if Raced(t.rows, d.oldPendingIds) != {} then JustReserved(Raced(t.rows, d.oldPendingIds))
    else
      var rows := Without(t.rows, d.oldPendingIds) + PlannedRows(d.newPending);
      if !UniqueRows(rows) then DuplicateStep
      else Applied(t.(rows := rows, planHash := Some(d.newHash)))
  }

  // ---------------------------------------------------------------------------------------
  // A draft stays bound to the rows it was read from
  // ---------------------------------------------------------------------------------------

  predicate SurvivesIn(r: Row, rows: seq<Row>) {
    exists j :: 0 <= j < |rows| && rows[j].step == r.step && rows[j].systemInserted == r.systemInserted &&
                rows[j].status != Pending
  }

  /** Rows that had left `pending` when `snapshot` was read are still there, and still not pending. */
  predicate Persists(snapshot: seq<Row>, rows: seq<Row>) {
    forall i :: 0 <= i < |snapshot| && snapshot[i].status != Pending ==> SurvivesIn(snapshot[i], rows)
  }

  /** A snapshot some preview may still be working from. */
  ghost predicate GoodSnapshot(snapshot: seq<Row>, rows: seq<Row>) {
    && UniqueRows(snapshot)
    && SoundPlan(Confirmed(snapshot))
    && Persists(snapshot, rows)
  }

  /** The draft was drawn from `snapshot` with a valid amendment. */
  ghost predicate DrawnFrom(d: Draft, snapshot: seq<Row>, picId: string) {
    && d.baseHash == Steps(snapshot)
    && d.oldPendingIds == PendingIds(snapshot)
    && d.newHash == Frozen(snapshot) + Contents(d.newPending)
    && ValidAmendment(snapshot, picId, d.newPending)
  }

  ghost predicate GoodDraft(d: Draft, rows: seq<Row>, picId: string) {
    exists snapshot :: GoodSnapshot(snapshot, rows) && DrawnFrom(d, snapshot, picId)
  }

  lemma SameSlot(rows: seq<Row>, i: nat, j: nat)
    requires UniqueRows(rows) && i < |rows| && j < |rows| && rows[i].step.stepId == rows[j].step.stepId
    ensures i == j
  {
  }

  lemma StepsMatch(rows: seq<Row>, snapshot: seq<Row>)
    requires Steps(rows) == Steps(snapshot)
    ensures |rows| == |snapshot|
    ensures forall i :: 0 <= i < |rows| ==> rows[i].step == snapshot[i].step
  {
    assert |Steps(rows)| == |rows| && |Steps(snapshot)| == |snapshot|;
    forall i | 0 <= i < |rows|
      ensures rows[i].step == snapshot[i].step
    {
      assert Steps(rows)[i] == Steps(snapshot)[i];
    }
  }

  /** If the hash and the pending ids still match, each row has the standing it had in the snapshot. */
  lemma SlotUnchanged(rows: seq<Row>, snapshot: seq<Row>, i: nat)
    requires UniqueRows(rows) && Steps(rows) == Steps(snapshot) && Persists(snapshot, rows)
    requires Raced(rows, PendingIds(snapshot)) == {}
    requires i < |rows|
    ensures |rows| == |snapshot|
    ensures rows[i].status == Pending <==> snapshot[i].status == Pending
    ensures rows[i].status != Pending ==> rows[i].systemInserted == snapshot[i].systemInserted
  {
    StepsMatch(rows, snapshot);
    var id := rows[i].step.stepId;
    if snapshot[i].status == Pending {
      assert id in PendingIds(snapshot);
      assert id !in Raced(rows, PendingIds(snapshot));
      var j: nat :| j < |rows| && rows[j].step.stepId == id && rows[j].status == Pending;
      SameSlot(rows, i, j);
    } else {
      assert SurvivesIn(snapshot[i], rows);
      var j: nat :| j < |rows| && rows[j].step == snapshot[i].step
                    && rows[j].systemInserted == snapshot[i].systemInserted && rows[j].status != Pending;
      SameSlot(rows, i, j);
    }
  }

  /** Two row sequences that agree on steps, pendingness and (for started rows) origin. */
  predicate SameStanding(a: seq<Row>, b: seq<Row>) {
    && |a| == |b|
    && forall i :: 0 <= i < |a| ==>
         && a[i].step == b[i].step
         && (a[i].status == Pending <==> b[i].status == Pending)
         && (a[i].status != Pending ==> a[i].systemInserted == b[i].systemInserted)
  }

  lemma {:induction false} FrozenAgrees(a: seq<Row>, b: seq<Row>)
    requires SameStanding(a, b)
    ensures Frozen(a) == Frozen(b)
  {
    if a != [] {
      var n := |a| - 1;
      FrozenAgrees(a[..n], b[..n]);
      ConfirmedAppend(Started(a[..n]), if a[n].status == Pending then [] else [a[n]]);
      ConfirmedAppend(Started(b[..n]), if b[n].status == Pending then [] else [b[n]]);
    }
  }

  lemma {:induction false} WithoutPending(rows: seq<Row>, ids: set<string>)
    requires forall i :: 0 <= i < |rows| ==> (rows[i].status == Pending <==> rows[i].step.stepId in ids)
    ensures Without(rows, ids) == Started(rows)
  {
    if rows != [] {
      WithoutPending(rows[..|rows| - 1], ids);
    }
  }

  lemma PendingSlots(rows: seq<Row>, snapshot: seq<Row>)
    requires UniqueRows(rows) && UniqueRows(snapshot) && Steps(rows) == Steps(snapshot) && Persists(snapshot, rows)
    requires Raced(rows, PendingIds(snapshot)) == {}
    ensures SameStanding(rows, snapshot)
    ensures Without(rows, PendingIds(snapshot)) == Started(rows)
  {
    StepsMatch(rows, snapshot);
    forall i | 0 <= i < |rows|
      ensures rows[i].status == Pending <==> snapshot[i].status == Pending
      ensures rows[i].status != Pending ==> rows[i].systemInserted == snapshot[i].systemInserted
      ensures rows[i].status == Pending <==> rows[i].step.stepId in PendingIds(snapshot)
    {
      SlotUnchanged(rows, snapshot, i);
      if rows[i].step.stepId in PendingIds(snapshot) {
        var j: nat :| j < |snapshot| && snapshot[j].status == Pending && snapshot[j].step.stepId == rows[i].step.stepId;
        SameSlot(snapshot, i, j);
      }
    }
    WithoutPending(rows, PendingIds(snapshot));
  }

  /**
   An accepted amend: however stale the preview that drew the draft, what the swap leaves is a
   sound task whose stored hash is the hash of its confirmed rows.
   */
  lemma ConfirmSound(t: TeamTask, d: Draft)
    requires Sound(t) && GoodDraft(d, t.rows, t.picId) && ConfirmAmendment(t, d).Applied?
    ensures Sound(ConfirmAmendment(t, d).task)
    ensures ConfirmAmendment(t, d).task.rows == Started(t.rows) + PlannedRows(d.newPending)
  {
    DraftFits(t, d);
    var kept, added := Started(t.rows), PlannedRows(d.newPending);
    StartedGrounded(t.rows);
    GroundedAppendConfirmed(kept, added);
    ShapedStarted(t.rows);
    ShapedPlanned(kept, d.newPending);
    assert |added| == |d.newPending| > 0;
  }

  /** The rows left by the swap are the started ones and the new slice, and the new hash is theirs. */
  lemma DraftFits(t: TeamTask, d: Draft)
    requires Sound(t) && GoodDraft(d, t.rows, t.picId) && ConfirmAmendment(t, d).Applied?
    ensures Without(t.rows, d.oldPendingIds) == Started(t.rows)
    ensures d.newPending != [] && AllWork(d.newPending) && SoundPlan(d.newHash)
    ensures Confirmed(Started(t.rows) + PlannedRows(d.newPending)) == d.newHash
  {
    var snapshot :| GoodSnapshot(snapshot, t.rows) && DrawnFrom(d, snapshot, t.picId);
    PendingSlots(t.rows, snapshot);
    FrozenAgrees(t.rows, snapshot);
    ConfirmedAppend(Started(t.rows), PlannedRows(d.newPending));
    ConfirmedPlanned(d.newPending);
  }

  /** The task still has the very steps that were read for the draft. */
  predicate SameSteps(rows: seq<Row>, snapshot: seq<Row>) {
    |rows| == |snapshot| && forall i :: 0 <= i < |rows| ==> rows[i].step == snapshot[i].step
  }

  /** A row that was pending when the draft was drawn has been started since. */
  predicate StartedSince(rows: seq<Row>, snapshot: seq<Row>) {
    exists i :: 0 <= i < |rows| && i < |snapshot| && snapshot[i].status == Pending && rows[i].status != Pending
  }

  /** A started review or rework row has the id of a step of the new slice. */
  predicate MintedClash(rows: seq<Row>, slice: seq<StepPlan>) {
    exists i, k :: 0 <= i < |rows| && 0 <= k < |slice| && rows[i].status != Pending && rows[i].systemInserted
                   && rows[i].step.stepId == slice[k].step.stepId
  }

  lemma SameStepsIff(rows: seq<Row>, snapshot: seq<Row>)
    ensures Steps(rows) == Steps(snapshot) <==> SameSteps(rows, snapshot)
  {
    if Steps(rows) == Steps(snapshot) { StepsMatch(rows, snapshot); }
  }

  lemma RacedIff(rows: seq<Row>, snapshot: seq<Row>)
    requires UniqueRows(rows) && UniqueRows(snapshot) && SameSteps(rows, snapshot)
    ensures Raced(rows, PendingIds(snapshot)) != {} <==> StartedSince(rows, snapshot)
  {
    if StartedSince(rows, snapshot) {
      var i :| 0 <= i < |rows| && snapshot[i].status == Pending && rows[i].status != Pending;
      var id := rows[i].step.stepId;
      forall j: nat | j < |rows| && rows[j].step.stepId == id
        ensures rows[j].status != Pending
      {
        SameSlot(rows, i, j);
      }
      assert id in Raced(rows, PendingIds(snapshot));
    } else {
      forall id | id in PendingIds(snapshot)
        ensures PendingRow(rows, id)
      {
        var i :| 0 <= i < |snapshot| && snapshot[i].status == Pending && snapshot[i].step.stepId == id;
        assert rows[i].status == Pending && rows[i].step.stepId == id;
      }
    }
  }

  lemma ClashShows(rows: seq<Row>, slice: seq<StepPlan>)
    requires MintedClash(rows, slice)
    ensures !UniqueRows(Started(rows) + PlannedRows(slice))
  {
    var kept := Started(rows);
    var i, k :| 0 <= i < |rows| && 0 <= k < |slice| && rows[i].status != Pending && rows[i].systemInserted
                && rows[i].step.stepId == slice[k].step.stepId;
    StartedMember(rows, rows[i]);
    var j: nat :| j < |kept| && kept[j] == rows[i];
    assert (kept + PlannedRows(slice))[j] == rows[i] && (kept + PlannedRows(slice))[|kept| + k] == PlannedRow(slice[k]);
  }

  /** A started row that was confirmed cannot clash with the slice; one the ticker minted can. */
  lemma ClashIff(rows: seq<Row>, snapshot: seq<Row>, slice: seq<StepPlan>, picId: string)
    requires UniqueRows(rows) && SameStanding(rows, snapshot) && ValidAmendment(snapshot, picId, slice)
    ensures UniqueRows(Started(rows) + PlannedRows(slice)) <==> !MintedClash(rows, slice)
  {
    if MintedClash(rows, slice) {
      ClashShows(rows, slice);
    } else {
      FrozenAgrees(rows, snapshot);
      NoClash(rows, slice);
    }
  }

  lemma NoClash(rows: seq<Row>, slice: seq<StepPlan>)
    requires UniqueRows(rows) && !MintedClash(rows, slice)
    requires UniqueIds(Frozen(rows) + Contents(slice)) && UniqueIds(Contents(slice))
    ensures UniqueRows(Started(rows) + PlannedRows(slice))
  {
    var kept, added := Started(rows), PlannedRows(slice);
    StartedUnique(rows);
    SliceApart(slice);
    forall j: nat, k: nat | j < |kept| && k < |slice|
      ensures kept[j].step.stepId != added[k].step.stepId
    {
      KeptApart(rows, slice, j, k);
    }
    UniqueTogether(kept, added);
  }

  lemma UniqueTogether(a: seq<Row>, b: seq<Row>)
    requires UniqueRows(a) && UniqueRows(b)
    requires forall j: nat, k: nat :: j < |a| && k < |b| ==> a[j].step.stepId != b[k].step.stepId
    ensures UniqueRows(a + b)
  {
  }

  lemma SliceApart(slice: seq<StepPlan>)
    requires UniqueIds(Contents(slice))
    ensures UniqueRows(PlannedRows(slice))
  {
    assert forall k :: 0 <= k < |slice| ==> Contents(slice)[k] == slice[k].step;
  }

  lemma KeptApart(rows: seq<Row>, slice: seq<StepPlan>, j: nat, k: nat)
    requires UniqueIds(Frozen(rows) + Contents(slice)) && !MintedClash(rows, slice)
    requires j < |Started(rows)| && k < |slice|
    ensures Started(rows)[j].step.stepId != slice[k].step.stepId
  {
    var r := Started(rows)[j];
    StartedMember(rows, r);
    var i: nat :| i < |rows| && rows[i] == r;
    if !r.systemInserted {
      ConfirmedMember(Started(rows), r.step);
      JoinedApart(Frozen(rows), Contents(slice), r.step, k);
    }
  }

  lemma JoinedApart(front: seq<StepContent>, back: seq<StepContent>, c: StepContent, k: nat)
    requires UniqueIds(front + back) && c in front && k < |back|
    ensures c.stepId != back[k].stepId
  {
    var m :| 0 <= m < |front| && front[m] == c;
    assert (front + back)[m] == c && (front + back)[|front| + k] == back[k];
  }

  /**
   What confirming a draft comes to, said of the rows it was drawn from and the rows there are now:
   it is applied exactly if it is live, the steps are the same, none of the rows to be replaced has
   started since, and no id of the new slice has been taken by a review or rework row that stays.
   */
  lemma ConfirmOutcomeIs(t: TeamTask, d: Draft, snapshot: seq<Row>)
    requires Sound(t) && GoodSnapshot(snapshot, t.rows) && DrawnFrom(d, snapshot, t.picId)
    ensures var o := ConfirmAmendment(t, d);
            && (o == NotLive <==> d.status != Live)
            && (o == PlanChanged <==> d.status == Live && !SameSteps(t.rows, snapshot))
            && (o.JustReserved? <==> d.status == Live && SameSteps(t.rows, snapshot) && StartedSince(t.rows, snapshot))
            && (o == DuplicateStep <==> d.status == Live && SameSteps(t.rows, snapshot) && !StartedSince(t.rows, snapshot)
                                        && MintedClash(t.rows, d.newPending))
            && (o.Applied? <==> d.status == Live && SameSteps(t.rows, snapshot) && !StartedSince(t.rows, snapshot)
                                && !MintedClash(t.rows, d.newPending))
  {
    SameStepsIff(t.rows, snapshot);
    if SameSteps(t.rows, snapshot) {
      RacedIff(t.rows, snapshot);
      if !StartedSince(t.rows, snapshot) {
        PendingSlots(t.rows, snapshot);
        ClashIff(t.rows, snapshot, d.newPending, t.picId);
      }
    }
  }

  // ---------------------------------------------------------------------------------------
  // Runs
  // ---------------------------------------------------------------------------------------

  /**
   One task together with the previews that have read its rows but not yet written a draft, and
   the drafts written so far.
   */
  datatype World = World(task: TeamTask, previews: seq<seq<Row>>, drafts: seq<Draft>)

  datatype Event =
    | ConfirmPlan(expected: PlanHash)          // the CEO accepts the previewed plan
    | SetTaskStatus(status: TaskStatus)        // stalled, completed, ...
    | RecordCost(decompose: real, aggregate: real)
    | Advance(i: nat, row: Row)                // reserve, done, failed, timeout, awaiting approval
    | InsertSystem(row: Row)                   // a review or rework row
    | ReadForAmend                             // a preview reads the rows, then waits for the model
    | WriteDraft(p: nat, slice: seq<StepPlan>, combined: seq<StepPlan>)
    | EndDraft(k: nat, ending: DraftStatus)    // withdrawn or expired
    | ConfirmDraft(k: nat)

  /** `confirm_plan` flips a planned task to open if the presented hash is the stored one. */
  function ConfirmPlanned(t: TeamTask, expected: PlanHash): TeamTask {
    if t.status == Planned && t.planHash == Some(expected) then t.(status := Open) else t
  }

  /** `set_amendment_draft` supersedes the live drafts before it adds the new one. */
  function AddDraft(drafts: seq<Draft>, d: Draft): seq<Draft> {
    seq(|drafts|, i requires 0 <= i < |drafts| =>
      if drafts[i].status == Live then drafts[i].(status := Superseded) else drafts[i]) + [d]
  }

  ghost predicate Next(w: World, e: Event, w': World) {
    match e
    case ConfirmPlan(h) => w' == w.(task := ConfirmPlanned(w.task, h))
    case SetTaskStatus(s) => w' == w.(task := w.task.(status := s))
    case RecordCost(d, a) => w' == w.(task := w.task.(decomposeCost := w.task.decomposeCost + d,
                                                       aggregateCost := w.task.aggregateCost + a))
    case Advance(i, r) =>
      && i < |w.task.rows| && Advances(w.task.rows[i], r) && MayAdvance(w.task.rows, i)
      && w' == w.(task := w.task.(rows := w.task.rows[i := r]))
    case InsertSystem(r) =>
      && MintedShape(r) && FitsRound(w.task.rows, r) && r.status == Pending
      && !HasRow(w.task.rows, r.step.stepId) && (forall d :: d in r.step.deps ==> HasRow(w.task.rows, d))
      && w' == w.(task := w.task.(rows := w.task.rows + [r]))
    case ReadForAmend => w' == w.(previews := w.previews + [w.task.rows])
    case WriteDraft(p, slice, combined) =>
      && p < |w.previews|
      && ValidAmendment(w.previews[p], w.task.picId, slice)
      && Contents(combined) == Frozen(w.previews[p]) + Contents(slice)
      && w' == w.(drafts := AddDraft(w.drafts, DraftFrom(w.previews[p], slice, combined)))
    case EndDraft(k, s) =>
      && k < |w.drafts| && s != Live
      && w' == w.(drafts := w.drafts[k := w.drafts[k].(status := s)])
    case ConfirmDraft(k) =>
      && k < |w.drafts|
      && var outcome := ConfirmAmendment(w.task, w.drafts[k]);
         w' == if outcome.Applied?
               then w.(task := outcome.task, drafts := w.drafts[k := w.drafts[k].(status := Used)])
               else w
  }

  ghost predicate WorldInv(w: World) {
    && Sound(w.task)
    && (forall p :: 0 <= p < |w.previews| ==> GoodSnapshot(w.previews[p], w.task.rows))
    && (forall k :: 0 <= k < |w.drafts| && w.drafts[k].status == Live ==>
          GoodDraft(w.drafts[k], w.task.rows, w.task.picId))
  }

  lemma PersistsSelf(rows: seq<Row>)
    ensures Persists(rows, rows)
  {
    forall i | 0 <= i < |rows| && rows[i].status != Pending
      ensures SurvivesIn(rows[i], rows)
    {
    }
  }

  lemma PersistsThrough(a: seq<Row>, b: seq<Row>, c: seq<Row>)
    requires Persists(a, b) && Persists(b, c)
    ensures Persists(a, c)
  {
    forall i | 0 <= i < |a| && a[i].status != Pending
      ensures SurvivesIn(a[i], c)
    {
      assert SurvivesIn(a[i], b);
      var j :| 0 <= j < |b| && b[j].step == a[i].step && b[j].systemInserted == a[i].systemInserted && b[j].status != Pending;
      assert SurvivesIn(b[j], c);
    }
  }

  lemma PersistsAdvance(rows: seq<Row>, i: nat, r: Row)
    requires i < |rows| && Advances(rows[i], r)
    ensures Persists(rows, rows[i := r])
  {
    forall k | 0 <= k < |rows| && rows[k].status != Pending
      ensures SurvivesIn(rows[k], rows[i := r])
    {
      assert rows[i := r][k].step == rows[k].step;
    }
  }

  lemma PersistsAppend(rows: seq<Row>, more: seq<Row>)
    ensures Persists(rows, rows + more)
  {
    forall k | 0 <= k < |rows| && rows[k].status != Pending
      ensures SurvivesIn(rows[k], rows + more)
    {
      assert (rows + more)[k] == rows[k];
    }
  }

  lemma PersistsStarted(rows: seq<Row>)
    ensures Persists(rows, Started(rows))
  {
    forall k | 0 <= k < |rows| && rows[k].status != Pending
      ensures SurvivesIn(rows[k], Started(rows))
    {
      StartedMember(rows, rows[k]);
      var j :| 0 <= j < |Started(rows)| && Started(rows)[j] == rows[k];
    }
  }

  lemma SnapshotThrough(snapshot: seq<Row>, rows: seq<Row>, rows': seq<Row>)
    requires GoodSnapshot(snapshot, rows) && Persists(rows, rows')
    ensures GoodSnapshot(snapshot, rows')
  {
    PersistsThrough(snapshot, rows, rows');
  }

  lemma DraftThrough(d: Draft, rows: seq<Row>, rows': seq<Row>, picId: string)
    requires GoodDraft(d, rows, picId) && Persists(rows, rows')
    ensures GoodDraft(d, rows', picId)
  {
    var snapshot :| GoodSnapshot(snapshot, rows) && DrawnFrom(d, snapshot, picId);
    SnapshotThrough(snapshot, rows, rows');
  }

  /** Previews and drafts survive any change of rows that keeps the started ones. */
  lemma BoundThrough(w: World, w': World)
    requires WorldInv(w) && Sound(w'.task) && w'.task.picId == w.task.picId
    requires Persists(w.task.rows, w'.task.rows) && w'.previews == w.previews
    requires |w'.drafts| == |w.drafts|
    requires forall k :: 0 <= k < |w.drafts| && w'.drafts[k].status == Live ==> w'.drafts[k] == w.drafts[k]
    ensures WorldInv(w')
  {
    forall p | 0 <= p < |w'.previews|
      ensures GoodSnapshot(w'.previews[p], w'.task.rows)
    {
      SnapshotThrough(w.previews[p], w.task.rows, w'.task.rows);
    }
    forall k | 0 <= k < |w'.drafts| && w'.drafts[k].status == Live
      ensures GoodDraft(w'.drafts[k], w'.task.rows, w'.task.picId)
    {
      DraftThrough(w.drafts[k], w.task.rows, w'.task.rows, w.task.picId);
    }
  }

  lemma WriteKeeps(w: World, p: nat, slice: seq<StepPlan>, combined: seq<StepPlan>, w': World)
    requires WorldInv(w) && Next(w, WriteDraft(p, slice, combined), w')
    ensures WorldInv(w')
  {
    var d := DraftFrom(w.previews[p], slice, combined);
    assert GoodSnapshot(w.previews[p], w.task.rows) && DrawnFrom(d, w.previews[p], w.task.picId);
    forall k | 0 <= k < |w'.drafts| && w'.drafts[k].status == Live
      ensures GoodDraft(w'.drafts[k], w'.task.rows, w'.task.picId)
    {
      assert w'.drafts[k] == d;
    }
  }

  lemma ConfirmKeeps(w: World, k: nat, w': World)
    requires WorldInv(w) && Next(w, ConfirmDraft(k), w')
    ensures WorldInv(w')
  {
    var d := w.drafts[k];
    if ConfirmAmendment(w.task, d).Applied? {
      assert d.status == Live;
      ConfirmSound(w.task, d);
      PersistsStarted(w.task.rows);
      PersistsAppend(Started(w.task.rows), PlannedRows(d.newPending));
      PersistsThrough(w.task.rows, Started(w.task.rows), w'.task.rows);
      BoundThrough(w, w');
    }
  }

  lemma NextKeeps(w: World, e: Event, w': World)
    requires WorldInv(w) && Next(w, e, w')
    ensures WorldInv(w')
  {
    PersistsSelf(w.task.rows);
    match e
    case ConfirmPlan(_) => BoundThrough(w, w');
    case SetTaskStatus(_) => BoundThrough(w, w');
    case RecordCost(_, _) => BoundThrough(w, w');
    case Advance(i, r) =>
      AdvanceSound(w.task, i, r);
      PersistsAdvance(w.task.rows, i, r);
      BoundThrough(w, w');
    case InsertSystem(r) =>
      InsertSound(w.task, r);
      PersistsAppend(w.task.rows, [r]);
      BoundThrough(w, w');
    case ReadForAmend =>
    case WriteDraft(p, slice, combined) => WriteKeeps(w, p, slice, combined, w');
    case EndDraft(_, _) => BoundThrough(w, w');
    case ConfirmDraft(k) => ConfirmKeeps(w, k, w');
  }

  /** A run starts from the draft of a plan the planner let through. */
  ghost predicate Start(w: World) {
    && w.previews == [] && w.drafts == []
    && exists plans, staff :: && AcceptedPlan(plans, staff, w.task.picId)
                              && w.task.rows == PlannedRows(plans) && w.task.planHash == Some(Contents(plans))
  }

  lemma StartSound(w: World)
    requires Start(w)
    ensures WorldInv(w)
  {
    var plans, staff :| && AcceptedPlan(plans, staff, w.task.picId)
                        && w.task.rows == PlannedRows(plans) && w.task.planHash == Some(Contents(plans));
    AcceptedPlanIsSound(plans, staff, w.task.picId);
    PlanIsSound(w.task, plans);
  }

  ghost predicate IsRun(ws: seq<World>, es: seq<Event>) {
    && |ws| == |es| + 1
    && Start(ws[0])
    && forall i :: 0 <= i < |es| ==> Next(ws[i], es[i], ws[i + 1])
  }

  /** `_verify_plan_hash`: the recomputation over the rows that were not ticker-minted. */
  predicate HashVerified(t: TeamTask) {
    t.rows == [] || t.planHash == Some(Confirmed(t.rows))
  }

  /**
   Along every run of confirm, status changes, row inserts and amends, in any interleaving and
   with any number of stale previews, the hash re-check passes and the plan stays sound.
   */
  lemma {:induction false} EveryRunSound(ws: seq<World>, es: seq<Event>, i: nat)
    requires IsRun(ws, es) && i < |ws|
    ensures WorldInv(ws[i])
    ensures HashVerified(ws[i].task)
  {
    if i == 0 {
      StartSound(ws[0]);
    } else {
      EveryRunSound(ws, es, i - 1);
      NextKeeps(ws[i - 1], es[i - 1], ws[i]);
    }
  }

  // ---------------------------------------------------------------------------------------
  // A task read in two pieces
  // ---------------------------------------------------------------------------------------

  /** `get` reads the header and the rows in two queries: the header of one state, the rows of a later one. */
  function Torn(header: TeamTask, rows: TeamTask): TeamTask {
    header.(rows := rows.rows)
  }

  /** Such a reading fails the hash re-check exactly when the stored hash changed in between. */
  lemma TornReadFailsIff(before: TeamTask, after: TeamTask)
    requires Sound(before) && Sound(after)
    ensures HashVerified(Torn(before, after)) <==> before.planHash == after.planHash
  {
  }

  /** Only an applied amendment changes the stored hash. */
  lemma HashChangesIff(w: World, e: Event, w': World)
    requires WorldInv(w) && Next(w, e, w')
    ensures w'.task.planHash != w.task.planHash <==>
              && e.ConfirmDraft? && e.k < |w.drafts| && ConfirmAmendment(w.task, w.drafts[e.k]).Applied?
              && Some(w.drafts[e.k].newHash) != w.task.planHash
  {
  }

  /** The k-th event of the run applied an amendment. */
  ghost predicate AmendedAt(ws: seq<World>, es: seq<Event>, k: nat)
    requires k < |es| && k < |ws|
  {
    && es[k].ConfirmDraft? && es[k].k < |ws[k].drafts|
    && ConfirmAmendment(ws[k].task, ws[k].drafts[es[k].k]).Applied?
  }

  /** The stored hash only ever changes when an amendment is applied. */
  ghost predicate HashSteps(ws: seq<World>, es: seq<Event>) {
    && |ws| == |es| + 1
    && forall k :: 0 <= k < |es| && !AmendedAt(ws, es, k) ==> ws[k + 1].task.planHash == ws[k].task.planHash
  }

  lemma RunHashSteps(ws: seq<World>, es: seq<Event>)
    requires IsRun(ws, es)
    ensures HashSteps(ws, es)
  {
    forall k | 0 <= k < |es| && !AmendedAt(ws, es, k)
      ensures ws[k + 1].task.planHash == ws[k].task.planHash
    {
      EveryRunSound(ws, es, k);
      HashChangesIff(ws[k], es[k], ws[k + 1]);
    }
  }

  lemma {:induction false} HashChanger(ws: seq<World>, es: seq<Event>, i: nat, j: nat) returns (k: nat)
    requires HashSteps(ws, es) && i <= j < |ws| && ws[i].task.planHash != ws[j].task.planHash
    ensures i <= k < j && AmendedAt(ws, es, k)
    decreases j - i
  {
    if AmendedAt(ws, es, j - 1) {
      k := j - 1;
    } else {
      k := HashChanger(ws, es, i, j - 1);
    }
  }

  /**
   Over a whole run: a reader whose two queries fall into states `i` and `j` stalls an untampered
   task for its hash only if an amendment was applied in between.
   */
  lemma TornReadInRun(ws: seq<World>, es: seq<Event>, i: nat, j: nat) returns (k: nat)
    requires IsRun(ws, es) && i <= j < |ws| && !HashVerified(Torn(ws[i].task, ws[j].task))
    ensures i <= k < j && AmendedAt(ws, es, k)
  {
    EveryRunSound(ws, es, i);
    EveryRunSound(ws, es, j);
    TornReadFailsIff(ws[i].task, ws[j].task);
    RunHashSteps(ws, es);
    k := HashChanger(ws, es, i, j);
  }

  /** What the amendments applied between two points of a run leave as the stored hash. */
  ghost function StoredHash(ws: seq<World>, es: seq<Event>, i: nat, j: nat): Option<PlanHash>
    requires |ws| == |es| + 1 && i <= j < |ws|
  {
    if i == j then ws[i].task.planHash
    else if AmendedAt(ws, es, j - 1) then Some(ws[j - 1].drafts[es[j - 1].k].newHash)
    else StoredHash(ws, es, i, j - 1)
  }

  lemma {:induction false} StoredHashIs(ws: seq<World>, es: seq<Event>, i: nat, j: nat)
    requires IsRun(ws, es) && i <= j < |ws|
    ensures ws[j].task.planHash == StoredHash(ws, es, i, j)
  {
    if i < j {
      StoredHashIs(ws, es, i, j - 1);
      assert Next(ws[j - 1], es[j - 1], ws[j]);
      if !AmendedAt(ws, es, j - 1) { RunHashSteps(ws, es); }
    }
  }

  /**
   Over a whole run: header and rows read at points `i` and `j` fail the check exactly when what
   the amendments applied in between leave is a different stored hash.
   */
  lemma TornReadInRunIff(ws: seq<World>, es: seq<Event>, i: nat, j: nat)
    requires IsRun(ws, es) && i <= j < |ws|
    ensures HashVerified(Torn(ws[i].task, ws[j].task)) <==> StoredHash(ws, es, i, j) == ws[i].task.planHash
  {
    EveryRunSound(ws, es, i);
    EveryRunSound(ws, es, j);
    TornReadFailsIff(ws[i].task, ws[j].task);
    StoredHashIs(ws, es, i, j);
  }
}
