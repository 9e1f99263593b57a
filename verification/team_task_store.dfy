/**
 The shared store of team tasks (src/runtime/team_task_store.py, team_task_steps.py,
 team_task_amend.py): every operation commits before the next one starts, so each method here
 is one atomic step on the tables.
 */
module TeamTaskStore {
  import opened Common
  import opened Planning
  import opened TaskRows
  import opened PlanRuns

  datatype StoreError = UnknownTask | UnknownStep | DuplicateTask | DuplicateRow

  /** An amendment id: the task it was drawn for and its place among that task's drafts. */
  datatype AmendmentId = AmendmentId(taskId: string, k: nat)

  /** The columns `set_step_status` may write; `guard` is the lease it must still hold. */
  datatype StatusWrite = StatusWrite(status: StepStatus, outcome: bool, cost: Option<real>,
                                     approvalId: Option<nat>, guard: Option<nat>)

  function Mark(status: StepStatus, guard: Option<nat>): StatusWrite {
    StatusWrite(status, false, None, None, guard)
  }

  /** The place of the row with this id, or the number of rows if there is none. */
  function FindRow(rows: seq<Row>, id: string): (i: nat)
    ensures i <= |rows|
    ensures i < |rows| <==> HasRow(rows, id)
    ensures i < |rows| ==> rows[i].step.stepId == id
  {
    if rows == [] then 0
    else if rows[0].step.stepId == id then 0
    else
      var j := FindRow(rows[1..], id);
      assert HasRow(rows, id) ==> HasRow(rows[1..], id) by {
        if i :| 0 <= i < |rows| && rows[i].step.stepId == id {
          assert rows[1..][i - 1].step.stepId == id;
        }
      }
      j + 1
  }

  /** The row a guarded write applies to: it exists and, if a lease is presented, still holds it. */
  predicate WriteApplies(rows: seq<Row>, id: string, w: StatusWrite) {
    var i := FindRow(rows, id);
    i < |rows| && (w.guard.None? || rows[i].attempt == w.guard)
  }

  function OrElse<T>(a: Option<T>, b: Option<T>): Option<T> {
    if a.Some? then a else b
  }

  function Written(r: Row, w: StatusWrite): Row {
    r.(status := w.status, hasOutcome := r.hasOutcome || w.outcome,
       cost := OrElse(w.cost, r.cost), approvalId := OrElse(w.approvalId, r.approvalId))
  }

  function Reserved(r: Row, attempt: nat): Row {
    r.(status := Running, attempt := Some(attempt), approvalId := None)
  }

  function CostSum(rows: seq<Row>): real {
    if rows == [] then 0.0
    else CostSum(rows[..|rows| - 1]) + if rows[|rows| - 1].cost.Some? then rows[|rows| - 1].cost.value else 0.0
  }

  /** `sum_cost`: what the task has spent so far. */
  function Spent(t: TeamTask): real {
    CostSum(t.rows) + t.decomposeCost + t.aggregateCost
  }

  predicate Dispatchable(s: TaskStatus) {
    s == Open || s == InProgress
  }

  predicate MayDispatch(tasks: map<string, TeamTask>, id: string) {
    id in tasks && Dispatchable(tasks[id].status)
  }

  /** The dispatchable ids of a list, in its order. */
  function DispatchList(ids: seq<string>, tasks: map<string, TeamTask>): seq<string> {
    if ids == [] then []
    else DispatchList(ids[..|ids| - 1], tasks) +
         if MayDispatch(tasks, ids[|ids| - 1]) then [ids[|ids| - 1]] else []
  }

  lemma {:induction false} DispatchListed(ids: seq<string>, tasks: map<string, TeamTask>, id: string)
    ensures id in DispatchList(ids, tasks) <==> id in ids && MayDispatch(tasks, id)
  {
    if ids != [] {
      DispatchListed(ids[..|ids| - 1], tasks, id);
      assert ids == ids[..|ids| - 1] + [ids[|ids| - 1]];
    }
  }

  /** The list keeps the order of the ids, oldest first. */
  lemma {:induction false} DispatchInOrder(ids: seq<string>, tasks: map<string, TeamTask>, i: nat, j: nat) returns (p: nat, q: nat)
    requires i < j < |DispatchList(ids, tasks)|
    ensures p < q < |ids| && ids[p] == DispatchList(ids, tasks)[i] && ids[q] == DispatchList(ids, tasks)[j]
  {
    var front, last := ids[..|ids| - 1], |ids| - 1;
    if j < |DispatchList(front, tasks)| {
      p, q := DispatchInOrder(front, tasks, i, j);
    } else {
      q := last;
      DispatchListed(front, tasks, DispatchList(front, tasks)[i]);
      p :| p < |front| && front[p] == DispatchList(front, tasks)[i];
    }
  }

  function DeletePending(rows: seq<Row>, id: string): seq<Row> {
    if rows == [] then []
    else DeletePending(rows[..|rows| - 1], id) +
         if rows[|rows| - 1].step.stepId == id && rows[|rows| - 1].status == Pending then [] else [rows[|rows| - 1]]
  }

  lemma {:induction false} DeleteOne(rows: seq<Row>, id: string)
    requires forall i :: 0 <= i < |rows| && rows[i].step.stepId == id ==> rows[i].status == Pending
    ensures DeletePending(rows, id) == Without(rows, {id})
  {
    if rows != [] {
      DeleteOne(rows[..|rows| - 1], id);
    }
  }

  lemma {:induction false} WithoutTwice(rows: seq<Row>, a: set<string>, b: set<string>)
    ensures Without(Without(rows, a), b) == Without(rows, a + b)
  {
    if rows != [] {
      var front, last := rows[..|rows| - 1], rows[|rows| - 1];
      WithoutTwice(front, a, b);
      if last.step.stepId !in a {
        var kept := Without(front, a) + [last];
        assert Without(rows, a) == kept && kept[..|kept| - 1] == Without(front, a);
      } else {
        assert Without(rows, a) == Without(front, a);
      }
    }
  }

  lemma {:induction false} WithoutMember(rows: seq<Row>, ids: set<string>, r: Row)
    ensures r in Without(rows, ids) <==> r in rows && r.step.stepId !in ids
  {
    if rows != [] {
      WithoutMember(rows[..|rows| - 1], ids, r);
      assert rows == rows[..|rows| - 1] + [rows[|rows| - 1]];
    }
  }

  lemma {:induction false} WithoutUnique(rows: seq<Row>, ids: set<string>)
    requires UniqueRows(rows)
    ensures UniqueRows(Without(rows, ids))
  {
    if rows != [] {
      var front, last := rows[..|rows| - 1], rows[|rows| - 1];
      WithoutUnique(front, ids);
      forall i | 0 <= i < |Without(front, ids)|
        ensures Without(front, ids)[i].step.stepId != last.step.stepId
      {
        WithoutMember(front, ids, Without(front, ids)[i]);
      }
    }
  }

  lemma {:induction false} WithoutNone(rows: seq<Row>)
    ensures Without(rows, {}) == rows
  {
    if rows != [] {
      WithoutNone(rows[..|rows| - 1]);
    }
  }

  /** Deleting one more draft id that is still pending. */
  lemma DeleteStep(rows0: seq<Row>, gone: set<string>, id: string)
    requires UniqueRows(rows0) && PendingRow(rows0, id) && id !in gone
    ensures DeletePending(Without(rows0, gone), id) == Without(rows0, gone + {id})
  {
    var rows := Without(rows0, gone);
    forall i | 0 <= i < |rows| && rows[i].step.stepId == id
      ensures rows[i].status == Pending
    {
      WithoutMember(rows0, gone, rows[i]);
      var j: nat :| j < |rows0| && rows0[j] == rows[i];
      var k: nat :| k < |rows0| && rows0[k].step.stepId == id && rows0[k].status == Pending;
      SameSlot(rows0, j, k);
    }
    DeleteOne(rows, id);
    WithoutTwice(rows0, gone, {id});
  }

  /** The delete half of `swap_pending_steps`: the ids that raced away are reported, not deleted. */
  method DeleteDrafted(rows0: seq<Row>, expected: set<string>) returns (rows: seq<Row>, skipped: set<string>)
    requires UniqueRows(rows0)
    ensures skipped == Raced(rows0, expected)
    ensures rows == Without(rows0, expected - skipped)
  {
    rows, skipped := rows0, {};
    var todo := expected;
    WithoutNone(rows0);
    ghost var seen: set<string> := {};
    assert seen - skipped == {};
    while todo != {}
      invariant seen + todo == expected && seen !! todo
      invariant skipped == Raced(rows0, seen)
      invariant rows == Without(rows0, seen - skipped)
    {
      var id :| id in todo;
      if PendingRow(rows0, id) {
        DeleteStep(rows0, seen - skipped, id);
        assert seen + {id} - skipped == seen - skipped + {id};
        rows := DeletePending(rows, id);
      } else {
        assert seen + {id} - (skipped + {id}) == seen - skipped;
        skipped := skipped + {id};
      }
      seen := seen + {id};
      todo := todo - {id};
    }
    assert seen == expected;
  }

  /** The insert half: the first id already taken makes the whole transaction fail. */
  method InsertPlanned(rows0: seq<Row>, plans: seq<StepPlan>) returns (r: Result<seq<Row>, StoreError>)
    requires UniqueRows(rows0)
    ensures r.Ok? <==> UniqueRows(rows0 + PlannedRows(plans))
    ensures r.Ok? ==> r.value == rows0 + PlannedRows(plans)
  {
    var rows := rows0;
    for k := 0 to |plans|
      invariant rows == rows0 + PlannedRows(plans[..k]) && UniqueRows(rows)
    {
      assert PlannedRows(plans[..k + 1]) == PlannedRows(plans[..k]) + [PlannedRow(plans[k])];
      var i := FindRow(rows, plans[k].step.stepId);
      if i < |rows| {
        ghost var all := rows0 + PlannedRows(plans);
        assert all[i].step.stepId == rows[i].step.stepId && all[|rows|].step.stepId == plans[k].step.stepId;
        return Err(DuplicateRow);
      }
      rows := rows + [PlannedRow(plans[k])];
    }
    assert plans[..|plans|] == plans;
    return Ok(rows);
  }

  lemma PlannedUnique(plans: seq<StepPlan>)
    ensures [] + PlannedRows(plans) == PlannedRows(plans)
    ensures UniqueRows(PlannedRows(plans)) <==> UniqueIds(Contents(plans))
  {
    forall i | 0 <= i < |plans|
      ensures PlannedRows(plans)[i].step.stepId == Contents(plans)[i].stepId
    {
    }
    if UniqueRows(PlannedRows(plans)) {
      forall i, j | 0 <= i < j < |plans|
        ensures Contents(plans)[i].stepId != Contents(plans)[j].stepId
      {
        assert PlannedRows(plans)[i].step.stepId != PlannedRows(plans)[j].step.stepId;
      }
    }
  }

  /** `replace_steps`, from an empty table. */
  method FreshRows(plans: seq<StepPlan>) returns (r: Result<seq<Row>, StoreError>)
    ensures r.Ok? <==> UniqueIds(Contents(plans))
    ensures r.Ok? ==> r.value == PlannedRows(plans) && UniqueRows(r.value)
  {
    PlannedUnique(plans);
    r := InsertPlanned([], plans);
  }

  class Store {
    var tasks: map<string, TeamTask>
    var created: seq<string>
    var drafts: map<string, seq<Draft>>
    var nextAttempt: nat

    /** The table constraints: one draft list per task, and no two rows of a task with one id. */
    ghost predicate Valid()
      reads this
    {
      && tasks.Keys == drafts.Keys == Elements(created)
      && NoDuplicates(created)
      && forall id :: id in tasks ==> UniqueRows(tasks[id].rows)
    }

    constructor ()
      ensures Valid() && tasks == map[] && created == []
    {
      tasks, created, drafts, nextAttempt := map[], [], map[], 0;
    }

    /** `create_task`: the room of the global log cannot be a task's room. */
    method CreateTask(id: string, picId: string, room: string) returns (ok: bool)
      requires Valid()
      modifies this
      ensures Valid()
      ensures ok <==> room != "office" && id !in old(tasks)
      ensures ok ==> && tasks == old(tasks)[id := TeamTask(Planned, None, picId, 0.0, 0.0, [])]
                     && drafts == old(drafts)[id := []] && created == old(created) + [id]
      ensures !ok ==> tasks == old(tasks) && drafts == old(drafts) && created == old(created)
    {
      ok := room != "office" && id !in tasks;
      if ok {
        tasks := tasks[id := TeamTask(Planned, None, picId, 0.0, 0.0, [])];
        drafts := drafts[id := []];
        created := created + [id];
      }
    }

    /** `set_draft_plan`: the previewed plan replaces the rows; the status stays what it was. */
    method SetDraftPlan(id: string, plans: seq<StepPlan>) returns (r: Option<StoreError>)
      requires Valid()
      modifies this`tasks
      ensures Valid()
      ensures r == if id !in old(tasks) then Some(UnknownTask)
                   else if !UniqueIds(Contents(plans)) then Some(DuplicateRow)
                   else None
      ensures tasks == if r.None?
                       then old(tasks)[id := old(tasks)[id].(rows := PlannedRows(plans), planHash := Some(Contents(plans)))]
                       else old(tasks)
    {
      if id !in tasks {
        return Some(UnknownTask);
      }
      var rows := FreshRows(plans);
      if rows.Err? {
        return Some(DuplicateRow);
      }
      tasks := tasks[id := tasks[id].(rows := rows.value, planHash := Some(Contents(plans)))];
      return None;
    }

    method ConfirmPlan(id: string, expected: PlanHash) returns (ok: bool)
      requires Valid()
      modifies this`tasks
      ensures Valid()
      ensures ok <==> id in old(tasks) && old(tasks)[id].status == Planned && old(tasks)[id].planHash == Some(expected)
      ensures id in old(tasks) ==> tasks == old(tasks)[id := ConfirmPlanned(old(tasks)[id], expected)]
      ensures id !in old(tasks) ==> tasks == old(tasks)
    {
      if id !in tasks {
        return false;
      }
      var t := tasks[id];
      if t.status != Planned || t.planHash != Some(expected) {
        return false;
      }
      tasks := tasks[id := t.(status := Open)];
      return true;
    }

    method SetTaskStatus(id: string, status: TaskStatus)
      requires Valid()
      modifies this`tasks
      ensures Valid()
      ensures tasks == if id in old(tasks) then old(tasks)[id := old(tasks)[id].(status := status)] else old(tasks)
    {
      if id in tasks {
        tasks := tasks[id := tasks[id].(status := status)];
      }
    }

    method RecordTaskCost(id: string, decompose: real, aggregate: real)
      requires Valid()
      modifies this`tasks
      ensures Valid()
      ensures tasks == if id in old(tasks)
                       then old(tasks)[id := old(tasks)[id].(decomposeCost := old(tasks)[id].decomposeCost + decompose,
                                                             aggregateCost := old(tasks)[id].aggregateCost + aggregate)]
                       else old(tasks)
    {
      if id in tasks {
        var t := tasks[id];
        tasks := tasks[id := t.(decomposeCost := t.decomposeCost + decompose, aggregateCost := t.aggregateCost + aggregate)];
      }
    }

    /** `sum_cost`. */
    method SumCost(id: string) returns (total: real)
      requires Valid()
      ensures total == if id in tasks then CostSum(tasks[id].rows) + tasks[id].decomposeCost + tasks[id].aggregateCost else 0.0
    {
      if id !in tasks {
        return 0.0;
      }
      var t := tasks[id];
      total := 0.0;
      for i := 0 to |t.rows|
        invariant total == CostSum(t.rows[..i])
      {
        assert t.rows[..i + 1][..i] == t.rows[..i];
        total := total + if t.rows[i].cost.Some? then t.rows[i].cost.value else 0.0;
      }
      assert t.rows[..|t.rows|] == t.rows;
      total := total + t.decomposeCost + t.aggregateCost;
    }

    /** `list_dispatchable`: confirmed and unfinished tasks, oldest first. */
    method ListDispatchable() returns (ids: seq<string>)
      requires Valid()
      ensures ids == DispatchList(created, tasks)
    {
      ids := [];
      for i := 0 to |created|
        invariant ids == DispatchList(created[..i], tasks)
      {
        var id := created[i];
        assert id in Elements(created);
        assert created[..i + 1][..i] == created[..i];
        if Dispatchable(tasks[id].status) {
          ids := ids + [id];
        }
      }
      assert created[..|created|] == created;
    }

    /** `reserve_step`: always claims; only an unknown step is an error. */
    method ReserveStep(id: string, stepId: string) returns (r: Result<nat, StoreError>)
      requires Valid()
      modifies this`tasks, this`nextAttempt
      ensures Valid()
      ensures r.Ok? <==> id in old(tasks) && HasRow(old(tasks)[id].rows, stepId)
      ensures r.Ok? ==>
                var rows := old(tasks)[id].rows;
                var i := FindRow(rows, stepId);
                && r.value == old(nextAttempt) && nextAttempt == old(nextAttempt) + 1
                && tasks == old(tasks)[id := old(tasks)[id].(rows := rows[i :=
                     rows[i].(status := Running, attempt := Some(r.value), approvalId := None)])]
      ensures r.Err? ==> tasks == old(tasks) && nextAttempt == old(nextAttempt)
    {
      if id !in tasks {
        return Err(UnknownTask);
      }
      var t := tasks[id];
      var i := FindRow(t.rows, stepId);
      if i == |t.rows| {
        return Err(UnknownStep);
      }
      r := Ok(nextAttempt);
      tasks := tasks[id := t.(rows := t.rows[i := Reserved(t.rows[i], nextAttempt)])];
      nextAttempt := nextAttempt + 1;
    }

    method RecordSpawn(id: string, stepId: string, pid: int)
      requires Valid()
      modifies this`tasks
      ensures Valid()
      ensures tasks == if id in old(tasks) && HasRow(old(tasks)[id].rows, stepId)
                       then var rows := old(tasks)[id].rows;
                            var i := FindRow(rows, stepId);
                            old(tasks)[id := old(tasks)[id].(rows := rows[i := rows[i].(pid := Some(pid))])]
                       else old(tasks)
    {
      if id in tasks {
        var t := tasks[id];
        var i := FindRow(t.rows, stepId);
        if i < |t.rows| {
          tasks := tasks[id := t.(rows := t.rows[i := t.rows[i].(pid := Some(pid))])];
        }
      }
    }

    /** `set_step_status`: a writer that lost its lease writes nothing. */
    method SetStepStatus(id: string, stepId: string, w: StatusWrite) returns (updated: bool)
      requires Valid()
      modifies this`tasks
      ensures Valid()
      ensures updated <==> id in old(tasks) && WriteApplies(old(tasks)[id].rows, stepId, w)
      ensures tasks == if updated
                       then var rows := old(tasks)[id].rows;
                            var i := FindRow(rows, stepId);
                            old(tasks)[id := old(tasks)[id].(rows := rows[i :=
                              rows[i].(status := w.status, hasOutcome := rows[i].hasOutcome || w.outcome,
                                       cost := if w.cost.Some? then w.cost else rows[i].cost,
                                       approvalId := if w.approvalId.Some? then w.approvalId else rows[i].approvalId)])]
                       else old(tasks)
    {
      if id !in tasks || !WriteApplies(tasks[id].rows, stepId, w) {
        return false;
      }
      var t := tasks[id];
      var i := FindRow(t.rows, stepId);
      tasks := tasks[id := t.(rows := t.rows[i := Written(t.rows[i], w)])];
      return true;
    }

    /** `insert_step`: the row is forced to be ticker-minted, pending and not itself reviewed. */
    method InsertStep(id: string, row: Row) returns (r: Option<StoreError>)
      requires Valid()
      modifies this`tasks
      ensures Valid()
      ensures r == if id !in old(tasks) then Some(UnknownTask)
                   else if HasRow(old(tasks)[id].rows, row.step.stepId) then Some(DuplicateRow)
                   else None
      ensures tasks == if r.None? then old(tasks)[id := old(tasks)[id].(rows := old(tasks)[id].rows + [Minted(row)])] else old(tasks)
    {
      if id !in tasks {
        return Some(UnknownTask);
      }
      var t := tasks[id];
      if HasRow(t.rows, row.step.stepId) {
        return Some(DuplicateRow);
      }
      tasks := tasks[id := t.(rows := t.rows + [Minted(row)])];
      return None;
    }

    /** `set_amendment_draft`: the task's live drafts are superseded, the new one is live. */
    method SetAmendmentDraft(id: string, d: Draft) returns (amendment: Option<AmendmentId>)
      requires Valid() && d.status == Live
      modifies this`drafts
      ensures Valid()
      ensures amendment == if id in tasks then Some(AmendmentId(id, |old(drafts)[id]|)) else None
      ensures drafts == if id in tasks then old(drafts)[id := AddDraft(old(drafts)[id], d)] else old(drafts)
    {
      if id !in tasks {
        return None;
      }
      var ds := drafts[id];
      for k := 0 to |ds|
        invariant |ds| == |drafts[id]|
        invariant forall j :: 0 <= j < k ==> ds[j] == AddDraft(drafts[id], d)[j]
        invariant forall j :: k <= j < |ds| ==> ds[j] == drafts[id][j]
      {
        if ds[k].status == Live {
          ds := ds[k := ds[k].(status := Superseded)];
        }
      }
      assert ds + [d] == AddDraft(drafts[id], d);
      amendment := Some(AmendmentId(id, |ds|));
      drafts := drafts[id := ds + [d]];
    }

    /** `cancel_amendment_draft`: only a live draft can be withdrawn. */
    method CancelAmendmentDraft(a: AmendmentId) returns (ok: bool)
      requires Valid()
      modifies this`drafts
      ensures Valid()
      ensures ok <==> a.taskId in old(drafts) && a.k < |old(drafts)[a.taskId]| && old(drafts)[a.taskId][a.k].status == Live
      ensures drafts == if ok
                        then var ds := old(drafts)[a.taskId];
                             old(drafts)[a.taskId := ds[a.k := ds[a.k].(status := Withdrawn)]]
                        else old(drafts)
    {
      ok := a.taskId in drafts && a.k < |drafts[a.taskId]| && drafts[a.taskId][a.k].status == Live;
      if ok {
        var ds := drafts[a.taskId];
        drafts := drafts[a.taskId := ds[a.k := ds[a.k].(status := Withdrawn)]];
      }
    }

    /** `confirm_amendment`: one transaction; anything but `Applied` leaves the tables as they were. */
    method ConfirmAmendment(id: string, a: AmendmentId) returns (outcome: ConfirmOutcome)
      requires Valid()
      modifies this`tasks, this`drafts
      ensures Valid()
      ensures outcome == if a.taskId != id || id !in old(drafts) || a.k >= |old(drafts)[id]| then NotFound
                         else PlanRuns.ConfirmAmendment(old(tasks)[id], old(drafts)[id][a.k])
      ensures outcome.Applied? ==>
                && tasks == old(tasks)[id := outcome.task]
                && drafts == old(drafts)[id := old(drafts)[id][a.k := old(drafts)[id][a.k].(status := Used)]]
      ensures !outcome.Applied? ==> tasks == old(tasks) && drafts == old(drafts)
    {
      if a.taskId != id || id !in drafts || a.k >= |drafts[id]| {
        return NotFound;
      }
      var d, t := drafts[id][a.k], tasks[id];
      if d.status != Live {
        return NotLive;
      }
      if Steps(t.rows) != d.baseHash {
        return PlanChanged;
      }
      var rows, skipped := DeleteDrafted(t.rows, d.oldPendingIds);
      if skipped != {} {
        return JustReserved(skipped);
      }
      assert d.oldPendingIds - skipped == d.oldPendingIds;
      WithoutUnique(t.rows, d.oldPendingIds);
      var swapped := InsertPlanned(rows, d.newPending);
      if swapped.Err? {
        return DuplicateStep;
      }
      outcome := Applied(t.(rows := swapped.value, planHash := Some(d.newHash)));
      tasks := tasks[id := outcome.task];
      drafts := drafts[id := drafts[id][a.k := d.(status := Used)]];
    }
  }

  function Minted(r: Row): Row {
    Row(r.step, Pending, r.stepType, false, true, r.parent, r.reviewRound, None, None, false, None, None)
  }
}
