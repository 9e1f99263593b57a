/**
 The coordinator's tick as it runs: loops with early return over the rows it read, each action
 going through the store (src/agent/coordinator_graph.py, coordinator_nodes/tick_actions.py).
 */
module CoordinatorTick {
  import opened Common
  import opened Planning
  import opened TaskRows
  import opened PlanRuns
  import opened TeamTaskStore
  import opened Ticker
  import opened Progress

  lemma FindAt(rows: seq<Row>, i: nat)
    requires UniqueRows(rows) && i < |rows|
    ensures FindRow(rows, rows[i].step.stepId) == i
  {
    SameSlot(rows, FindRow(rows, rows[i].step.stepId), i);
  }

  predicate OthersSame(id: string, before: map<string, TeamTask>, after: map<string, TeamTask>) {
    && after.Keys == before.Keys
    && forall other :: other in after && other != id ==> after[other] == before[other]
  }

  /** What one tick over the whole office comes to: nothing, one action, or an exception that leaves it. */
  datatype TickReport = NoAction | Acted(taskId: string, action: TickAction) | Escaped(taskId: string)

  class Coordinator {
    const store: Store
    var retries: map<string, map<string, nat>>

    constructor (s: Store)
      ensures store == s && retries == map[]
    {
      store, retries := s, map[];
    }

    function RetriesOf(id: string): map<string, nat>
      reads this
    {
      if id in retries then retries[id] else map[]
    }

    /** What a tick of task `id` starts from. */
    ghost function State(id: string): TickState
      reads this, store
      requires id in store.tasks
    {
      TickState(store.tasks[id], RetriesOf(id), store.nextAttempt)
    }

    /** No task but `id` has changed. */
    twostate predicate OnlyTask(id: string)
      reads store
    {
      OthersSame(id, old(store.tasks), store.tasks)
    }

    /** No retry counts but those of task `id` have changed. */
    twostate predicate OnlyCounts(id: string)
      reads this
    {
      forall other :: other != id ==> RetriesOf(other) == old(RetriesOf(other))
    }

    /** A guarded write to the row the tick read: the lease in the guard is the row's own. */
    method MarkRow(id: string, i: nat, w: StatusWrite)
      requires store.Valid() && id in store.tasks && i < |store.tasks[id].rows|
      requires w.guard.None? || w.guard == store.tasks[id].rows[i].attempt
      modifies store`tasks, store`nextAttempt
      ensures store.Valid() && OnlyTask(id)
      ensures State(id) == WithRow(old(State(id)), i, Written(old(store.tasks[id].rows[i]), w))
    {
      FindAt(store.tasks[id].rows, i);
      var updated := store.SetStepStatus(id, store.tasks[id].rows[i].step.stepId, w);
    }

    method ReserveRow(id: string, i: nat) returns (lease: nat)
      requires store.Valid() && id in store.tasks && i < |store.tasks[id].rows|
      modifies store`tasks, store`nextAttempt
      ensures store.Valid() && OnlyTask(id)
      ensures lease == old(store.nextAttempt)
      ensures State(id) == WithRow(old(State(id)), i, Reserved(old(store.tasks[id].rows[i]), lease)).(leases := lease + 1)
    {
      FindAt(store.tasks[id].rows, i);
      var r := store.ReserveStep(id, store.tasks[id].rows[i].step.stepId);
      lease := r.value;
    }

    method RecordPid(id: string, ghost before: map<string, TeamTask>, i: nat, pid: int)
      requires store.Valid() && id in store.tasks && i < |store.tasks[id].rows| && OthersSame(id, before, store.tasks)
      modifies store`tasks, store`nextAttempt
      ensures store.Valid() && id in store.tasks && OthersSame(id, before, store.tasks)
      ensures State(id) == WithRow(old(State(id)), i, old(store.tasks[id].rows[i]).(pid := Some(pid)))
    {
      FindAt(store.tasks[id].rows, i);
      store.RecordSpawn(id, store.tasks[id].rows[i].step.stepId, pid);
    }

    method Conclude(id: string, status: TaskStatus, aggregate: real)
      requires store.Valid() && id in store.tasks
      modifies store`tasks, store`nextAttempt
      ensures store.Valid() && OnlyTask(id)
      ensures var t := old(store.tasks[id]);
              State(id) == old(State(id)).(task := t.(status := status, aggregateCost := t.aggregateCost + aggregate))
    {
      store.RecordTaskCost(id, 0.0, aggregate);
      store.SetTaskStatus(id, status);
    }

    method Stall(id: string)
      requires store.Valid() && id in store.tasks
      modifies store`tasks, store`nextAttempt
      ensures store.Valid() && OnlyTask(id)
      ensures State(id) == old(State(id)).(task := old(store.tasks[id]).(status := Stalled))
    {
      store.SetTaskStatus(id, Stalled);
    }

    /** `reserve_and_spawn`. */
    method ReserveAndSpawn(env: Env, id: string, i: nat) returns (action: TickAction)
      requires store.Valid() && id in store.tasks && i < |store.tasks[id].rows|
      modifies store`tasks, store`nextAttempt
      ensures store.Valid() && OnlyTask(id)
      ensures Outcome(action, State(id)) == Spawn(env, old(State(id)), i)
    {
      var step := store.tasks[id].rows[i].step;
      if !env.rosterOk(step.assignedTo) {
        MarkRow(id, i, Mark(Failed, None));
        return StepFailed;
      }
      Claim(env, id, i);
      return Spawned;
    }

    method Claim(env: Env, id: string, i: nat)
      requires store.Valid() && id in store.tasks && i < |store.tasks[id].rows|
      requires env.rosterOk(store.tasks[id].rows[i].step.assignedTo)
      modifies store`tasks, store`nextAttempt
      ensures store.Valid() && OnlyTask(id)
      ensures State(id) == Spawn(env, old(State(id)), i).st
    {
      ghost var before := store.tasks;
      var lease := ReserveRow(id, i);
      RecordPid(id, before, i, env.spawnPid(store.tasks[id].rows[i].step.stepId, lease));
    }

    /** A dead process without a result: start the step again, or give it up. */
    method RetryOrFail(env: Env, id: string, i: nat) returns (action: TickAction)
      requires store.Valid() && id in store.tasks && i < |store.tasks[id].rows| && Dead(env, store.tasks[id].rows[i])
      modifies this, store`tasks, store`nextAttempt
      ensures store.Valid() && OnlyTask(id) && OnlyCounts(id)
      ensures Outcome(action, State(id)) == PollRunning(env, old(State(id)), i)
    {
      var r := store.tasks[id].rows[i];
      var counts, stepId := RetriesOf(id), r.step.stepId;
      if RetryCount(counts, stepId) >= MAX_STEP_RETRIES {
        GiveUp(id, i, counts - {stepId});
        return StepFailed;
      }
      SetCounts(id, counts[stepId := RetryCount(counts, stepId) + 1]);
      action := ReserveAndSpawn(env, id, i);
    }

    method GiveUp(id: string, i: nat, counts: map<string, nat>)
      requires store.Valid() && id in store.tasks && i < |store.tasks[id].rows|
      modifies this, store`tasks, store`nextAttempt
      ensures store.Valid() && OnlyTask(id) && OnlyCounts(id)
      ensures var r := old(store.tasks[id].rows[i]);
              State(id) == WithRow(old(State(id)), i, Written(r, Mark(Failed, r.attempt))).(retries := counts)
    {
      MarkRow(id, i, Mark(Failed, store.tasks[id].rows[i].attempt));
      SetCounts(id, counts);
    }

    method SetCounts(id: string, counts: map<string, nat>)
      modifies this
      ensures RetriesOf(id) == counts && OnlyCounts(id)
    {
      retries := retries[id := counts];
    }

    /** `poll_running_step`. */
    method PollRunningStep(env: Env, id: string, i: nat) returns (action: TickAction)
      requires store.Valid() && id in store.tasks && i < |store.tasks[id].rows|
      modifies this, store`tasks, store`nextAttempt
      ensures store.Valid() && OnlyTask(id) && OnlyCounts(id)
      ensures Outcome(action, State(id)) == PollRunning(env, old(State(id)), i)
      ensures action == Idle ==> store.tasks == old(store.tasks) && retries == old(retries)
    {
      var r := store.tasks[id].rows[i];
      if Dead(env, r) {
        action := RetryOrFail(env, id, i);
      } else if env.leaseExpired(r.step.stepId) {
        MarkRow(id, i, Mark(TimedOut, r.attempt));
        action := TimedOutStep;
      } else {
        action := Idle;
      }
    }

    /** `poll_awaiting_approval_step`. */
    method PollAwaitingStep(env: Env, id: string, i: nat) returns (action: TickAction)
      requires store.Valid() && id in store.tasks && i < |store.tasks[id].rows| && Polled(store.tasks[id].rows[i])
      modifies store`tasks, store`nextAttempt
      ensures store.Valid() && OnlyTask(id)
      ensures Outcome(action, State(id)) == PollAwaiting(env, old(State(id)), i)
      ensures action == Idle ==> store.tasks == old(store.tasks)
    {
      var r := store.tasks[id].rows[i];
      match env.approval(r.approvalId.value) {
        case Approved =>
          action := ReserveAndSpawn(env, id, i);
        case Rejected =>
          MarkRow(id, i, Mark(Failed, r.attempt));
          action := StepFailed;
        case Undecided =>
          action := Idle;
      }
    }

    /** `dispatch_ready_steps`: start ready steps until the slots or the projected headroom run out. */
    method DispatchReady(env: Env, id: string) returns (action: TickAction)
      requires store.Valid() && id in store.tasks
      modifies store`tasks, store`nextAttempt
      ensures store.Valid() && OnlyTask(id)
      ensures Outcome(action, State(id)) == Dispatch(env, old(State(id)))
    {
      var t := store.tasks[id];
      var ready := ReadyBelow(t.rows, |t.rows|);
      ghost var st, before := State(id), store.tasks;
      action := Idle;
      var k := 0;
      while k < |ready| && Room(env, t, k)
        invariant k <= |ready| && Quota(env, t, |ready|, k) == Quota(env, t, |ready|, 0)
        invariant store.Valid() && OthersSame(id, before, store.tasks) && id in store.tasks
        invariant Outcome(action, State(id)) == SpawnFirst(env, st, ready, k)
      {
        action := StartNext(env, id, before, st, ready, k, action);
        k := k + 1;
      }
    }

    /** One turn of that loop. */
    method StartNext(env: Env, id: string, ghost before: map<string, TeamTask>, ghost st: TickState,
                     ready: seq<nat>, k: nat, sofar: TickAction)
      returns (action: TickAction)
      requires store.Valid() && id in store.tasks && k < |ready| && Places(st.task.rows, ready)
      requires OthersSame(id, before, store.tasks) && Outcome(sofar, State(id)) == SpawnFirst(env, st, ready, k)
      modifies store`tasks, store`nextAttempt
      ensures store.Valid() && OthersSame(id, before, store.tasks) && id in store.tasks
      ensures Outcome(action, State(id)) == SpawnFirst(env, st, ready, k + 1)
    {
      assert |store.tasks[id].rows| == |st.task.rows|;
      var one := ReserveAndSpawn(env, id, ready[k]);
      action := if sofar == Spawned || one == Spawned then Spawned else StepFailed;
    }

    /** `_maybe_insert_review_rows`: the first finished row with a review action due decides. */
    method InsertReviewRows(env: Env, id: string) returns (action: TickAction)
      requires store.Valid() && id in store.tasks
      modifies store`tasks, store`nextAttempt
      ensures store.Valid() && OnlyTask(id)
      ensures var rows := old(store.tasks[id]).rows;
              Outcome(action, State(id)) ==
                if FirstReview(env, rows) < |rows| then ApplyReview(env, old(State(id)), FirstReview(env, rows))
                else Outcome(Idle, old(State(id)))
      ensures action == Idle ==> FirstReview(env, old(store.tasks[id]).rows) == |old(store.tasks[id]).rows|
    {
      var rows := store.tasks[id].rows;
      for i := 0 to |rows|
        invariant store.Valid() && OnlyTask(id) && State(id) == old(State(id))
        invariant forall j: nat :: j < i ==> !ReviewDue(env, rows, j)
      {
        if ReviewRule(env, rows, i) != Nothing {
          FirstReviewIs(env, rows, i);
          action := ActOnReview(env, id, i);
          return;
        }
      }
      return Idle;
    }

    method ActOnReview(env: Env, id: string, i: nat) returns (action: TickAction)
      requires store.Valid() && id in store.tasks && ReviewDue(env, store.tasks[id].rows, i)
      modifies store`tasks, store`nextAttempt
      ensures store.Valid() && OnlyTask(id)
      ensures Outcome(action, State(id)) == ApplyReview(env, old(State(id)), i)
      ensures action != Idle
    {
      var rows := store.tasks[id].rows;
      match ReviewRule(env, rows, i) {
        case Exhausted =>
          Stall(id);
          action := ReviewStall;
        case Mint(row) =>
          var failed := store.InsertStep(id, row);
          action := if failed.Some? then Raised else if rows[i].stepType == Review then ReworkInserted else ReviewInserted;
      }
    }

    /** The polls of the running steps, first to last. */
    method PollRunningSteps(env: Env, id: string) returns (action: TickAction)
      requires store.Valid() && id in store.tasks
      modifies this, store`tasks, store`nextAttempt
      ensures store.Valid() && OnlyTask(id) && OnlyCounts(id)
      ensures var st := old(State(id));
              var i := FirstRunning(env, st);
              Outcome(action, State(id)) == if i < |st.task.rows| then PollRunning(env, st, i) else Outcome(Idle, st)
      ensures action == Idle ==> FirstRunning(env, old(State(id))) == |old(store.tasks[id]).rows|
    {
      var rows := store.tasks[id].rows;
      ghost var st := State(id);
      for i := 0 to |rows|
        invariant store.Valid() && store.tasks == old(store.tasks) && retries == old(retries)
        invariant store.nextAttempt == old(store.nextAttempt)
        invariant forall j: nat :: j < i ==> !RunningActs(env, st, j)
      {
        if rows[i].status == Running {
          action := PollRunningStep(env, id, i);
          if action != Idle {
            FirstRunningIs(env, st, i);
            return;
          }
        }
      }
      return Idle;
    }

    /** The polls of the steps that wait for an approval with a known id, first to last. */
    method PollAwaitingSteps(env: Env, id: string) returns (action: TickAction)
      requires store.Valid() && id in store.tasks
      modifies store`tasks, store`nextAttempt
      ensures store.Valid() && OnlyTask(id)
      ensures var st := old(State(id));
              var i := FirstAwaiting(env, st);
              Outcome(action, State(id)) == if i < |st.task.rows| then PollAwaiting(env, st, i) else Outcome(Idle, st)
      ensures action == Idle ==> FirstAwaiting(env, old(State(id))) == |old(store.tasks[id]).rows|
    {
      var rows := store.tasks[id].rows;
      ghost var st := State(id);
      for i := 0 to |rows|
        invariant store.Valid() && store.tasks == old(store.tasks) && store.nextAttempt == old(store.nextAttempt)
        invariant forall j: nat :: j < i ==> !AwaitingActs(env, st, j)
      {
        if Polled(rows[i]) {
          action := PollAwaitingStep(env, id, i);
          if action != Idle {
            FirstAwaitingIs(env, st, i);
            return;
          }
        }
      }
      return Idle;
    }

    /** The tail of the tick: aggregate a finished task, stall a dead end. */
    method WrapUp(env: Env, id: string) returns (action: TickAction)
      requires store.Valid() && id in store.tasks
      modifies store`tasks, store`nextAttempt
      ensures store.Valid() && OnlyTask(id)
      ensures Outcome(action, State(id)) == Wrap(env, old(State(id)))
    {
      var rows := store.tasks[id].rows;
      if rows != [] && AllDone(rows) {
        Conclude(id, Completed, Amount(env.aggregateCost));
        return Aggregated;
      }
      if SomeDead(rows) && !SomeInFlight(rows) {
        Stall(id);
        return DeadEndStall;
      }
      return Idle;
    }

    /** `_act_on_task`. */
    method ActOnTask(env: Env, id: string) returns (action: TickAction)
      requires store.Valid() && id in store.tasks
      modifies this, store`tasks, store`nextAttempt
      ensures store.Valid() && OnlyTask(id) && OnlyCounts(id)
      ensures Outcome(action, State(id)) == Act(env, old(State(id)))
    {
      if !HashVerified(store.tasks[id]) {
        Stall(id);
        return HashStall;
      }
      var spent := store.SumCost(id);
      if spent > env.cap {
        Stall(id);
        return CapExceeded;
      }
      action := InsertReviewRows(env, id);
      if action == Idle {
        action := PollAndStart(env, id);
      }
    }

    method PollAndStart(env: Env, id: string) returns (action: TickAction)
      requires store.Valid() && id in store.tasks
      modifies this, store`tasks, store`nextAttempt
      ensures store.Valid() && OnlyTask(id) && OnlyCounts(id)
      ensures Outcome(action, State(id)) == PollOrStart(env, old(State(id)))
    {
      ghost var st := State(id);
      action := PollRunningSteps(env, id);
      if action != Idle {
        return;
      }
      action := PollAwaitingSteps(env, id);
      if action != Idle {
        return;
      }
      action := DispatchReady(env, id);
      if action != Idle {
        return;
      }
      action := WrapUp(env, id);
    }

    /** One task of the tick's loop: if nothing was to be done, nothing changed. */
    method LookAt(env: Env, id: string) returns (action: TickAction)
      requires store.Valid() && id in store.tasks
      modifies this, store`tasks, store`nextAttempt
      ensures store.Valid() && OnlyTask(id) && OnlyCounts(id)
      ensures Outcome(action, State(id)) == Act(env, old(State(id)))
      ensures action == Idle || action == Raised ==> Unmoved()
    {
      ghost var st := State(id);
      action := ActOnTask(env, id);
      if action == Idle || action == Raised {
        IdleUnchanged(env, st);
      }
    }

    twostate predicate Unmoved()
      reads this, store
    {
      && store.tasks == old(store.tasks) && store.nextAttempt == old(store.nextAttempt)
      && forall id :: RetriesOf(id) == old(RetriesOf(id))
    }

    /** What every task would start a tick from. */
    ghost function States(): map<string, TickState>
      reads this, store
    {
      map id | id in store.tasks :: State(id)
    }

    /**
     `run_one_tick`: the dispatchable tasks are looked at oldest first, and the first with anything
     to do gets its one action; if there is none, nothing changed. An exception ends the whole tick:
     nothing changed either, and the younger tasks are not looked at.
     */
    method RunOneTick(envs: string -> Env) returns (report: TickReport, ghost idle: nat)
      requires store.Valid()
      modifies this, store`tasks, store`nextAttempt
      ensures store.Valid()
      ensures var ids := old(DispatchList(store.created, store.tasks));
              && idle <= |ids| && IdleBelow(envs, old(States()), ids, idle)
              && (report.NoAction? <==> idle == |ids|)
              && (!report.NoAction? ==> report.taskId == ids[idle])
      ensures !report.Acted? ==> Unmoved()
      ensures !report.NoAction? ==>
                var id := report.taskId;
                && id in old(store.tasks) && OnlyTask(id) && OnlyCounts(id)
                && var done := Act(envs(id), old(State(id)));
                   && done.action != Idle && State(id) == done.st
                   && report == if done.action == Raised then Escaped(id) else Acted(id, done.action)
    {
      var ids := store.ListDispatchable();
      ghost var states := States();
      for k := 0 to |ids|
        invariant store.Valid() && Unmoved()
        invariant IdleBelow(envs, states, ids, k)
      {
        var id := ids[k];
        assert id in ids;
        DispatchListed(store.created, store.tasks, id);
        assert State(id) == states[id];
        var action := LookAt(envs(id), id);
        if action == Raised {
          return Escaped(id), k;
        }
        if action != Idle {
          return Acted(id, action), k;
        }
        IdleExtends(envs, states, ids, k);
      }
      return NoAction, |ids|;
    }
  }

  ghost predicate IdleBelow(envs: string -> Env, states: map<string, TickState>, ids: seq<string>, k: nat) {
    k <= |ids| && forall j :: 0 <= j < k ==> ids[j] in states && Act(envs(ids[j]), states[ids[j]]).action == Idle
  }

  lemma IdleExtends(envs: string -> Env, states: map<string, TickState>, ids: seq<string>, k: nat)
    requires k < |ids| && IdleBelow(envs, states, ids, k)
    requires ids[k] in states && Act(envs(ids[k]), states[ids[k]]).action == Idle
    ensures IdleBelow(envs, states, ids, k + 1)
  {
  }

  /**
   Where a tick stops is decided by the state it starts from. After an exception nothing has
   changed, so as long as the answers stay the same every tick ends at the same task, and the
   younger ones are never looked at.
   */
  lemma SameStop(envs: string -> Env, states: map<string, TickState>, ids: seq<string>, k: nat, m: nat)
    requires IdleBelow(envs, states, ids, k) && IdleBelow(envs, states, ids, m)
    requires k < |ids| && ids[k] in states && Act(envs(ids[k]), states[ids[k]]).action == Raised
    requires m < |ids| ==> ids[m] in states && Act(envs(ids[m]), states[ids[m]]).action != Idle
    ensures m == k
  {
  }

  lemma FirstReviewIs(env: Env, rows: seq<Row>, i: nat)
    requires ReviewDue(env, rows, i) && forall j: nat :: j < i ==> !ReviewDue(env, rows, j)
    ensures FirstReview(env, rows) == i
  {
    var first := FirstReview(env, rows);
    assert first < |rows| ==> ReviewDue(env, rows, first);
  }

  lemma FirstRunningIs(env: Env, st: TickState, i: nat)
    requires RunningActs(env, st, i) && forall j: nat :: j < i ==> !RunningActs(env, st, j)
    ensures FirstRunning(env, st) == i
  {
    var first := FirstRunning(env, st);
    assert first < |st.task.rows| ==> RunningActs(env, st, first);
  }

  lemma FirstAwaitingIs(env: Env, st: TickState, i: nat)
    requires AwaitingActs(env, st, i) && forall j: nat :: j < i ==> !AwaitingActs(env, st, j)
    ensures FirstAwaiting(env, st) == i
  {
    var first := FirstAwaiting(env, st);
    assert first < |st.task.rows| ==> AwaitingActs(env, st, first);
  }
}
