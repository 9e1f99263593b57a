/**
 One tick of the coordinator over one task, as a function of the rows it read and of what the
 outside world answers (src/agent/coordinator_graph.py, coordinator_nodes/tick_actions.py,
 coordinator_nodes/review_insert.py, src/runtime/team_task_cost.py).
 */
module Ticker {
  import opened Common
  import opened Planning
  import opened TaskRows
  import opened PlanRuns
  import opened TeamTaskStore
  import Text

  /** A step whose process died without a result is started again this many times. */
  const MAX_STEP_RETRIES: nat := 1

  datatype Decision = Approved | Rejected | Undecided

  /** What processes, clock, registry, approvals and verdict files answer during one tick of one task. */
  datatype Env = Env(
    pidAlive: int -> bool,
    leaseExpired: string -> bool,
    rosterOk: string -> bool,
    approval: nat -> Decision,
    spawnPid: (string, nat) -> int,
    reviewer: string -> Option<string>,
    verdict: (string, nat) -> Option<bool>,
    aggregateCost: Option<real>,
    cap: real,
    concurrency: int)

  datatype TickAction =
    | Idle
    | Spawned
    | StepFailed
    | TimedOutStep
    | Aggregated
    | CapExceeded
    | HashStall
    | DeadEndStall
    | ReviewStall
    | ReviewInserted
    | ReworkInserted
    | Raised

  /** The task, its dead-process retry counts and the next lease number. */
  datatype TickState = TickState(task: TeamTask, retries: map<string, nat>, leases: nat)

  datatype Outcome = Outcome(action: TickAction, st: TickState)

  // ---------------------------------------------------------------------------------------
  // Single rows
  // ---------------------------------------------------------------------------------------

  function WithRow(st: TickState, i: nat, r: Row): TickState
    requires i < |st.task.rows|
  {
    st.(task := st.task.(rows := st.task.rows[i := r]))
  }

  function RetryCount(retries: map<string, nat>, id: string): nat {
    if id in retries then retries[id] else 0
  }

  /** `reserve_and_spawn`: the assignee is re-checked before a lease is taken. */
  function Spawn(env: Env, st: TickState, i: nat): Outcome
    requires i < |st.task.rows|
  {
    var r := st.task.rows[i];
    if !env.rosterOk(r.step.assignedTo) then
      Outcome(StepFailed, WithRow(st, i, Written(r, Mark(Failed, None))))
    else
      var claimed := Reserved(r, st.leases).(pid := Some(env.spawnPid(r.step.stepId, st.leases)));
      Outcome(Spawned, WithRow(st, i, claimed).(leases := st.leases + 1))
  }

  predicate Dead(env: Env, r: Row) {
    (r.pid.None? || !env.pidAlive(r.pid.value)) && !r.hasOutcome
  }

  /** `poll_running_step`. */
  function PollRunning(env: Env, st: TickState, i: nat): Outcome
    requires i < |st.task.rows|
  {
    var r := st.task.rows[i];
    var id := r.step.stepId;
    if Dead(env, r) then
      if RetryCount(st.retries, id) >= MAX_STEP_RETRIES then
        Outcome(StepFailed, WithRow(st, i, Written(r, Mark(Failed, r.attempt))).(retries := st.retries - {id}))
      else
        Spawn(env, st.(retries := st.retries[id := RetryCount(st.retries, id) + 1]), i)
    else if env.leaseExpired(id) then
      Outcome(TimedOutStep, WithRow(st, i, Written(r, Mark(TimedOut, r.attempt))))
    else
      Outcome(Idle, st)
  }

  /** An approval id the ticker can poll: present and non-zero. */
  predicate Polled(r: Row) {
    r.status == AwaitingApproval && r.approvalId.Some? && r.approvalId.value != 0
  }

  /** `poll_awaiting_approval_step`. */
  function PollAwaiting(env: Env, st: TickState, i: nat): Outcome
    requires i < |st.task.rows| && Polled(st.task.rows[i])
  {
    var r := st.task.rows[i];
    match env.approval(r.approvalId.value)
    case Approved => Spawn(env, st, i)
    case Rejected => Outcome(StepFailed, WithRow(st, i, Written(r, Mark(Failed, r.attempt))))
    case Undecided => Outcome(Idle, st)
  }

  // ---------------------------------------------------------------------------------------
  // The review rule
  // ---------------------------------------------------------------------------------------

  datatype ReviewAct = Nothing | Mint(row: Row) | Exhausted

  /** The newest row of this type minted for a content step, or the number of rows. */
  function NewestChild(rows: seq<Row>, parent: string, kind: StepType): (i: nat)
    ensures i < |rows| ==> rows[i].stepType == kind && rows[i].parent == Some(parent)
    ensures i <= |rows|
    ensures forall j :: i < j < |rows| ==> !(rows[j].stepType == kind && rows[j].parent == Some(parent))
    ensures i == |rows| ==> forall j :: 0 <= j < |rows| ==> !(rows[j].stepType == kind && rows[j].parent == Some(parent))
  {
    if rows == [] then 0
    else if rows[|rows| - 1].stepType == kind && rows[|rows| - 1].parent == Some(parent) then |rows| - 1
    else
      var i := NewestChild(rows[..|rows| - 1], parent, kind);
      if i == |rows| - 1 then |rows| else i
  }

  function ChildCount(rows: seq<Row>, parent: string, kind: StepType): nat {
    if rows == [] then 0
    else ChildCount(rows[..|rows| - 1], parent, kind)
         + if rows[|rows| - 1].stepType == kind && rows[|rows| - 1].parent == Some(parent) then 1 else 0
  }

  function NewRow(c: StepContent, kind: StepType, parent: string, round: nat): Row {
    Minted(Row(c, Pending, kind, false, true, Some(parent), round, None, None, false, None, None))
  }

  /** `_insert_review_step`: the review waits for the row whose artifact it grades. */
  function ReviewRow(rows: seq<Row>, content: StepContent, reviewer: string, round: nat, source: string): Row {
    NewRow(StepContent(content.stepId + "-review-" + Text.Digits(round) + "-" + Text.Digits(ChildCount(rows, content.stepId, Review)),
                       "Soát chéo: " + content.title, reviewer, [source]),
           Review, content.stepId, round)
  }

  /** `_insert_rework_step`: same author, waiting for the newest review. */
  function ReworkRow(rows: seq<Row>, content: StepContent, round: nat): Row {
    var newest := NewestChild(rows, content.stepId, Review);
    NewRow(StepContent(ReworkId(content.stepId, round), content.title, content.assignedTo,
                       [if newest < |rows| then rows[newest].step.stepId else content.stepId]),
           Rework, content.stepId, round)
  }

  predicate Reworked(rows: seq<Row>, parent: string, round: nat) {
    exists j :: 0 <= j < |rows| && rows[j].stepType == Rework && rows[j].parent == Some(parent) && rows[j].reviewRound == round
  }

  /** `maybe_insert_review`. */
  function AfterWork(env: Env, rows: seq<Row>, i: nat): ReviewAct
    requires i < |rows|
  {
    var c := rows[i].step;
    if !rows[i].needsReview || NewestChild(rows, c.stepId, Review) < |rows| then Nothing
    else
      match env.reviewer(c.assignedTo)
      case None => Nothing
      case Some(who) => Mint(ReviewRow(rows, c, who, 0, c.stepId))
  }

  /** `maybe_handle_review_done`. */
  function AfterReview(env: Env, rows: seq<Row>, i: nat): ReviewAct
    requires i < |rows|
  {
    var r := rows[i];
    if r.parent.None? then Nothing
    else
      var k := FindRow(rows, r.parent.value);
      if k == |rows| then Nothing
      else
        var content := rows[k].step;
        match env.verdict(content.stepId, r.reviewRound)
        case None =>
          if NewestChild(rows, content.stepId, Review) == i
          then Mint(ReviewRow(rows, content, r.step.assignedTo, r.reviewRound, content.stepId)) else Nothing
        case Some(passed) =>
          if passed then Nothing
          else if r.reviewRound >= MAX_REVIEW_ROUNDS then Exhausted
          else if Reworked(rows, content.stepId, r.reviewRound) then Nothing
          else Mint(ReworkRow(rows, content, r.reviewRound))
  }

  /** `maybe_insert_review_after_rework`. */
  function AfterRework(env: Env, rows: seq<Row>, i: nat): ReviewAct
    requires i < |rows|
  {
    var r := rows[i];
    if r.parent.None? then Nothing
    else
      var k := FindRow(rows, r.parent.value);
      if k == |rows| then Nothing
      else
        var content := rows[k].step;
        var newest := NewestChild(rows, content.stepId, Review);
        if newest < |rows| && rows[newest].reviewRound >= r.reviewRound + 1 then Nothing
        else
          match env.reviewer(content.assignedTo)
          case None => Nothing
          case Some(who) => Mint(ReviewRow(rows, content, who, r.reviewRound + 1, r.step.stepId))
  }

  function ReviewRule(env: Env, rows: seq<Row>, i: nat): ReviewAct
    requires i < |rows|
  {
    if rows[i].status != Done then Nothing
    else
      match rows[i].stepType
      case Work => AfterWork(env, rows, i)
      case Review => AfterReview(env, rows, i)
      case Rework => AfterRework(env, rows, i)
  }

  function ApplyReview(env: Env, st: TickState, i: nat): Outcome
    requires i < |st.task.rows| && ReviewRule(env, st.task.rows, i) != Nothing
  {
    match ReviewRule(env, st.task.rows, i)
    case Exhausted => Outcome(ReviewStall, st.(task := st.task.(status := Stalled)))
    case Mint(row) =>
      if HasRow(st.task.rows, row.step.stepId) then Outcome(Raised, st)
      else Outcome(if st.task.rows[i].stepType == Review then ReworkInserted else ReviewInserted,
                   st.(task := st.task.(rows := st.task.rows + [Minted(row)])))
    case Nothing => Outcome(Idle, st)
  }

  // ---------------------------------------------------------------------------------------
  // Dispatch
  // ---------------------------------------------------------------------------------------

  predicate Ready(rows: seq<Row>, i: nat)
    requires i < |rows|
  {
    rows[i].status == Pending && forall d :: d in rows[i].step.deps ==> DoneRow(rows, d)
  }

  /** `ready_pending_steps`, as row numbers below `n`. */
  function ReadyBelow(rows: seq<Row>, n: nat): (s: seq<nat>)
    requires n <= |rows|
    ensures Places(rows, s)
  {
    if n == 0 then [] else ReadyBelow(rows, n - 1) + if Ready(rows, n - 1) then [n - 1] else []
  }

  /** Row numbers in increasing order, each of a ready row. */
  predicate ReadyPlaces(rows: seq<Row>, places: seq<nat>) {
    && (forall k :: 0 <= k < |places| ==> places[k] < |rows| && Ready(rows, places[k]))
    && forall j, k :: 0 <= j < k < |places| ==> places[j] < places[k]
  }

  lemma {:induction false} ReadyListed(rows: seq<Row>, n: nat)
    requires n <= |rows|
    ensures ReadyPlaces(rows, ReadyBelow(rows, n))
    ensures forall i: nat :: i in ReadyBelow(rows, n) <==> i < n && Ready(rows, i)
  {
    if n > 0 {
      ReadyListed(rows, n - 1);
      var front := ReadyBelow(rows, n - 1);
      ListGrows(rows, front, n - 1);
    }
  }

  lemma ListGrows(rows: seq<Row>, front: seq<nat>, i: nat)
    requires i < |rows| && ReadyPlaces(rows, front) && forall j: nat :: j in front <==> j < i && Ready(rows, j)
    ensures Ready(rows, i) ==> ReadyPlaces(rows, front + [i])
  {
    forall k | 0 <= k < |front|
      ensures front[k] < i
    {
      assert front[k] in front;
    }
  }

  function RunningCount(rows: seq<Row>): nat {
    if rows == [] then 0
    else RunningCount(rows[..|rows| - 1]) + if rows[|rows| - 1].status == Running then 1 else 0
  }

  /** `step_cost_estimate_usd`: an equal share of the cap. */
  function Estimate(cap: real): real {
    cap / MAX_STEPS as real
  }

  /** There is a slot and projected headroom for one more step after `j` were taken this tick. */
  predicate Room(env: Env, t: TeamTask, j: nat) {
    && j < env.concurrency - RunningCount(t.rows)
    && env.cap - Spent(t) - RunningCount(t.rows) as real * Estimate(env.cap) - j as real * Estimate(env.cap) >= Estimate(env.cap)
  }

  /** How many of `n` ready steps are taken, `k` of them already, before there is no room. */
  function Quota(env: Env, t: TeamTask, n: nat, k: nat): (q: nat)
    requires k <= n
    ensures k <= q <= n
    decreases n - k
  {
    if k < n && Room(env, t, k) then Quota(env, t, n, k + 1) else k
  }

  predicate Places(rows: seq<Row>, places: seq<nat>) {
    forall k :: 0 <= k < |places| ==> places[k] < |rows|
  }

  /** Starting the steps at the first `k` of `places`, in order. */
  function SpawnFirst(env: Env, st: TickState, places: seq<nat>, k: nat): (o: Outcome)
    requires k <= |places| && Places(st.task.rows, places)
    ensures |o.st.task.rows| == |st.task.rows|
    ensures o.action == Idle <==> k == 0
    ensures o.action == Idle || o.action == Spawned || o.action == StepFailed
  {
    if k == 0 then Outcome(Idle, st)
    else
      var before := SpawnFirst(env, st, places, k - 1);
      var last := Spawn(env, before.st, places[k - 1]);
      Outcome(if before.action == Spawned || last.action == Spawned then Spawned else StepFailed, last.st)
  }

  /** `dispatch_ready_steps`: the longest prefix of the ready steps there is room for. */
  function Dispatch(env: Env, st: TickState): Outcome {
    var ready := ReadyBelow(st.task.rows, |st.task.rows|);
    SpawnFirst(env, st, ready, Quota(env, st.task, |ready|, 0))
  }

  // ---------------------------------------------------------------------------------------
  // The tick
  // ---------------------------------------------------------------------------------------

  predicate ReviewDue(env: Env, rows: seq<Row>, i: nat) {
    i < |rows| && ReviewRule(env, rows, i) != Nothing
  }

  predicate RunningActs(env: Env, st: TickState, i: nat) {
    i < |st.task.rows| && st.task.rows[i].status == Running && PollRunning(env, st, i).action != Idle
  }

  predicate AwaitingActs(env: Env, st: TickState, i: nat) {
    i < |st.task.rows| && Polled(st.task.rows[i]) && PollAwaiting(env, st, i).action != Idle
  }

  /** The first number below `n` with property `p`, or `n`. */
  function First(p: nat -> bool, n: nat): (i: nat)
    ensures i <= n && (i < n ==> p(i)) && forall j: nat :: j < i ==> !p(j)
  {
    if n == 0 then 0
    else
      var i := First(p, n - 1);
      if i < n - 1 then i else if p(n - 1) then n - 1 else n
  }

  predicate AllDone(rows: seq<Row>) {
    forall i :: 0 <= i < |rows| ==> rows[i].status == Done
  }

  predicate DeadRow(r: Row) {
    r.status == Failed || r.status == TimedOut
  }

  predicate InFlightRow(r: Row) {
    r.status == Running || r.status == AwaitingApproval
  }

  predicate SomeDead(rows: seq<Row>) {
    exists i :: 0 <= i < |rows| && DeadRow(rows[i])
  }

  predicate SomeInFlight(rows: seq<Row>) {
    exists i :: 0 <= i < |rows| && InFlightRow(rows[i])
  }

  /** The first row with a review action due, or the number of rows. */
  function FirstReview(env: Env, rows: seq<Row>): (i: nat)
    ensures i <= |rows| && (i < |rows| ==> ReviewDue(env, rows, i)) && forall j: nat :: j < i ==> !ReviewDue(env, rows, j)
  {
    var due := (i: nat) => ReviewDue(env, rows, i);
    assert forall j: nat {:trigger ReviewDue(env, rows, j)} :: due(j) == ReviewDue(env, rows, j);
    First(due, |rows|)
  }

  /** The first running row whose poll acts, or the number of rows. */
  function FirstRunning(env: Env, st: TickState): (i: nat)
    ensures i <= |st.task.rows| && (i < |st.task.rows| ==> RunningActs(env, st, i))
    ensures forall j: nat :: j < i ==> !RunningActs(env, st, j)
  {
    var due := (i: nat) => RunningActs(env, st, i);
    assert forall j: nat {:trigger RunningActs(env, st, j)} :: due(j) == RunningActs(env, st, j);
    First(due, |st.task.rows|)
  }

  /** The first awaiting row whose poll acts, or the number of rows. */
  function FirstAwaiting(env: Env, st: TickState): (i: nat)
    ensures i <= |st.task.rows| && (i < |st.task.rows| ==> AwaitingActs(env, st, i))
    ensures forall j: nat :: j < i ==> !AwaitingActs(env, st, j)
  {
    var due := (i: nat) => AwaitingActs(env, st, i);
    assert forall j: nat {:trigger AwaitingActs(env, st, j)} :: due(j) == AwaitingActs(env, st, j);
    First(due, |st.task.rows|)
  }

  /** `_act_on_task`: the one action of a tick on one task. */
  function Act(env: Env, st: TickState): Outcome {
    if !HashVerified(st.task) then Outcome(HashStall, st.(task := st.task.(status := Stalled)))
    else if Spent(st.task) > env.cap then Outcome(CapExceeded, st.(task := st.task.(status := Stalled)))
    else if FirstReview(env, st.task.rows) < |st.task.rows| then ApplyReview(env, st, FirstReview(env, st.task.rows))
    else PollOrStart(env, st)
  }

  /** The rest of the tick when no review is due. */
  function PollOrStart(env: Env, st: TickState): Outcome {
    if FirstRunning(env, st) < |st.task.rows| then PollRunning(env, st, FirstRunning(env, st))
    else if FirstAwaiting(env, st) < |st.task.rows| then PollAwaiting(env, st, FirstAwaiting(env, st))
    else if Dispatch(env, st).action != Idle then Dispatch(env, st)
    else Wrap(env, st)
  }

  /** The end of the tick, once nothing was polled or started. */
  function Wrap(env: Env, st: TickState): Outcome {
    var t := st.task;
    if t.rows != [] && AllDone(t.rows) then
      Outcome(Aggregated, st.(task := t.(status := Completed, aggregateCost := t.aggregateCost + Amount(env.aggregateCost))))
    else if SomeDead(t.rows) && !SomeInFlight(t.rows) then
      Outcome(DeadEndStall, st.(task := t.(status := Stalled)))
    else
      Outcome(Idle, st)
  }

  function Amount(c: Option<real>): real {
    if c.Some? then c.value else 0.0
  }
}
