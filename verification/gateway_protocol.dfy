/**
 The Action Gateway as a protocol: any number of calls, on any number of gateways that share the
 idempotency table and the approval queue, interleave between the atomic table operations
 (src/actions/action_gateway.py, dedup_store.py, approval_store.py).
 */
module GatewayProtocol {
  import opened Common
  import opened ActionPolicy
  import opened RateLimit

  // ---------------------------------------------------------------------------------------
  // State
  // ---------------------------------------------------------------------------------------

  /** What a gateway is built with. */
  datatype Settings = Settings(tests: Tests, allow: Allowlist, external: set<string>, auto: Option<AutoConfig>,
                               writeDisabled: bool, dryRun: bool)

  /** A gateway: its settings, its short list of recent calls and, for the record, every admission. */
  datatype Gateway = Gateway(settings: Settings, recent: seq<real>, last: real, admitted: seq<real>)

  datatype ApprovalStatus = Pending | Approved | Rejected

  datatype Approval = Approval(action: Action, status: ApprovalStatus)

  datatype Request =
    | Execute(action: Action, hasHandler: bool)
    | ExecuteApproved(action: Action, hasHandler: bool)
    | Enqueue(action: Action, hasHandler: bool, origin: Origin)
    | Approve(id: nat)
    | Reject(id: nat)

  /** What lets an action past the policy: nothing was needed, a human, or a slot of the trust ladder. */
  datatype Why = Direct | Human | AutoSlot(date: string, slot: nat)

  datatype End =
    | Executed(why: Why)
    | DryRan
    | Duplicate
    | NoHandler
    | Queued(id: nat)
    | NotQueued
    | Declined
    | Failed
    | Invalid

  datatype AuditVerdict = Allow | Deny | DryRun | Skipped | PendingLine | RejectLine

  /** The one line each outcome leaves in the audit log. */
  function VerdictOf(e: End): AuditVerdict {
    match e
    case Executed(_) => Allow
    case DryRan => DryRun
    case Duplicate => Skipped
    case NoHandler => Skipped
    case Queued(_) => PendingLine
    case NotQueued => Deny
    case Declined => RejectLine
    case Failed => Deny
    case Invalid => Deny
  }

  /** Where a call stands between two atomic operations. */
  datatype Pc =
    | Begin
    | TrySlot(date: string, slot: nat)
    | Enqueuing(exhausted: Option<string>)
    | Guarded(why: Why)
    | Claiming(why: Why)
    | Holding(why: Why)
    | Running(why: Why)
    | Releasing(end: End)
    | Auditing(end: End)
    | Reverting(end: End)
    | Ended(end: End)

  datatype Call = Call(gate: nat, request: Request, action: Action, pc: Pc)

  datatype Line = Line(call: nat, verdict: AuditVerdict)

  datatype Sys = Sys(gates: seq<Gateway>, keys: set<string>, approvals: seq<Approval>, calls: seq<Call>,
                     audit: seq<Line>)

  /** The digest behind unhinted keys and the redaction applied to queued actions. */
  datatype Fixed = Fixed(digest: Action -> string, redact: Action -> Action)

  /** What the world answers to one step: the clock, the local date, whether the handler succeeds. */
  datatype Choice = Choice(now: real, date: string, handlerOk: bool)

  function KeyOf(fx: Fixed, c: Call): string {
    DedupKey(fx.digest, c.action)
  }

  predicate HasHandler(r: Request) {
    match r
    case Execute(_, h) => h
    case ExecuteApproved(_, h) => h
    case Enqueue(_, h, _) => h
    case Approve(_) => true
    case Reject(_) => false
  }

  // ---------------------------------------------------------------------------------------
  // One atomic step of one call
  // ---------------------------------------------------------------------------------------

  function Put(s: Sys, i: nat, c: Call): Sys
    requires i < |s.calls|
  {
    s.(calls := s.calls[i := c])
  }

  /** Only call `i` moved, and no gateway changed its settings. */
  ghost predicate Moved(s: Sys, i: nat, s': Sys)
    requires i < |s.calls|
  {
    && |s'.calls| == |s.calls| && s'.calls == s.calls[i := s'.calls[i]]
    && s'.calls[i].gate == s.calls[i].gate && s'.calls[i].request == s.calls[i].request
    && |s'.gates| == |s.gates| && forall k :: 0 <= k < |s.gates| ==> s'.gates[k].settings == s.gates[k].settings
  }

  /** What a call decides before it touches any table. */
  function Decide(g: Settings, c: Call, date: string): Pc {
    if KindOf(c.action) == Foreign then Ended(Invalid)
    else
      match c.request
      case Execute(a, hasHandler) =>
        (match RouteOf(g.tests, g.allow, g.external, c.action)
         case Refuse => Auditing(Failed)
         case Proceed => Guarded(Direct)
         case AskHuman =>
           if hasHandler && MayAutoApprove(g.auto, c.action, Scheduled) then TrySlot(date, 1) else Enqueuing(None))
      case ExecuteApproved(_, _) =>
        if ApprovedRoute(g.tests, g.allow, c.action) == Refuse then Auditing(Failed) else Guarded(Human)
      case Enqueue(_, hasHandler, origin) =>
        if Classify(g.tests, g.allow, c.action) != Allowed then Auditing(NotQueued)
        else if hasHandler && MayAutoApprove(g.auto, c.action, origin) then TrySlot(date, 1)
        else Enqueuing(None)
      case Approve(_) => Ended(Invalid)
      case Reject(_) => Ended(Invalid)
  }

  /** An approved call: the compare-and-set, then the stored action with the approval in hand. */
  function BeginApprove(s: Sys, i: nat, id: nat): (s': Sys)
    requires i < |s.calls| && s.calls[i].gate < |s.gates|
    ensures Moved(s, i, s')
  {
    var c := s.calls[i];
    if id >= |s.approvals| || s.approvals[id].status != Pending then Put(s, i, c.(pc := Ended(Invalid)))
    else
      var a := s.approvals[id].action;
      var g := s.gates[c.gate].settings;
      var pc := if KindOf(a) == Foreign then Reverting(Invalid)
                else if ApprovedRoute(g.tests, g.allow, a) == Refuse then Auditing(Failed)
                else Guarded(Human);
      Put(s, i, c.(action := a, pc := pc)).(approvals := s.approvals[id := Approval(a, Approved)])
  }

  /** `reject` sets the status whatever it was. */
  function BeginReject(s: Sys, i: nat, id: nat): (s': Sys)
    requires i < |s.calls|
    ensures Moved(s, i, s')
  {
    var c := s.calls[i];
    if id >= |s.approvals| then Put(s, i, c.(pc := Ended(Invalid)))
    else Put(s, i, c.(pc := Auditing(Declined))).(approvals := s.approvals[id := s.approvals[id].(status := Rejected)])
  }

  /** One turn of `claim_daily_slot`. */
  function TakeSlot(s: Sys, i: nat, date: string, slot: nat): (s': Sys)
    requires i < |s.calls| && s.calls[i].gate < |s.gates|
    ensures Moved(s, i, s')
  {
    var c := s.calls[i];
    if SemanticType(c.action).None? || slot > DailyCap(s.gates[c.gate].settings.auto, c.action) then
      Put(s, i, c.(pc := Enqueuing(Some(date))))
    else
      var key := SlotKey(SemanticType(c.action).value, date, slot);
      if key in s.keys then Put(s, i, c.(pc := TrySlot(date, slot + 1)))
      else Put(s, i, c.(pc := Guarded(AutoSlot(date, slot)))).(keys := s.keys + {key})
  }

  /** Kill switch, dry run, then the rate limit of this gateway. */
  function Guard(s: Sys, i: nat, why: Why, now: real): (s': Sys)
    requires i < |s.calls| && s.calls[i].gate < |s.gates|
    ensures Moved(s, i, s')
  {
    var c := s.calls[i];
    var g := s.gates[c.gate];
    if g.settings.writeDisabled then Put(s, i, c.(pc := Auditing(Failed)))
    else if g.settings.dryRun then Put(s, i, c.(pc := Auditing(DryRan)))
    else
      Put(s, i, c.(pc := if Admits(g, now) then Claiming(why) else Auditing(Failed)))
        .(gates := s.gates[c.gate := CheckedRate(g, now)])
  }

  /** Fewer than `MAX_CALLS` recent calls are left once the old ones are popped. */
  predicate Admits(g: Gateway, now: real) {
    |Trimmed(g.recent, now - WINDOW)| < MAX_CALLS
  }

  /** `_check_rate_limit`: pop the old calls, then append this one if it is admitted. */
  function CheckedRate(g: Gateway, now: real): Gateway {
    var kept := Trimmed(g.recent, now - WINDOW);
    if Admits(g, now) then g.(recent := kept + [now], last := now, admitted := g.admitted + [now])
    else g.(recent := kept, last := now)
  }

  /** Where a call goes from a place past the policy, the slots and the guards. */
  function NextPc(fx: Fixed, keys: set<string>, queued: nat, c: Call, ch: Choice): Pc {
    match c.pc
    case Enqueuing(_) => Auditing(Queued(queued))
    case Claiming(why) => if KeyOf(fx, c) in keys then Auditing(Duplicate) else Holding(why)
    case Holding(why) => if HasHandler(c.request) then Running(why) else Releasing(NoHandler)
    case Running(why) => if ch.handlerOk then Auditing(Executed(why)) else Releasing(Failed)
    case Releasing(end) => Auditing(end)
    case Auditing(end) => if end == Failed && c.request.Approve? then Reverting(Failed) else Ended(end)
    case Reverting(end) => Ended(end)
    case _ => c.pc
  }

  /** The key table after that step: `claim` is insert-or-ignore, `release` deletes. */
  function NextKeys(fx: Fixed, keys: set<string>, c: Call): set<string> {
    match c.pc
    case Claiming(_) => keys + {KeyOf(fx, c)}
    case Releasing(_) => keys - {KeyOf(fx, c)}
    case _ => keys
  }

  /** The queue after that step: a new row, or a row put back to pending. */
  function NextApprovals(fx: Fixed, approvals: seq<Approval>, c: Call): seq<Approval> {
    match c.pc
    case Enqueuing(_) => approvals + [Approval(fx.redact(c.action), Pending)]
    case Reverting(_) =>
      if c.request.Approve? && c.request.id < |approvals|
      then approvals[c.request.id := approvals[c.request.id].(status := Pending)] else approvals
    case _ => approvals
  }

  function NextAudit(audit: seq<Line>, i: nat, c: Call): seq<Line> {
    if c.pc.Auditing? then audit + [Line(i, VerdictOf(c.pc.end))] else audit
  }

  function Step(fx: Fixed, s: Sys, i: nat, ch: Choice): (s': Sys)
    requires i < |s.calls| && s.calls[i].gate < |s.gates|
    ensures Moved(s, i, s')
  {
    var c := s.calls[i];
    match c.pc
    case Begin =>
      (match c.request
       case Approve(id) => BeginApprove(s, i, id)
       case Reject(id) => BeginReject(s, i, id)
       case _ => Put(s, i, c.(pc := Decide(s.gates[c.gate].settings, c, ch.date))))
    case TrySlot(date, slot) => TakeSlot(s, i, date, slot)
    case Guarded(why) => Guard(s, i, why, ch.now)
    case _ =>
      Sys(s.gates, NextKeys(fx, s.keys, c), NextApprovals(fx, s.approvals, c),
          s.calls[i := c.(pc := NextPc(fx, s.keys, |s.approvals|, c, ch))], NextAudit(s.audit, i, c))
  }

  // ---------------------------------------------------------------------------------------
  // Runs
  // ---------------------------------------------------------------------------------------

  datatype Event = NewCall(gate: nat, request: Request, action: Action) | StepCall(i: nat, ch: Choice)

  /** The clock of a gateway never goes back, and dates are ISO dates. */
  predicate Timely(s: Sys, i: nat, ch: Choice)
    requires i < |s.calls| && s.calls[i].gate < |s.gates|
  {
    ':' !in ch.date && (s.calls[i].pc.Guarded? ==> s.gates[s.calls[i].gate].last <= ch.now)
  }

  ghost predicate Next(fx: Fixed, s: Sys, e: Event, s': Sys) {
    match e
    case NewCall(gate, request, action) =>
      && gate < |s.gates|
      && (request.Execute? || request.ExecuteApproved? || request.Enqueue? ==> action == request.action)
      && s' == s.(calls := s.calls + [Call(gate, request, action, Begin)])
    case StepCall(i, ch) =>
      i < |s.calls| && s.calls[i].gate < |s.gates| && Timely(s, i, ch) && s' == Step(fx, s, i, ch)
  }

  /** Fresh tables and gateways that have admitted nothing. */
  predicate Init(s: Sys) {
    && s.keys == {} && s.approvals == [] && s.calls == [] && s.audit == []
    && forall g :: 0 <= g < |s.gates| ==> s.gates[g].recent == [] && s.gates[g].admitted == []
  }

  ghost predicate IsRun(fx: Fixed, ss: seq<Sys>, es: seq<Event>) {
    && |ss| == |es| + 1 && Init(ss[0])
    && forall k :: 0 <= k < |es| ==> Next(fx, ss[k], es[k], ss[k + 1])
  }
}
