/**
 The guarantees of the Action Gateway over whole runs, for any number of calls on any number of
 gateways and every interleaving of their table operations (src/actions/action_gateway.py).
 */
module GatewayRuns {
  import opened Common
  import opened Text
  import opened ActionPolicy
  import opened RateLimit
  import opened GatewayProtocol
  import opened GatewaySafety
  import opened GatewaySlots
  import opened GatewayRecords

  ghost predicate Safe(fx: Fixed, s: Sys) {
    && Shapes(s)
    && KeysInv(fx, s.keys, s.calls)
    && SegmentsInv(s.gates, s.keys) && ViewsInv(s) && OwnersInv(s.keys, s.calls)
    && ApprovalsInv(s.approvals, s.calls)
    && AuditInv(s.audit, s.calls)
    && RatesInv(s.gates)
  }

  lemma StepKeepsSafe(fx: Fixed, s: Sys, i: nat, ch: Choice)
    requires Safe(fx, s) && IsDigest(fx.digest) && i < |s.calls| && Timely(s, i, ch)
    ensures Safe(fx, Step(fx, s, i, ch))
  {
    StepKeepsShapes(fx, s, i, ch);
    StepKeepsKeys(fx, s, i, ch);
    StepKeepsSegments(fx, s, i, ch);
    StepKeepsViews(fx, s, i, ch);
    StepKeepsOwners(fx, s, i, ch);
    StepKeepsApprovals(fx, s, i, ch);
    StepKeepsAudit(fx, s, i, ch);
    StepKeepsRates(fx, s, i, ch);
  }

  lemma NewOwned(fx: Fixed, calls: seq<Call>, c: Call, key: string)
    requires Owned(fx, calls, key)
    ensures Owned(fx, calls + [c], key)
  {
    var i :| 0 <= i < |calls| && Claims(calls[i]) && KeyOf(fx, calls[i]) == key;
    assert (calls + [c])[i] == calls[i];
  }

  lemma NewKeepsKeys(fx: Fixed, keys: set<string>, calls: seq<Call>, c: Call)
    requires KeysInv(fx, keys, calls) && c.pc.Begin?
    ensures KeysInv(fx, keys, calls + [c])
  {
    forall key | key in keys && Owned(fx, calls, key)
      ensures Owned(fx, calls + [c], key)
    {
      NewOwned(fx, calls, c, key);
    }
  }

  lemma NewKeepsRecords(s: Sys, c: Call)
    requires ApprovalsInv(s.approvals, s.calls) && AuditInv(s.audit, s.calls) && OwnersInv(s.keys, s.calls) && c.pc.Begin?
    ensures ApprovalsInv(s.approvals, s.calls + [c]) && AuditInv(s.audit, s.calls + [c]) && OwnersInv(s.keys, s.calls + [c])
  {
  }

  lemma NewKeepsSafe(fx: Fixed, s: Sys, gate: nat, request: Request, action: Action, s': Sys)
    requires Safe(fx, s) && Next(fx, s, NewCall(gate, request, action), s')
    ensures Safe(fx, s')
  {
    var c := Call(gate, request, action, Begin);
    NewKeepsKeys(fx, s.keys, s.calls, c);
    NewKeepsRecords(s, c);
    forall k | 0 <= k < |s'.calls|
      ensures s'.calls[k].gate < |s'.gates| && Shape(s'.gates[s'.calls[k].gate].settings, s'.calls[k])
      ensures SlotView(s'.gates[s'.calls[k].gate].settings, s'.keys, s'.calls[k])
    {
      assert s'.calls[k] == if k < |s.calls| then s.calls[k] else c;
    }
  }

  lemma InitSafe(fx: Fixed, s: Sys)
    requires Init(s)
    ensures Safe(fx, s)
  {
    forall g | 0 <= g < |s.gates|
      ensures History(s.gates[g].admitted, s.gates[g].recent, s.gates[g].last)
    {
    }
  }

  /** All the invariants hold in every state of every run. */
  lemma {:induction false} EveryRunSafe(fx: Fixed, ss: seq<Sys>, es: seq<Event>, k: nat)
    requires IsRun(fx, ss, es) && IsDigest(fx.digest) && k < |ss|
    ensures Safe(fx, ss[k])
  {
    if k == 0 {
      InitSafe(fx, ss[0]);
    } else {
      EveryRunSafe(fx, ss, es, k - 1);
      assert Next(fx, ss[k - 1], es[k - 1], ss[k]);
      match es[k - 1]
      case NewCall(gate, request, action) => NewKeepsSafe(fx, ss[k - 1], gate, request, action, ss[k]);
      case StepCall(i, ch) => StepKeepsSafe(fx, ss[k - 1], i, ch);
    }
  }

  /** Some run, whatever its calls and their interleaving, leads to this state. */
  ghost predicate Reachable(fx: Fixed, s: Sys) {
    IsDigest(fx.digest) && exists ss, es :: IsRun(fx, ss, es) && ss[|ss| - 1] == s
  }

  lemma ReachableSafe(fx: Fixed, s: Sys)
    requires Reachable(fx, s)
    ensures Safe(fx, s)
  {
    var ss, es :| IsRun(fx, ss, es) && ss[|ss| - 1] == s;
    EveryRunSafe(fx, ss, es, |ss| - 1);
  }

  lemma StartReachable(fx: Fixed, s: Sys)
    requires Init(s) && IsDigest(fx.digest)
    ensures Reachable(fx, s)
  {
    assert IsRun(fx, [s], []);
  }

  lemma NextReachable(fx: Fixed, s: Sys, e: Event, s': Sys)
    requires Reachable(fx, s) && Next(fx, s, e, s')
    ensures Reachable(fx, s')
  {
    var ss, es :| IsRun(fx, ss, es) && ss[|ss| - 1] == s;
    var longer, events := ss + [s'], es + [e];
    forall k | 0 <= k < |events|
      ensures Next(fx, longer[k], events[k], longer[k + 1])
    {
      assert k < |es| ==> Next(fx, ss[k], es[k], ss[k + 1]);
    }
    assert IsRun(fx, longer, events);
  }

  // ---------------------------------------------------------------------------------------
  // What every reachable state says
  // ---------------------------------------------------------------------------------------

  /** The call's handler ran to success. */
  predicate Succeeded(c: Call) {
    (c.pc.Auditing? || c.pc.Ended?) && c.pc.end.Executed?
  }

  /** The call's handler is running or about to, or its reservation is being given back. */
  predicate InFlight(c: Call) {
    c.pc.Holding? || c.pc.Running? || c.pc.Releasing?
  }

  lemma ClaimsApart(fx: Fixed, keys: set<string>, calls: seq<Call>, i: nat, j: nat)
    requires KeysInv(fx, keys, calls) && i < j < |calls|
    ensures KeyOf(fx, calls[i]) == KeyOf(fx, calls[j]) ==> !Claims(calls[i]) || !Claims(calls[j])
  {
  }

  /** At most one call per key is in flight or has succeeded. */
  lemma AtMostOncePerKey(fx: Fixed, s: Sys, i: nat, j: nat)
    requires Reachable(fx, s) && i < |s.calls| && j < |s.calls| && i != j
    requires KeyOf(fx, s.calls[i]) == KeyOf(fx, s.calls[j])
    requires InFlight(s.calls[i]) || Succeeded(s.calls[i])
    ensures !InFlight(s.calls[j]) && !Succeeded(s.calls[j])
  {
    ReachableSafe(fx, s);
    assert Claims(s.calls[i]);
    ClaimsApart(fx, s.keys, s.calls, if i < j then i else j, if i < j then j else i);
  }

  /** A key is held exactly while such a call exists. */
  lemma HeldIffInFlightOrSucceeded(fx: Fixed, s: Sys, a: Action)
    requires Reachable(fx, s)
    ensures DedupKey(fx.digest, a) in s.keys <==>
              exists i :: 0 <= i < |s.calls| && KeyOf(fx, s.calls[i]) == DedupKey(fx.digest, a)
                          && (InFlight(s.calls[i]) || Succeeded(s.calls[i]))
  {
    ReachableSafe(fx, s);
    var key := DedupKey(fx.digest, a);
    if key in s.keys {
      if IsSlot(key) {
        var kind, date, n :| SlotName(kind, date) && key == SlotKey(kind, date, n);
        ActionKeyIsNoSlot(fx.digest, a, kind, date, n);
        assert false;
      }
      assert Owned(fx, s.calls, key);
      var i :| 0 <= i < |s.calls| && Claims(s.calls[i]) && KeyOf(fx, s.calls[i]) == key;
      assert InFlight(s.calls[i]) || Succeeded(s.calls[i]);
    }
    if i :| 0 <= i < |s.calls| && KeyOf(fx, s.calls[i]) == key && (InFlight(s.calls[i]) || Succeeded(s.calls[i])) {
      assert Claims(s.calls[i]);
    }
  }

  /** A failed or handler-less call gives its key back: the next claimant of that key wins it. */
  lemma FailureFreesKey(fx: Fixed, s: Sys, i: nat, ch: Choice, j: nat, ch': Choice)
    requires Reachable(fx, s) && i < |s.calls| && s.calls[i].pc.Releasing?
    requires s.calls[i].gate < |s.gates| && Timely(s, i, ch)
    requires j < |s.calls| && s.calls[j].gate < |s.gates| && s.calls[j].pc.Claiming? && KeyOf(fx, s.calls[j]) == KeyOf(fx, s.calls[i])
    ensures KeyOf(fx, s.calls[i]) in s.keys && Step(fx, s, j, ch').calls[j].pc == Auditing(Duplicate)
    ensures Shapes(Step(fx, s, i, ch)) && Step(fx, Step(fx, s, i, ch), j, ch').calls[j].pc.Holding?
  {
    ReachableSafe(fx, s);
    assert Claims(s.calls[i]);
    StepKeepsShapes(fx, s, i, ch);
    assert Step(fx, s, i, ch).calls[j] == s.calls[j];
  }

  /** Two calls never run on one slot, and the slot of a run is taken. */
  lemma SlotsAreNotShared(fx: Fixed, s: Sys, i: nat, j: nat)
    requires Reachable(fx, s) && i < |s.calls| && j < |s.calls| && i != j
    requires SlotOf(s.calls[i]).Some?
    ensures SlotOf(s.calls[i]).value in s.keys && SlotOf(s.calls[j]) != SlotOf(s.calls[i])
  {
    ReachableSafe(fx, s);
    var a, b := if i < j then i else j, if i < j then j else i;
    assert SlotOf(s.calls[a]).Some? && SlotOf(s.calls[b]).Some? ==> SlotOf(s.calls[a]).value != SlotOf(s.calls[b]).value;
  }

  /** The largest daily cap any gateway grants this type. */
  function MaxCap(gates: seq<Gateway>, kind: string): nat {
    if gates == [] then 0
    else
      var front, last := MaxCap(gates[..|gates| - 1], kind), KindCap(gates[|gates| - 1].settings.auto, kind);
      if front < last then last else front
  }

  lemma {:induction false} MaxCapBounds(gates: seq<Gateway>, kind: string, g: nat)
    requires g < |gates|
    ensures KindCap(gates[g].settings.auto, kind) <= MaxCap(gates, kind)
  {
    if g < |gates| - 1 { MaxCapBounds(gates[..|gates| - 1], kind, g); }
  }

  lemma {:induction false} LastTaken(gates: seq<Gateway>, keys: set<string>, kind: string, date: string, top: nat)
    returns (k: nat)
    requires SegmentsInv(gates, keys) && SlotName(kind, date)
    requires forall n: nat :: SlotTaken(keys, kind, date, n) ==> n <= top
    ensures k <= top && forall n: nat :: SlotTaken(keys, kind, date, n) <==> 1 <= n <= k
  {
    if SlotTaken(keys, kind, date, top) || top == 0 {
      k := top;
    } else {
      k := LastTaken(gates, keys, kind, date, top - 1);
    }
  }

  /** The slots taken for one type and date are exactly 1..k, with k within the largest cap in use. */
  lemma SlotsFormASegment(fx: Fixed, s: Sys, kind: string, date: string) returns (k: nat)
    requires Reachable(fx, s) && SlotName(kind, date)
    ensures k <= MaxCap(s.gates, kind)
    ensures forall n: nat :: SlotTaken(s.keys, kind, date, n) <==> 1 <= n <= k
  {
    ReachableSafe(fx, s);
    forall n: nat | SlotTaken(s.keys, kind, date, n)
      ensures n <= MaxCap(s.gates, kind)
    {
      var g :| 0 <= g < |s.gates| && n <= KindCap(s.gates[g].settings.auto, kind);
      MaxCapBounds(s.gates, kind, g);
    }
    k := LastTaken(s.gates, s.keys, kind, date, MaxCap(s.gates, kind));
  }

  /** The slot loop sends a call to the human queue only when every slot it may use is taken. */
  lemma RefusedOnlyWhenFull(fx: Fixed, s: Sys, i: nat, date: string, n: nat)
    requires Reachable(fx, s) && i < |s.calls| && s.calls[i].pc == Enqueuing(Some(date))
    requires s.calls[i].gate < |s.gates|
    requires 1 <= n <= DailyCap(s.gates[s.calls[i].gate].settings.auto, s.calls[i].action)
    ensures SemanticType(s.calls[i].action).Some? && SlotTaken(s.keys, SemanticType(s.calls[i].action).value, date, n)
  {
    ReachableSafe(fx, s);
    assert SlotView(s.gates[s.calls[i].gate].settings, s.keys, s.calls[i]);
  }

  // ---------------------------------------------------------------------------------------
  // The daily cap counts executions
  // ---------------------------------------------------------------------------------------

  /** Call `i` succeeded on a slot of this type and date. */
  predicate AutoRun(s: Sys, i: int, kind: string, date: string) {
    && 0 <= i < |s.calls| && Succeeded(s.calls[i])
    && s.calls[i].pc.end.why.AutoSlot? && s.calls[i].pc.end.why.date == date
    && SemanticType(s.calls[i].action) == Some(kind)
  }

  function AutoRuns(s: Sys, kind: string, date: string): set<int> {
    set i | 0 <= i < |s.calls| && AutoRun(s, i, kind, date)
  }

  function SlotNo(s: Sys, i: int): nat
    requires 0 <= i < |s.calls| && Succeeded(s.calls[i]) && s.calls[i].pc.end.why.AutoSlot?
  {
    s.calls[i].pc.end.why.slot
  }

  function UpTo(n: nat): (s: set<nat>)
    ensures |s| == n && forall m: nat :: m in s <==> 1 <= m <= n
  {
    if n == 0 then {} else UpTo(n - 1) + {n}
  }

  /** However many processes and gateways run, at most the largest cap of auto-approved actions of a type execute per day. */
  lemma AutoRunsWithinCap(fx: Fixed, s: Sys, kind: string, date: string)
    requires Reachable(fx, s) && SlotName(kind, date)
    ensures |AutoRuns(s, kind, date)| <= MaxCap(s.gates, kind)
  {
    ReachableSafe(fx, s);
    var cap, runs := MaxCap(s.gates, kind), AutoRuns(s, kind, date);
    var slots := map i | i in runs :: SlotNo(s, i);
    forall i | i in runs
      ensures slots[i] in UpTo(cap)
    {
      SlotWithinCap(s, i, kind, date);
    }
    forall i, j | i in runs && j in runs && i != j
      ensures slots[i] != slots[j]
    {
      SlotsDiffer(fx, s, i, j, kind, date);
    }
    InjectiveCount(runs, slots, UpTo(cap));
  }

  lemma SlotsDiffer(fx: Fixed, s: Sys, i: int, j: int, kind: string, date: string)
    requires Reachable(fx, s) && AutoRun(s, i, kind, date) && AutoRun(s, j, kind, date) && i != j
    ensures SlotNo(s, i) != SlotNo(s, j)
  {
    ReachableSafe(fx, s);
    AutoRunSlot(s, i, kind, date);
    AutoRunSlot(s, j, kind, date);
    SlotsAreNotShared(fx, s, i, j);
  }

  lemma AutoRunSlot(s: Sys, i: int, kind: string, date: string)
    requires AutoRun(s, i, kind, date)
    ensures SlotOf(s.calls[i]) == Some(SlotKey(kind, date, SlotNo(s, i)))
  {
  }

  lemma SlotWithinCap(s: Sys, i: int, kind: string, date: string)
    requires Shapes(s) && AutoRun(s, i, kind, date)
    ensures 1 <= SlotNo(s, i) <= MaxCap(s.gates, kind)
  {
    var c := s.calls[i];
    var g := s.gates[c.gate].settings;
    assert Shape(g, c);
    DailyCapIsKindCap(g.auto, c.action);
    MaxCapBounds(s.gates, kind, c.gate);
  }

  // ---------------------------------------------------------------------------------------
  // Approvals, justification, audit, rate
  // ---------------------------------------------------------------------------------------

  /** A pending approval has no `approve` in flight, and none has returned normally for it. */
  lemma PendingIsUntouched(fx: Fixed, s: Sys, id: nat, i: nat)
    requires Reachable(fx, s) && id < |s.approvals| && s.approvals[id].status == Pending
    requires i < |s.calls| && s.calls[i].request == Approve(id)
    ensures !Consumes(s.calls[i])
  {
    ReachableSafe(fx, s);
    assert ConsumesWell(s.approvals, s.calls[i]);
  }

  lemma ConsumersApart(approvals: seq<Approval>, calls: seq<Call>, i: nat, j: nat)
    requires ApprovalsInv(approvals, calls) && i < j < |calls|
    ensures calls[i].request == calls[j].request ==> !Consumes(calls[i]) || !Consumes(calls[j])
  {
  }

  /** At most one `approve` of an id is in flight or has returned normally, in the whole run. */
  lemma ApprovedAtMostOnce(fx: Fixed, s: Sys, i: nat, j: nat)
    requires Reachable(fx, s) && i < |s.calls| && j < |s.calls| && i != j
    requires s.calls[i].request.Approve? && s.calls[i].request == s.calls[j].request && Consumes(s.calls[i])
    ensures !Consumes(s.calls[j])
  {
    ReachableSafe(fx, s);
    ConsumersApart(s.approvals, s.calls, if i < j then i else j, if i < j then j else i);
  }

  /** A failed run makes the id approvable again, whatever a racing rejection had written. */
  lemma FailedApproveReopens(fx: Fixed, s: Sys, i: nat, ch: Choice)
    requires Reachable(fx, s) && i < |s.calls| && s.calls[i].pc.Reverting?
    ensures s.calls[i].gate < |s.gates| && s.calls[i].request.Approve? && s.calls[i].request.id < |s.approvals|
    ensures s.approvals[s.calls[i].request.id].status != Pending
    ensures Step(fx, s, i, ch).approvals[s.calls[i].request.id].status == Pending
  {
    ReachableSafe(fx, s);
    assert Shape(s.gates[s.calls[i].gate].settings, s.calls[i]) && ConsumesWell(s.approvals, s.calls[i]);
  }

  /**
   Every successful run was authorized: never hard-denied, both switches off, and either allowed
   outright, or approved by a human, or let through by the trust ladder on a slot of its own.
   */
  lemma SuccessIsJustified(fx: Fixed, s: Sys, i: nat)
    requires Reachable(fx, s) && i < |s.calls| && Succeeded(s.calls[i])
    ensures s.calls[i].gate < |s.gates|
    ensures var c := s.calls[i];
            var g := s.gates[c.gate].settings;
            && SwitchesOff(g) && HasHandler(c.request) && !Classify(g.tests, g.allow, c.action).HardDenied?
            && match c.pc.end.why
               case Direct => RouteOf(g.tests, g.allow, g.external, c.action) == Proceed
               case Human => c.request.ExecuteApproved?
                             || (c.request.Approve? && c.request.id < |s.approvals| && s.approvals[c.request.id].action == c.action)
               case AutoSlot(date, n) => AutoOk(g, c.request, c.action) && SemanticType(c.action).Some?
                                         && SlotTaken(s.keys, SemanticType(c.action).value, date, n)
  {
    ReachableSafe(fx, s);
    var c := s.calls[i];
    assert Shape(s.gates[c.gate].settings, c);
    assert ConsumesWell(s.approvals, c);
    if c.pc.end.why.AutoSlot? {
      AutoIsNotHardDenied(s.gates[c.gate].settings, c);
      assert SlotOf(c).Some? && SlotOf(c).value in s.keys;
    }
  }

  /**
   What ran without a human and without a slot: only listed tool calls and commands that ask for
   nobody, and well-formed internal messages. Mail is never among them.
   */
  lemma DirectRunsAreListed(fx: Fixed, s: Sys, i: nat)
    requires Reachable(fx, s) && i < |s.calls| && Succeeded(s.calls[i]) && s.calls[i].pc.end.why.Direct?
    ensures s.calls[i].gate < |s.gates|
    ensures var a := s.calls[i].action;
            var g := s.gates[s.calls[i].gate].settings;
            match KindOf(a)
            case McpTool =>
              && Listed(g.allow, a) && g.tests.mcpRedLine(a).None?
              && (forall k :: 0 <= k < |TOOL_ASK_FIRST| ==> !Contains(Lower(a.tool), TOOL_ASK_FIRST[k]))
              && (a.channel != "" && a.channel in g.external ==> !Contains(Lower(a.tool), "post_message"))
            case GhCli =>
              && StartsWithOne(LowerAll(a.argv), GH_ALLOWED) && g.tests.ghRedLine(a).None?
              && !StartsWithOne(LowerAll(a.argv), GH_ASK_FIRST)
            case TelegramSend => !g.tests.secret(a) && !g.tests.malformed(a)
            case EmailSend => false
            case Foreign => false
  {
    ReachableSafe(fx, s);
    assert Shape(s.gates[s.calls[i].gate].settings, s.calls[i]);
  }

  /**
   What ran on a slot: an email or a Slack post that the configuration grants, to a destination it
   names; asked for in chat only by a trusted sender in a direct Telegram message, and within the
   day's cap.
   */
  lemma AutoRunsAreGranted(fx: Fixed, s: Sys, i: nat)
    requires Reachable(fx, s) && i < |s.calls| && Succeeded(s.calls[i]) && s.calls[i].pc.end.why.AutoSlot?
    ensures s.calls[i].gate < |s.gates|
    ensures var c := s.calls[i];
            var auto := s.gates[c.gate].settings.auto;
            && auto.Some? && SemanticType(c.action).Some? && SemanticType(c.action).value in auto.value.grants
            && var grant := auto.value.grants[SemanticType(c.action).value];
               && grant.enabled && 1 <= c.pc.end.why.slot <= grant.maxPerDay
               && (grant.destinations.Some? ==> Destination(c.action) in grant.destinations.value)
               && (KindOf(c.action) == EmailSend || KindOf(c.action) == McpTool)
               && match c.request
                  case Execute(_, _) => true
                  case Enqueue(_, _, Chat(sender, transport, chatId)) =>
                    transport == "telegram" && sender == chatId != "" && sender in auto.value.trusted
                  case Enqueue(_, _, Scheduled) => true
                  case _ => false
  {
    ReachableSafe(fx, s);
    assert Shape(s.gates[s.calls[i].gate].settings, s.calls[i]);
  }

  /** What each line of the audit log says of the call it is about; a call that raised for its kind leaves none. */
  predicate Reports(v: AuditVerdict, end: End) {
    match v
    case Allow => end.Executed?
    case DryRun => end == DryRan
    case Skipped => end == Duplicate || end == NoHandler
    case PendingLine => end.Queued?
    case RejectLine => end == Declined
    case Deny => end == NotQueued || end == Failed
  }

  /** Every finished call left exactly one audit line, the one of its outcome; an invalid call none. */
  lemma AuditIsExact(fx: Fixed, s: Sys, i: nat, v: AuditVerdict)
    requires Reachable(fx, s) && i < |s.calls| && s.calls[i].pc.Ended?
    ensures multiset(s.audit)[Line(i, v)] ==
              if Reports(v, s.calls[i].pc.end) then 1 else 0
    ensures multiset(s.audit)[Line(i, Allow)] == 1 <==> Succeeded(s.calls[i])
  {
    ReachableSafe(fx, s);
    assert multiset(s.audit)[Line(i, v)] == if Recorded(s.calls[i]) == Some(v) then 1 else 0;
    assert multiset(s.audit)[Line(i, Allow)] == if Recorded(s.calls[i]) == Some(Allow) then 1 else 0;
  }

  /** An allow line is only ever written for a call whose handler succeeded. */
  lemma AllowMeansSucceeded(fx: Fixed, s: Sys, i: nat)
    requires Reachable(fx, s) && Line(i, Allow) in s.audit
    ensures i < |s.calls| && Succeeded(s.calls[i])
  {
    ReachableSafe(fx, s);
    assert multiset(s.audit)[Line(i, Allow)] > 0;
    assert Shape(s.gates[s.calls[i].gate].settings, s.calls[i]);
  }

  /** No closed 60-second window of one gateway's history holds more than ten admissions. */
  lemma RateIsBounded(fx: Fixed, s: Sys, g: nat, i: nat, j: nat)
    requires Reachable(fx, s) && g < |s.gates| && i + MAX_CALLS <= j < |s.gates[g].admitted|
    ensures s.gates[g].admitted[j] - s.gates[g].admitted[i] > WINDOW
  {
    ReachableSafe(fx, s);
    AnyWindow(s.gates[g].admitted, i, j);
  }

  /** A call is turned away by the limit exactly when ten admissions lie in the last 60 seconds. */
  lemma RefusedExactlyAtTheLimit(fx: Fixed, s: Sys, g: nat, now: real)
    requires Reachable(fx, s) && g < |s.gates| && s.gates[g].last <= now
    ensures !Admits(s.gates[g], now) <==> InWindow(s.gates[g].admitted, now) == MAX_CALLS
    ensures InWindow(s.gates[g].admitted, now) <= MAX_CALLS
  {
    ReachableSafe(fx, s);
    TrimKeeps(s.gates[g].admitted, s.gates[g].recent, s.gates[g].last, now);
  }
}
