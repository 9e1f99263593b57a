/**
 What holds in every run of the Action Gateway protocol, under every interleaving: at-most-once
 execution, daily slots, approvals, justified executions, exact audit and the rate limit.
 */
module GatewaySafety {
  import opened ActionPolicy
  import opened GatewayProtocol

  // ---------------------------------------------------------------------------------------
  // Why a call is where it is
  // ---------------------------------------------------------------------------------------

  /** The trust ladder lets this call's action run, and there is something to run. */
  predicate AutoOk(g: Settings, r: Request, a: Action) {
    && HasHandler(r)
    && ((r.Execute? && RouteOf(g.tests, g.allow, g.external, a) == AskHuman && MayAutoApprove(g.auto, a, Scheduled))
        || (r.Enqueue? && Classify(g.tests, g.allow, a) == Allowed && MayAutoApprove(g.auto, a, r.origin)))
  }

  /** What authorizes the action of a call that is past the policy. */
  predicate Because(g: Settings, r: Request, a: Action, why: Why) {
    && KindOf(a) != Foreign && !Classify(g.tests, g.allow, a).HardDenied?
    && match why
       case Direct => r.Execute? && Classify(g.tests, g.allow, a) == Allowed && !NeedsInterrupt(g.external, a)
       case Human => r.ExecuteApproved? || r.Approve?
       case AutoSlot(date, slot) => AutoOk(g, r, a) && ':' !in date && 1 <= slot <= DailyCap(g.auto, a)
  }

  predicate SwitchesOff(g: Settings) {
    !g.writeDisabled && !g.dryRun
  }

  predicate RanWell(g: Settings, r: Request, a: Action, e: End) {
    e.Executed? ==> Because(g, r, a, e.why) && SwitchesOff(g) && HasHandler(r)
  }

  /** The local facts a call carries from step to step. */
  predicate Shape(g: Settings, c: Call) {
    match c.pc
    case Begin => c.request.Approve? || c.request.Reject? || c.action == c.request.action
    case TrySlot(date, slot) =>
      KindOf(c.action) != Foreign && AutoOk(g, c.request, c.action) && ':' !in date && 1 <= slot <= DailyCap(g.auto, c.action) + 1
    case Enqueuing(exhausted) =>
      (c.request.Execute? || c.request.Enqueue?) && (exhausted.Some? ==> AutoOk(g, c.request, c.action) && ':' !in exhausted.value)
    case Guarded(why) => Because(g, c.request, c.action, why)
    case Claiming(why) => Because(g, c.request, c.action, why) && SwitchesOff(g)
    case Holding(why) => Because(g, c.request, c.action, why) && SwitchesOff(g)
    case Running(why) => Because(g, c.request, c.action, why) && SwitchesOff(g) && HasHandler(c.request)
    case Releasing(end) => end == NoHandler || end == Failed
    case Auditing(end) => RanWell(g, c.request, c.action, end) && end != Invalid
    case Reverting(end) => c.request.Approve? && (end == Failed || end == Invalid)
    case Ended(end) => RanWell(g, c.request, c.action, end)
  }

  predicate Shapes(s: Sys) {
    forall i :: 0 <= i < |s.calls| ==> s.calls[i].gate < |s.gates| && Shape(s.gates[s.calls[i].gate].settings, s.calls[i])
  }

  /** The trust ladder never reaches past the red line. */
  lemma AutoIsNotHardDenied(g: Settings, c: Call)
    requires AutoOk(g, c.request, c.action)
    ensures !Classify(g.tests, g.allow, c.action).HardDenied? && SemanticType(c.action).Some?
  {
  }

  lemma StepKeepsShape(fx: Fixed, s: Sys, i: nat, ch: Choice)
    requires i < |s.calls| && Shapes(s) && Timely(s, i, ch)
    ensures Shape(s.gates[s.calls[i].gate].settings, Step(fx, s, i, ch).calls[i])
  {
    match s.calls[i].pc
    case Begin => BeginKeepsShape(fx, s, i, ch);
    case TrySlot(date, slot) => TakeSlotKeepsShape(s, i, date, slot);
    case Guarded(why) => GuardKeepsShape(s, i, why, ch.now);
    case _ => LaterKeepsShape(fx, s.gates[s.calls[i].gate].settings, s.keys, |s.approvals|, s.calls[i], ch);
  }

  lemma BeginKeepsShape(fx: Fixed, s: Sys, i: nat, ch: Choice)
    requires i < |s.calls| && Shapes(s) && ':' !in ch.date && s.calls[i].pc.Begin?
    ensures Shape(s.gates[s.calls[i].gate].settings, Step(fx, s, i, ch).calls[i])
  {
    var c := s.calls[i];
    match c.request
    case Approve(id) =>
      assert Step(fx, s, i, ch) == BeginApprove(s, i, id);
    case Reject(id) =>
      assert Step(fx, s, i, ch) == BeginReject(s, i, id);
    case _ => DecideKeepsShape(s.gates[c.gate].settings, c, ch.date);
  }

  lemma TakeSlotKeepsShape(s: Sys, i: nat, date: string, slot: nat)
    requires i < |s.calls| && Shapes(s) && s.calls[i].pc == TrySlot(date, slot)
    ensures Shape(s.gates[s.calls[i].gate].settings, TakeSlot(s, i, date, slot).calls[i])
  {
    AutoIsNotHardDenied(s.gates[s.calls[i].gate].settings, s.calls[i]);
  }

  lemma GuardKeepsShape(s: Sys, i: nat, why: Why, now: real)
    requires i < |s.calls| && Shapes(s) && s.calls[i].pc == Guarded(why)
    ensures Shape(s.gates[s.calls[i].gate].settings, Guard(s, i, why, now).calls[i])
  {
  }

  lemma LaterKeepsShape(fx: Fixed, g: Settings, keys: set<string>, queued: nat, c: Call, ch: Choice)
    requires Shape(g, c) && !c.pc.Begin? && !c.pc.TrySlot? && !c.pc.Guarded?
    ensures Shape(g, c.(pc := NextPc(fx, keys, queued, c, ch)))
  {
  }

  lemma DecideKeepsShape(g: Settings, c: Call, date: string)
    requires Shape(g, c) && c.pc.Begin? && ':' !in date
    ensures !c.request.Approve? && !c.request.Reject? ==> Shape(g, c.(pc := Decide(g, c, date)))
  {
  }

  lemma StepKeepsShapes(fx: Fixed, s: Sys, i: nat, ch: Choice)
    requires i < |s.calls| && Shapes(s) && Timely(s, i, ch)
    ensures Shapes(Step(fx, s, i, ch))
  {
    StepKeepsShape(fx, s, i, ch);
    var s' := Step(fx, s, i, ch);
    forall k | 0 <= k < |s'.calls|
      ensures Shape(s'.gates[s'.calls[k].gate].settings, s'.calls[k])
    {
      assert s'.calls[k] == if k == i then s'.calls[i] else s.calls[k];
    }
  }

  // ---------------------------------------------------------------------------------------
  // At most once per key
  // ---------------------------------------------------------------------------------------

  /** The call has the reservation of its key: it is in flight, or it has executed. */
  predicate Claims(c: Call) {
    || c.pc.Holding? || c.pc.Running? || c.pc.Releasing?
    || (c.pc.Auditing? && c.pc.end.Executed?)
    || (c.pc.Ended? && c.pc.end.Executed?)
  }

  predicate Owned(fx: Fixed, calls: seq<Call>, key: string) {
    exists i :: 0 <= i < |calls| && Claims(calls[i]) && KeyOf(fx, calls[i]) == key
  }

  ghost predicate IsSlot(key: string) {
    exists kind, date, n :: SlotName(kind, date) && key == SlotKey(kind, date, n)
  }

  ghost predicate KeysInv(fx: Fixed, keys: set<string>, calls: seq<Call>) {
    && (forall i, j :: 0 <= i < j < |calls| && Claims(calls[i]) && Claims(calls[j]) ==>
          KeyOf(fx, calls[i]) != KeyOf(fx, calls[j]))
    && (forall i :: 0 <= i < |calls| && Claims(calls[i]) ==> KeyOf(fx, calls[i]) in keys)
    && forall key :: key in keys ==> Owned(fx, calls, key) || IsSlot(key)
  }

  lemma OwnedThrough(fx: Fixed, calls: seq<Call>, i: nat, c: Call, key: string)
    requires i < |calls| && Owned(fx, calls, key)
    requires Claims(calls[i]) && KeyOf(fx, calls[i]) == key ==> Claims(c) && KeyOf(fx, c) == key
    ensures Owned(fx, calls[i := c], key)
  {
    var j :| 0 <= j < |calls| && Claims(calls[j]) && KeyOf(fx, calls[j]) == key;
    assert calls[i := c][j] == if j == i then c else calls[j];
  }

  /** A step that touches no key and changes no claim. */
  lemma KeysSame(fx: Fixed, keys: set<string>, calls: seq<Call>, i: nat, c: Call)
    requires KeysInv(fx, keys, calls) && i < |calls|
    requires Claims(c) == Claims(calls[i]) && (Claims(c) ==> KeyOf(fx, c) == KeyOf(fx, calls[i]))
    ensures KeysInv(fx, keys, calls[i := c])
  {
    forall key | key in keys && Owned(fx, calls, key)
      ensures Owned(fx, calls[i := c], key)
    {
      OwnedThrough(fx, calls, i, c, key);
    }
  }

  /** `claim` won: nobody else can be holding the key. */
  lemma KeysTaken(fx: Fixed, keys: set<string>, calls: seq<Call>, i: nat, c: Call)
    requires KeysInv(fx, keys, calls) && i < |calls|
    requires !Claims(calls[i]) && Claims(c) && KeyOf(fx, c) !in keys
    ensures KeysInv(fx, keys + {KeyOf(fx, c)}, calls[i := c])
  {
    assert calls[i := c][i] == c;
    forall key | key in keys && Owned(fx, calls, key)
      ensures Owned(fx, calls[i := c], key)
    {
      OwnedThrough(fx, calls, i, c, key);
    }
  }

  /** `release` after a failure: the claim and the key go together. */
  lemma KeysDropped(fx: Fixed, keys: set<string>, calls: seq<Call>, i: nat, c: Call)
    requires KeysInv(fx, keys, calls) && i < |calls|
    requires Claims(calls[i]) && !Claims(c)
    ensures KeysInv(fx, keys - {KeyOf(fx, calls[i])}, calls[i := c])
  {
    forall key | key in keys - {KeyOf(fx, calls[i])} && Owned(fx, calls, key)
      ensures Owned(fx, calls[i := c], key)
    {
      OwnedThrough(fx, calls, i, c, key);
    }
  }

  lemma KeysSlot(fx: Fixed, keys: set<string>, calls: seq<Call>, i: nat, c: Call, slot: string)
    requires KeysInv(fx, keys, calls) && i < |calls| && IsSlot(slot)
    requires !Claims(calls[i]) && !Claims(c)
    ensures KeysInv(fx, keys + {slot}, calls[i := c])
  {
    forall key | key in keys && Owned(fx, calls, key)
      ensures Owned(fx, calls[i := c], key)
    {
      OwnedThrough(fx, calls, i, c, key);
    }
  }

  lemma StepKeepsKeys(fx: Fixed, s: Sys, i: nat, ch: Choice)
    requires i < |s.calls| && Shapes(s) && KeysInv(fx, s.keys, s.calls)
    ensures KeysInv(fx, Step(fx, s, i, ch).keys, Step(fx, s, i, ch).calls)
  {
    var c, c' := s.calls[i], Step(fx, s, i, ch).calls[i];
    match c.pc
    case TrySlot(date, slot) => SlotKeepsKeys(fx, s, i, ch);
    case Claiming(why) =>
      if c'.pc.Holding? { KeysTaken(fx, s.keys, s.calls, i, c'); } else { KeysSame(fx, s.keys, s.calls, i, c'); }
    case Releasing(end) => KeysDropped(fx, s.keys, s.calls, i, c');
    case _ => OtherKeepsKeys(fx, s, i, ch);
  }

  /** A step that neither claims nor releases a key. */
  lemma OtherKeepsKeys(fx: Fixed, s: Sys, i: nat, ch: Choice)
    requires i < |s.calls| && Shapes(s) && KeysInv(fx, s.keys, s.calls)
    requires !s.calls[i].pc.TrySlot? && !s.calls[i].pc.Claiming? && !s.calls[i].pc.Releasing?
    ensures KeysInv(fx, Step(fx, s, i, ch).keys, Step(fx, s, i, ch).calls)
  {
    SameClaim(fx, s, i, ch);
    KeysSame(fx, s.keys, s.calls, i, Step(fx, s, i, ch).calls[i]);
  }

  lemma SameClaim(fx: Fixed, s: Sys, i: nat, ch: Choice)
    requires i < |s.calls| && Shapes(s)
    requires !s.calls[i].pc.TrySlot? && !s.calls[i].pc.Claiming? && !s.calls[i].pc.Releasing?
    ensures var c' := Step(fx, s, i, ch).calls[i];
            && Step(fx, s, i, ch).keys == s.keys && Claims(c') == Claims(s.calls[i])
            && (Claims(c') ==> c'.action == s.calls[i].action)
  {
  }

  lemma SlotKeepsKeys(fx: Fixed, s: Sys, i: nat, ch: Choice)
    requires i < |s.calls| && Shapes(s) && KeysInv(fx, s.keys, s.calls) && s.calls[i].pc.TrySlot?
    ensures KeysInv(fx, Step(fx, s, i, ch).keys, Step(fx, s, i, ch).calls)
  {
    var c, c' := s.calls[i], Step(fx, s, i, ch).calls[i];
    if Step(fx, s, i, ch).keys == s.keys {
      KeysSame(fx, s.keys, s.calls, i, c');
    } else {
      var kind, key := SemanticType(c.action).value, SlotKey(SemanticType(c.action).value, c.pc.date, c.pc.slot);
      SemanticTypeIsName(c.action);
      assert SlotName(kind, c.pc.date) && IsSlot(key);
      KeysSlot(fx, s.keys, s.calls, i, c', key);
    }
  }
}
