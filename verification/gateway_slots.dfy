/**
 The trust ladder's daily slots across every interleaving
 (src/actions/auto_approve_policy.py, `claim_daily_slot`).
 */
module GatewaySlots {
  import opened Common
  import opened ActionPolicy
  import opened GatewayProtocol
  import opened GatewaySafety

  predicate SlotTaken(keys: set<string>, kind: string, date: string, n: nat) {
    SlotKey(kind, date, n) in keys
  }

  predicate TakenUpTo(keys: set<string>, kind: string, date: string, n: nat) {
    forall m: nat :: 1 <= m <= n ==> SlotTaken(keys, kind, date, m)
  }

  /** Slots a configuration grants per day to one type of action. */
  function KindCap(auto: Option<AutoConfig>, kind: string): nat {
    if auto.None? || kind !in auto.value.grants then 0
    else if auto.value.grants[kind].maxPerDay <= 0 then 0 else auto.value.grants[kind].maxPerDay
  }

  lemma DailyCapIsKindCap(auto: Option<AutoConfig>, a: Action)
    requires SemanticType(a).Some?
    ensures DailyCap(auto, a) == KindCap(auto, SemanticType(a).value)
  {
  }

  /** Some gateway grants at least `n` slots a day. */
  predicate CapReaches(gates: seq<Gateway>, kind: string, n: nat) {
    exists g :: 0 <= g < |gates| && n <= KindCap(gates[g].settings.auto, kind)
  }

  /** What a call in the slot loop has seen taken, or a call sent to the queue by it. */
  predicate SlotView(g: Settings, keys: set<string>, c: Call) {
    match c.pc
    case TrySlot(date, n) => SemanticType(c.action).Some? && n >= 1 && TakenUpTo(keys, SemanticType(c.action).value, date, n - 1)
    case Enqueuing(Some(date)) =>
      SemanticType(c.action).Some? && TakenUpTo(keys, SemanticType(c.action).value, date, DailyCap(g.auto, c.action))
    case _ => true
  }

  /** Taken slots form an initial segment, within some gateway's cap. */
  ghost predicate SegmentsInv(gates: seq<Gateway>, keys: set<string>) {
    forall kind, date, n: nat {:trigger SlotTaken(keys, kind, date, n)} :: SlotName(kind, date) && SlotTaken(keys, kind, date, n) ==>
      n >= 1 && CapReaches(gates, kind, n) && TakenUpTo(keys, kind, date, n)
  }

  predicate ViewsInv(s: Sys) {
    forall i :: 0 <= i < |s.calls| ==> s.calls[i].gate < |s.gates| && SlotView(s.gates[s.calls[i].gate].settings, s.keys, s.calls[i])
  }

  /** The step claims slot `n` of this type and date. */
  predicate TakesSlot(c: Call, c': Call, kind: string, date: string, n: nat) {
    c.pc == TrySlot(date, n) && c'.pc == Guarded(AutoSlot(date, n)) && SemanticType(c.action) == Some(kind)
  }

  /** No step frees a slot, and only the slot loop takes one. */
  lemma StepMovesSlots(fx: Fixed, s: Sys, i: nat, ch: Choice, kind: string, date: string, n: nat)
    requires i < |s.calls| && s.calls[i].gate < |s.gates| && Shapes(s) && IsDigest(fx.digest) && SlotName(kind, date)
    ensures SlotTaken(Step(fx, s, i, ch).keys, kind, date, n) <==>
              SlotTaken(s.keys, kind, date, n) || TakesSlot(s.calls[i], Step(fx, s, i, ch).calls[i], kind, date, n)
  {
    var c := s.calls[i];
    ActionKeyIsNoSlot(fx.digest, c.action, kind, date, n);
    if c.pc.TrySlot? && SemanticType(c.action).Some? {
      SemanticTypeIsName(c.action);
      if SlotKey(SemanticType(c.action).value, c.pc.date, c.pc.slot) == SlotKey(kind, date, n) {
        SlotKeyInjective(SemanticType(c.action).value, c.pc.date, c.pc.slot, kind, date, n);
      }
    }
  }

  ghost predicate SlotsKept(keys: set<string>, keys': set<string>) {
    forall kind, date, n: nat {:trigger SlotTaken(keys', kind, date, n)} ::
      SlotName(kind, date) && SlotTaken(keys, kind, date, n) ==> SlotTaken(keys', kind, date, n)
  }

  lemma StepKeepsSlots(fx: Fixed, s: Sys, i: nat, ch: Choice)
    requires i < |s.calls| && Shapes(s) && IsDigest(fx.digest)
    ensures SlotsKept(s.keys, Step(fx, s, i, ch).keys)
  {
    forall kind, date, n: nat | SlotName(kind, date) && SlotTaken(s.keys, kind, date, n)
      ensures SlotTaken(Step(fx, s, i, ch).keys, kind, date, n)
    {
      StepMovesSlots(fx, s, i, ch, kind, date, n);
    }
  }

  lemma TakenThrough(keys: set<string>, keys': set<string>, kind: string, date: string, n: nat)
    requires SlotsKept(keys, keys') && SlotName(kind, date) && TakenUpTo(keys, kind, date, n)
    ensures TakenUpTo(keys', kind, date, n)
  {
    forall m: nat | 1 <= m <= n
      ensures SlotTaken(keys', kind, date, m)
    {
      assert SlotTaken(keys, kind, date, m);
    }
  }

  lemma CapThrough(gates: seq<Gateway>, gates': seq<Gateway>, kind: string, n: nat)
    requires CapReaches(gates, kind, n) && |gates'| == |gates|
    requires forall k :: 0 <= k < |gates| ==> gates'[k].settings == gates[k].settings
    ensures CapReaches(gates', kind, n)
  {
    var g :| 0 <= g < |gates| && n <= KindCap(gates[g].settings.auto, kind);
    assert n <= KindCap(gates'[g].settings.auto, kind);
  }

  /** The loop reaches slot `n` only past slots that are taken, and only within the cap. */
  lemma TakenSlotIsNext(fx: Fixed, s: Sys, i: nat, ch: Choice, kind: string, date: string, n: nat)
    requires i < |s.calls| && Shapes(s) && ViewsInv(s) && IsDigest(fx.digest) && SlotName(kind, date)
    requires TakesSlot(s.calls[i], Step(fx, s, i, ch).calls[i], kind, date, n)
    ensures n >= 1 && CapReaches(s.gates, kind, n) && TakenUpTo(s.keys, kind, date, n - 1)
  {
    var c := s.calls[i];
    DailyCapIsKindCap(s.gates[c.gate].settings.auto, c.action);
    assert n <= KindCap(s.gates[c.gate].settings.auto, kind);
  }

  lemma StepKeepsSegments(fx: Fixed, s: Sys, i: nat, ch: Choice)
    requires i < |s.calls| && Shapes(s) && ViewsInv(s) && SegmentsInv(s.gates, s.keys) && IsDigest(fx.digest)
    ensures SegmentsInv(Step(fx, s, i, ch).gates, Step(fx, s, i, ch).keys)
  {
    var s' := Step(fx, s, i, ch);
    StepKeepsSlots(fx, s, i, ch);
    forall kind, date, n: nat | SlotName(kind, date) && SlotTaken(s'.keys, kind, date, n)
      ensures n >= 1 && CapReaches(s'.gates, kind, n) && TakenUpTo(s'.keys, kind, date, n)
    {
      StepMovesSlots(fx, s, i, ch, kind, date, n);
      if SlotTaken(s.keys, kind, date, n) {
        TakenThrough(s.keys, s'.keys, kind, date, n);
      } else {
        TakenSlotIsNext(fx, s, i, ch, kind, date, n);
        TakenThrough(s.keys, s'.keys, kind, date, n - 1);
      }
      CapThrough(s.gates, s'.gates, kind, n);
    }
  }

  lemma ViewThrough(g: Settings, keys: set<string>, keys': set<string>, c: Call)
    requires Shape(g, c) && SlotView(g, keys, c) && SlotsKept(keys, keys')
    ensures SlotView(g, keys', c)
  {
    match c.pc
    case TrySlot(date, n) =>
      SemanticTypeIsName(c.action);
      TakenThrough(keys, keys', SemanticType(c.action).value, date, n - 1);
    case Enqueuing(Some(date)) =>
      SemanticTypeIsName(c.action);
      TakenThrough(keys, keys', SemanticType(c.action).value, date, DailyCap(g.auto, c.action));
    case _ =>
  }

  /** One turn of the loop: the slot was taken, so it moves on, and past the cap it gives up. */
  lemma TurnKeepsView(s: Sys, i: nat, date: string, n: nat)
    requires i < |s.calls| && Shapes(s) && ViewsInv(s) && s.calls[i].pc == TrySlot(date, n)
    requires TakeSlot(s, i, date, n).keys == s.keys
    ensures SlotView(s.gates[s.calls[i].gate].settings, s.keys, TakeSlot(s, i, date, n).calls[i])
  {
    var c := s.calls[i];
    var kind := SemanticType(c.action).value;
    if n <= DailyCap(s.gates[c.gate].settings.auto, c.action) {
      assert SlotKey(kind, date, n) in TakeSlot(s, i, date, n).keys;
      assert SlotTaken(s.keys, kind, date, n);
    }
  }

  lemma StepKeepsView(fx: Fixed, s: Sys, i: nat, ch: Choice)
    requires i < |s.calls| && Shapes(s) && ViewsInv(s) && IsDigest(fx.digest) && Timely(s, i, ch)
    ensures SlotView(s.gates[s.calls[i].gate].settings, Step(fx, s, i, ch).keys, Step(fx, s, i, ch).calls[i])
  {
    var c, s' := s.calls[i], Step(fx, s, i, ch);
    match c.pc
    case TrySlot(date, n) =>
      if s'.keys == s.keys { TurnKeepsView(s, i, date, n); }
    case Begin => BeginView(fx, s, i, ch);
    case Ended(_) => assert s'.keys == s.keys;
    case _ =>
  }

  lemma BeginView(fx: Fixed, s: Sys, i: nat, ch: Choice)
    requires i < |s.calls| && Shapes(s) && s.calls[i].pc.Begin? && ':' !in ch.date
    ensures SlotView(s.gates[s.calls[i].gate].settings, Step(fx, s, i, ch).keys, Step(fx, s, i, ch).calls[i])
  {
    var c, g := s.calls[i], s.gates[s.calls[i].gate].settings;
    if !c.request.Approve? && !c.request.Reject? {
      DecideKeepsShape(g, c, ch.date);
      if Decide(g, c, ch.date).TrySlot? {
        AutoIsNotHardDenied(g, c);
      }
    }
  }

  lemma StepKeepsViews(fx: Fixed, s: Sys, i: nat, ch: Choice)
    requires i < |s.calls| && Shapes(s) && ViewsInv(s) && IsDigest(fx.digest) && Timely(s, i, ch)
    ensures ViewsInv(Step(fx, s, i, ch))
  {
    var s' := Step(fx, s, i, ch);
    StepKeepsSlots(fx, s, i, ch);
    StepKeepsView(fx, s, i, ch);
    forall k | 0 <= k < |s'.calls|
      ensures SlotView(s'.gates[s'.calls[k].gate].settings, s'.keys, s'.calls[k])
    {
      if k != i {
        assert s'.calls[k] == s.calls[k];
        ViewThrough(s.gates[s.calls[k].gate].settings, s.keys, s'.keys, s.calls[k]);
      }
    }
  }

  // ---------------------------------------------------------------------------------------
  // One call per slot
  // ---------------------------------------------------------------------------------------

  function WhyOf(pc: Pc): Option<Why> {
    match pc
    case Guarded(why) => Some(why)
    case Claiming(why) => Some(why)
    case Holding(why) => Some(why)
    case Running(why) => Some(why)
    case Auditing(Executed(why)) => Some(why)
    case Ended(Executed(why)) => Some(why)
    case _ => None
  }

  /** The slot a call runs on. */
  function SlotOf(c: Call): Option<string> {
    match WhyOf(c.pc)
    case Some(AutoSlot(date, n)) =>
      if SemanticType(c.action).Some? then Some(SlotKey(SemanticType(c.action).value, date, n)) else None
    case _ => None
  }

  predicate OwnersInv(keys: set<string>, calls: seq<Call>) {
    && (forall i :: 0 <= i < |calls| && SlotOf(calls[i]).Some? ==> SlotOf(calls[i]).value in keys)
    && forall i, j :: 0 <= i < j < |calls| && SlotOf(calls[i]).Some? && SlotOf(calls[j]).Some? ==>
         SlotOf(calls[i]).value != SlotOf(calls[j]).value
  }

  /** A step keeps a call's slot, gives it up, or takes one that nobody had. */
  lemma StepMovesOwner(fx: Fixed, s: Sys, i: nat, ch: Choice)
    requires i < |s.calls| && Shapes(s)
    ensures var before, after := SlotOf(s.calls[i]), SlotOf(Step(fx, s, i, ch).calls[i]);
            after == before || after.None? || (after.value !in s.keys && after.value in Step(fx, s, i, ch).keys)
  {
    var c := s.calls[i];
    match c.pc
    case Begin => BeginHasNoSlot(fx, s, i, ch);
    case TrySlot(date, slot) => TakenSlotIsNew(s, i, date, slot);
    case Guarded(why) => GuardKeepsSlot(s, i, why, ch.now);
    case _ => LaterKeepsSlot(fx, s.keys, |s.approvals|, c, ch);
  }

  lemma TakenSlotIsNew(s: Sys, i: nat, date: string, slot: nat)
    requires i < |s.calls| && s.calls[i].gate < |s.gates| && s.calls[i].pc == TrySlot(date, slot)
    ensures var after := SlotOf(TakeSlot(s, i, date, slot).calls[i]);
            after.None? || (after.value !in s.keys && after.value in TakeSlot(s, i, date, slot).keys)
  {
  }

  lemma GuardKeepsSlot(s: Sys, i: nat, why: Why, now: real)
    requires i < |s.calls| && s.calls[i].gate < |s.gates| && s.calls[i].pc == Guarded(why)
    ensures var after := SlotOf(Guard(s, i, why, now).calls[i]);
            after.None? || after == SlotOf(s.calls[i])
  {
  }

  lemma LaterKeepsSlot(fx: Fixed, keys: set<string>, queued: nat, c: Call, ch: Choice)
    requires !c.pc.Begin? && !c.pc.TrySlot? && !c.pc.Guarded?
    requires (c.pc.Releasing? ==> !c.pc.end.Executed?) && (c.pc.Reverting? ==> !c.pc.end.Executed?)
    ensures var after := SlotOf(c.(pc := NextPc(fx, keys, queued, c, ch)));
            after.None? || after == SlotOf(c)
  {
  }

  lemma BeginHasNoSlot(fx: Fixed, s: Sys, i: nat, ch: Choice)
    requires i < |s.calls| && Shapes(s) && s.calls[i].pc.Begin?
    ensures SlotOf(Step(fx, s, i, ch).calls[i]).None?
  {
  }

  lemma OwnedSlotStays(fx: Fixed, s: Sys, i: nat, ch: Choice, k: nat)
    requires i < |s.calls| && k < |s.calls| && Shapes(s) && IsDigest(fx.digest)
    requires SlotOf(s.calls[k]).Some? && SlotOf(s.calls[k]).value in s.keys
    ensures SlotOf(s.calls[k]).value in Step(fx, s, i, ch).keys
  {
    var c := s.calls[k];
    var date, n := WhyOf(c.pc).value.date, WhyOf(c.pc).value.slot;
    SemanticTypeIsName(c.action);
    StepMovesSlots(fx, s, i, ch, SemanticType(c.action).value, date, n);
  }

  lemma StepKeepsOwners(fx: Fixed, s: Sys, i: nat, ch: Choice)
    requires i < |s.calls| && Shapes(s) && IsDigest(fx.digest) && OwnersInv(s.keys, s.calls)
    ensures OwnersInv(Step(fx, s, i, ch).keys, Step(fx, s, i, ch).calls)
  {
    var s' := Step(fx, s, i, ch);
    StepMovesOwner(fx, s, i, ch);
    forall k | 0 <= k < |s.calls| && SlotOf(s.calls[k]).Some?
      ensures SlotOf(s.calls[k]).value in s'.keys
    {
      OwnedSlotStays(fx, s, i, ch, k);
    }
    assert forall k :: 0 <= k < |s.calls| && k != i ==> s'.calls[k] == s.calls[k];
  }
}
