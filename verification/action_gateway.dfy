/**
 The Action Gateway as it runs, one call at a time, over its stores
 (src/actions/action_gateway.py, dedup_store.py, approval_store.py): every method is a schedule of
 the protocol's atomic steps in which no other call interferes.
 */
module ActionGateways {
  import opened Common
  import opened ActionPolicy
  import opened RateLimit
  import opened GatewayProtocol
  import opened GatewayOutcomes
  import opened GatewayRuns

  // ---------------------------------------------------------------------------------------
  // Stores
  // ---------------------------------------------------------------------------------------

  class DedupStore {
    var keys: set<string>

    constructor ()
      ensures keys == {}
    {
      keys := {};
    }

    /** Insert-or-ignore: whether this call inserted the key. */
    method Claim(key: string) returns (won: bool)
      modifies this
      ensures won <==> key !in old(keys)
      ensures keys == old(keys) + {key}
    {
      won := key !in keys;
      keys := keys + {key};
    }

    method Release(key: string)
      modifies this
      ensures keys == old(keys) - {key}
    {
      keys := keys - {key};
    }
  }

  class ApprovalStore {
    var rows: seq<Approval>

    constructor ()
      ensures rows == []
    {
      rows := [];
    }

    method Enqueue(a: Action) returns (id: nat)
      modifies this
      ensures id == |old(rows)| && rows == old(rows) + [Approval(a, Pending)]
    {
      id := |rows|;
      rows := rows + [Approval(a, Pending)];
    }

    /** Compare-and-set from pending. */
    method TransitionIfPending(id: nat, status: ApprovalStatus) returns (won: bool)
      modifies this
      ensures won <==> id < |old(rows)| && old(rows)[id].status == Pending
      ensures rows == if won then old(rows)[id := old(rows)[id].(status := status)] else old(rows)
    {
      won := id < |rows| && rows[id].status == Pending;
      if won {
        rows := rows[id := rows[id].(status := status)];
      }
    }

    /** Unconditional. */
    method SetStatus(id: nat, status: ApprovalStatus)
      modifies this
      ensures rows == if id < |old(rows)| then old(rows)[id := old(rows)[id].(status := status)] else old(rows)
    {
      if id < |rows| {
        rows := rows[id := rows[id].(status := status)];
      }
    }
  }

  class AuditLog {
    var lines: seq<Line>

    constructor ()
      ensures lines == []
    {
      lines := [];
    }

    method Record(call: nat, verdict: AuditVerdict)
      modifies this
      ensures lines == old(lines) + [Line(call, verdict)]
    {
      lines := lines + [Line(call, verdict)];
    }
  }

  // ---------------------------------------------------------------------------------------
  // Undisturbed schedules
  // ---------------------------------------------------------------------------------------

  predicate Runnable(s: Sys, i: nat) {
    i < |s.calls| && s.calls[i].gate < |s.gates|
  }

  /** One step of one call, as a function of the state. */
  function Stepper(fx: Fixed, i: nat, ch: Choice): Sys -> Sys {
    (s: Sys) => if Runnable(s, i) then Step(fx, s, i, ch) else s
  }

  /** `n` consecutive steps of one call. */
  function Solo(fx: Fixed, s: Sys, i: nat, ch: Choice, n: nat): Sys {
    Iterate(Stepper(fx, i, ch), s, n)
  }

  lemma SoloOne(fx: Fixed, s: Sys, i: nat, ch: Choice)
    requires Runnable(s, i)
    ensures Solo(fx, s, i, ch, 1) == Step(fx, s, i, ch)
  {
    assert Iterate(Stepper(fx, i, ch), s, 1) == Stepper(fx, i, ch)(Iterate(Stepper(fx, i, ch), s, 0));
  }

  lemma SoloAdds(fx: Fixed, s: Sys, i: nat, ch: Choice, m: nat, n: nat)
    ensures Solo(fx, s, i, ch, m + n) == Solo(fx, Solo(fx, s, i, ch, m), i, ch, n)
  {
    IterateAdds(Stepper(fx, i, ch), s, m, n);
  }

  lemma SoloThen(fx: Fixed, s: Sys, i: nat, ch: Choice, n: nat)
    requires Runnable(Solo(fx, s, i, ch, n), i)
    ensures Solo(fx, s, i, ch, n + 1) == Step(fx, Solo(fx, s, i, ch, n), i, ch)
  {
  }

  /** Where a call stands once its outcome is on record: a failed `approve` still has to hand back. */
  function Answered(r: Request, end: End): Pc {
    if end == Failed && r.Approve? then Reverting(Failed) else Ended(end)
  }

  /** The state in which a new call has just arrived. */
  function Opened(s: Sys, r: Request, a: Action): Sys {
    s.(calls := s.calls + [Call(0, r, a, Begin)])
  }

  /** The call ran to its end without interference, in `n` steps of the protocol. */
  ghost predicate Answers(fx: Fixed, before: Sys, r: Request, a: Action, ch: Choice, n: nat, after: Sys, end: End) {
    && after == Solo(fx, Opened(before, r, a), |before.calls|, ch, n)
    && |before.calls| < |after.calls| && after.calls[|before.calls|].pc == Ended(end)
  }

  /** The slot loop took the first free slot, or none was free. */
  predicate TookSlot(keys: set<string>, keys': set<string>, kind: string, date: string, cap: nat, slot: Option<nat>) {
    if slot.Some? then FirstFree(keys, kind, date, cap, slot.value) && keys' == keys + {SlotKey(kind, date, slot.value)}
    else keys' == keys && TakenBelow(keys, kind, date, cap + 1)
  }

  /** One turn: the slot was free and is taken now, or the turn passes to the next one. */
  predicate TookTurn(keys: set<string>, keys': set<string>, kind: string, date: string, cap: nat, next: nat, won: bool) {
    if won then TookSlot(keys, keys', kind, date, cap, Some(next))
    else keys' == keys && TakenBelow(keys, kind, date, next + 1)
  }

  /** Taking a slot does not take the key of the action. */
  lemma SlotsSettled(fx: Fixed, g: Settings, a: Action, keys: set<string>, keys': set<string>, date: string, queued: nat, w: Way,
                     slot: Option<nat>, end: End)
    requires SemanticType(a).Some? && TookSlot(keys, keys', SemanticType(a).value, date, DailyCap(g.auto, a), slot)
    requires w.held == (DedupKey(fx.digest, a) in keys)
    requires end == if slot.Some? then EndPast(g, w.(held := DedupKey(fx.digest, a) in keys'), AutoSlot(date, slot.value))
                    else Queued(queued)
    ensures IsDigest(fx.digest) ==> EndOnSlots(g, keys, a, date, queued, w, end)
  {
    var kind, cap := SemanticType(a).value, DailyCap(g.auto, a);
    if slot.Some? && IsDigest(fx.digest) {
      ActionKeyIsNoSlot(fx.digest, a, kind, date, slot.value);
      forall n: nat | FirstFree(keys, kind, date, cap, n)
        ensures n == slot.value
      {
        FirstFreeUnique(keys, kind, date, cap, n, slot.value);
      }
    }
  }

  // ---------------------------------------------------------------------------------------
  // The gateway
  // ---------------------------------------------------------------------------------------

  class ActionGateway {
    const fx: Fixed
    const settings: Settings
    const dedup: DedupStore
    const approvals: ApprovalStore
    const audit: AuditLog
    var recent: seq<real>
    var calls: nat
    ghost var last: real
    ghost var admitted: seq<real>
    ghost var history: seq<Call>

    constructor (f: Fixed, g: Settings, d: DedupStore, a: ApprovalStore, log: AuditLog)
      ensures fx == f && settings == g && dedup == d && approvals == a && audit == log
      ensures recent == [] && history == [] && admitted == [] && Valid()
    {
      fx, settings, dedup, approvals, audit := f, g, d, a, log;
      recent, calls, last, admitted, history := [], 0, 0.0, [], [];
    }

    ghost predicate Valid()
      reads this
    {
      |history| == calls && forall i :: 0 <= i < |history| ==> history[i].gate == 0
    }

    /** The gateway and its stores as a state of the protocol. */
    ghost function View(): Sys
      reads this, dedup, approvals, audit
    {
      Sys([Gateway(settings, recent, last, admitted)], dedup.keys, approvals.rows, history, audit.lines)
    }

    /** Ten calls are left in the short list once the old ones are popped. */
    ghost predicate Crowded(now: real)
      reads this
    {
      !Admits(Gateway(settings, recent, last, admitted), now)
    }

    /** What a call past the policy is going to meet. */
    ghost function WayOf(action: Action, hasHandler: bool, ch: Choice): Way
      reads this, dedup
    {
      Way(Crowded(ch.now), DedupKey(fx.digest, action) in dedup.keys, hasHandler, ch.handlerOk)
    }

    /** The short list is the recent part of the whole history, and the clock has not gone back. */
    ghost predicate Steady(now: real)
      reads this
    {
      IsDigest(fx.digest) && History(admitted, recent, last) && last <= now
    }

    ghost method Move(i: nat, pc: Pc)
      requires Valid() && i < |history|
      modifies this`history
      ensures Valid() && history == old(history)[i := old(history)[i].(pc := pc)]
    {
      history := history[i := history[i].(pc := pc)];
    }

    /** `_record`, the last thing a call does before it answers. */
    method Record(i: nat, end: End, ghost ch: Choice)
      requires Valid() && i < |history| && history[i].pc == Auditing(end)
      modifies this`history, audit
      ensures Valid() && View() == Step(fx, old(View()), i, ch)
      ensures history[i] == old(history)[i].(pc := Answered(old(history)[i].request, end))
    {
      audit.Record(i, VerdictOf(end));
      Move(i, Answered(history[i].request, end));
    }

    /** The `popleft` loop. */
    method PopOld(cutoff: real)
      modifies this`recent
      ensures recent == Trimmed(old(recent), cutoff)
    {
      while recent != [] && recent[0] < cutoff
        invariant Trimmed(recent, cutoff) == Trimmed(old(recent), cutoff)
        decreases |recent|
      {
        recent := recent[1..];
      }
    }

    /** `_check_rate_limit`. */
    method CheckRateLimit(now: real) returns (ok: bool)
      modifies this`recent, this`last, this`admitted
      ensures var g := Gateway(settings, old(recent), old(last), old(admitted));
              && (ok <==> Admits(g, now))
              && Gateway(settings, recent, last, admitted) == CheckedRate(g, now)
    {
      PopOld(now - WINDOW);
      last := now;
      ok := |recent| < MAX_CALLS;
      if ok {
        recent := recent + [now];
        admitted := admitted + [now];
      }
    }

    /** Kill switch, dry run and rate limit, in this order. */
    method PassGuards(i: nat, why: Why, ch: Choice) returns (stopped: Option<End>)
      requires Valid() && i < |history| && history[i].pc == Guarded(why)
      modifies this`recent, this`last, this`admitted, this`history
      ensures Valid() && View() == Solo(fx, old(View()), i, ch, 1)
      ensures history[i] == old(history)[i].(pc := if stopped.Some? then Auditing(stopped.value) else Claiming(why))
      ensures stopped == if settings.writeDisabled then Some(Failed) else if settings.dryRun then Some(DryRan)
                         else if old(Crowded(ch.now)) then Some(Failed) else None
    {
      ghost var start := View();
      if settings.writeDisabled {
        stopped := Some(Failed);
      } else if settings.dryRun {
        stopped := Some(DryRan);
      } else {
        var ok := CheckRateLimit(ch.now);
        stopped := if ok then None else Some(Failed);
      }
      Move(i, if stopped.Some? then Auditing(stopped.value) else Claiming(why));
      assert View() == Guard(start, i, why, ch.now);
      SoloOne(fx, start, i, ch);
    }

    /** `claim`. */
    method ClaimKey(i: nat, why: Why, key: string, ghost ch: Choice) returns (won: bool)
      requires Valid() && i < |history| && history[i].pc == Claiming(why) && KeyOf(fx, history[i]) == key
      modifies this`history, dedup
      ensures Valid() && View() == Solo(fx, old(View()), i, ch, 1)
      ensures history[i] == old(history)[i].(pc := if won then Holding(why) else Auditing(Duplicate))
      ensures won <==> key !in old(dedup.keys)
    {
      ghost var start := View();
      won := dedup.Claim(key);
      Move(i, if won then Holding(why) else Auditing(Duplicate));
      SoloOne(fx, start, i, ch);
    }

    /** `release`. */
    method GiveBack(i: nat, key: string, end: End, ghost ch: Choice)
      requires Valid() && i < |history| && history[i].pc == Releasing(end) && KeyOf(fx, history[i]) == key
      modifies this`history, dedup
      ensures Valid() && View() == Solo(fx, old(View()), i, ch, 1)
      ensures history[i] == old(history)[i].(pc := Auditing(end))
    {
      ghost var start := View();
      dedup.Release(key);
      Move(i, Auditing(end));
      SoloOne(fx, start, i, ch);
    }

    /** Run the handler if there is one; a missing or failing handler gives the key back. */
    method RunHandler(i: nat, why: Why, key: string, hasHandler: bool, ch: Choice) returns (end: End, ghost n: nat)
      requires Valid() && i < |history| && history[i].pc == Holding(why) && KeyOf(fx, history[i]) == key
      requires HasHandler(history[i].request) == hasHandler
      modifies this`history, dedup
      ensures Valid() && View() == Solo(fx, old(View()), i, ch, n)
      ensures history[i] == old(history)[i].(pc := Auditing(end))
      ensures end == if !hasHandler then NoHandler else if ch.handlerOk then Executed(why) else Failed
    {
      ghost var start := View();
      Move(i, if hasHandler then Running(why) else Releasing(NoHandler));
      SoloOne(fx, start, i, ch);
      ghost var called := View();
      if hasHandler && ch.handlerOk {
        Move(i, Auditing(Executed(why)));
        SoloThen(fx, start, i, ch, 1);
        return Executed(why), 2;
      }
      n := 1;
      if hasHandler {
        Move(i, Releasing(Failed));
        SoloThen(fx, start, i, ch, 1);
        n := 2;
      }
      end := if hasHandler then Failed else NoHandler;
      SoloAdds(fx, start, i, ch, n, 1);
      GiveBack(i, key, end, ch);
      n := n + 1;
    }

    /** Reserve the key, then run. */
    method ReserveAndRun(i: nat, why: Why, action: Action, hasHandler: bool, ch: Choice) returns (end: End, ghost n: nat)
      requires Valid() && i < |history| && history[i].pc == Claiming(why) && history[i].action == action
      requires HasHandler(history[i].request) == hasHandler
      modifies this`history, dedup
      ensures Valid() && View() == Solo(fx, old(View()), i, ch, n)
      ensures history[i] == old(history)[i].(pc := Auditing(end))
      ensures end == if DedupKey(fx.digest, action) in old(dedup.keys) then Duplicate
                     else if !hasHandler then NoHandler else if ch.handlerOk then Executed(why) else Failed
    {
      ghost var start := View();
      var key := DedupKey(fx.digest, action);
      var won := ClaimKey(i, why, key, ch);
      if !won {
        return Duplicate, 1;
      }
      end, n := RunHandler(i, why, key, hasHandler, ch);
      SoloAdds(fx, start, i, ch, 1, n);
      n := 1 + n;
    }

    /** From past the policy to the answer: what `execute`, `approve` and the trust ladder share. */
    method GuardAndRun(i: nat, why: Why, action: Action, hasHandler: bool, ch: Choice) returns (end: End, ghost n: nat)
      requires Valid() && i < |history| && history[i].pc == Guarded(why) && history[i].action == action
      requires HasHandler(history[i].request) == hasHandler
      modifies this`recent, this`last, this`admitted, this`history, dedup, audit
      ensures Valid() && View() == Solo(fx, old(View()), i, ch, n)
      ensures history[i] == old(history)[i].(pc := Answered(old(history)[i].request, end))
      ensures end == EndPast(settings, old(WayOf(action, hasHandler, ch)), why)
    {
      ghost var start := View();
      var stopped := PassGuards(i, why, ch);
      if stopped.Some? {
        end, n := stopped.value, 1;
      } else {
        end, n := ReserveAndRun(i, why, action, hasHandler, ch);
        SoloAdds(fx, start, i, ch, 1, n);
        n := 1 + n;
      }
      Record(i, end, ch);
      SoloThen(fx, start, i, ch, n);
      n := n + 1;
    }

    /** A call arrives. */
    method Open(request: Request, action: Action) returns (i: nat)
      requires Valid()
      modifies this`calls, this`history
      ensures Valid() && i == old(calls) && history == old(history) + [Call(0, request, action, Begin)]
      ensures View() == Opened(old(View()), request, action)
    {
      i := calls;
      calls := calls + 1;
      history := history + [Call(0, request, action, Begin)];
    }

    /** The decision taken before any store is touched. */
    method Go(i: nat, request: Request, ch: Choice) returns (pc: Pc)
      requires Valid() && i < |history| && !request.Approve? && !request.Reject?
      requires history[i] == Call(0, request, request.action, Begin)
      modifies this`history
      ensures Valid() && View() == Solo(fx, old(View()), i, ch, 1)
      ensures i < |history| && history[i] == Call(0, request, request.action, pc) && GoesTo(pc, request, ch.date)
      ensures pc == Decide(settings, Call(0, request, request.action, Begin), ch.date)
    {
      ghost var start := View();
      pc := Decide(settings, Call(0, request, request.action, Begin), ch.date);
      DecideGoes(settings, Call(0, request, request.action, Begin), ch.date);
      Move(i, pc);
      SoloOne(fx, start, i, ch);
    }

    /** `claim_daily_slot`: the first free slot up to the cap. */
    method ClaimDailySlot(i: nat, action: Action, ch: Choice) returns (slot: Option<nat>, ghost n: nat)
      requires Valid() && i < |history| && history[i].pc == TrySlot(ch.date, 1) && history[i].action == action
      requires SemanticType(action).Some?
      modifies this`history, dedup
      ensures Valid() && View() == Solo(fx, old(View()), i, ch, n)
      ensures history[i] == old(history)[i].(pc := if slot.Some? then Guarded(AutoSlot(ch.date, slot.value)) else Enqueuing(Some(ch.date)))
      ensures TookSlot(old(dedup.keys), dedup.keys, SemanticType(action).value, ch.date, DailyCap(settings.auto, action), slot)
    {
      ghost var start, call := View(), history[i];
      var cap := DailyCap(settings.auto, action);
      var next := 1;
      n := 0;
      while next <= cap
        invariant 1 <= next <= cap + 1 && Valid() && i < |history|
        invariant history[i] == call.(pc := TrySlot(ch.date, next))
        invariant View() == Solo(fx, start, i, ch, n)
        invariant dedup.keys == old(dedup.keys)
        invariant TakenBelow(dedup.keys, SemanticType(action).value, ch.date, next)
      {
        var won := TakeTurn(i, action, next, start, n, ch);
        n := n + 1;
        if won {
          return Some(next), n;
        }
        next := next + 1;
      }
      GiveUpSlots(i, action, next, start, n, ch);
      return None, n + 1;
    }

    /** Past the cap: into the human queue. */
    ghost method GiveUpSlots(i: nat, action: Action, next: nat, start: Sys, n: nat, ch: Choice)
      requires Valid() && i < |history| && history[i].pc == TrySlot(ch.date, next) && history[i].action == action
      requires next > DailyCap(settings.auto, action) && View() == Solo(fx, start, i, ch, n)
      modifies this`history
      ensures Valid() && View() == Solo(fx, start, i, ch, n + 1)
      ensures history[i] == old(history)[i].(pc := Enqueuing(Some(ch.date)))
    {
      Move(i, Enqueuing(Some(ch.date)));
      SoloThen(fx, start, i, ch, n);
    }

    /** One turn of that loop. */
    method TakeTurn(i: nat, action: Action, next: nat, ghost start: Sys, ghost n: nat, ch: Choice) returns (won: bool)
      requires Valid() && i < |history| && history[i].pc == TrySlot(ch.date, next) && history[i].action == action
      requires SemanticType(action).Some? && next <= DailyCap(settings.auto, action)
      requires View() == Solo(fx, start, i, ch, n)
      requires 1 <= next && TakenBelow(dedup.keys, SemanticType(action).value, ch.date, next)
      modifies this`history, dedup
      ensures Valid() && i < |history| && View() == Solo(fx, start, i, ch, n + 1)
      ensures history[i] == old(history)[i].(pc := if won then Guarded(AutoSlot(ch.date, next)) else TrySlot(ch.date, next + 1))
      ensures TookTurn(old(dedup.keys), dedup.keys, SemanticType(action).value, ch.date, DailyCap(settings.auto, action), next, won)
    {
      ghost var before := View();
      won := dedup.Claim(SlotKey(SemanticType(action).value, ch.date, next));
      Move(i, if won then Guarded(AutoSlot(ch.date, next)) else TrySlot(ch.date, next + 1));
      assert View() == TakeSlot(before, i, ch.date, next);
      SoloThen(fx, start, i, ch, n);
    }

    /** Into the human queue. */
    method Queue(i: nat, action: Action, ch: Choice) returns (end: End)
      requires Valid() && i < |history| && history[i].pc.Enqueuing? && history[i].action == action
      requires !history[i].request.Approve?
      modifies this`history, approvals, audit
      ensures Valid() && View() == Solo(fx, old(View()), i, ch, 2)
      ensures history[i] == old(history)[i].(pc := Ended(end)) && end == Queued(|old(approvals.rows)|)
      ensures approvals.rows == old(approvals.rows) + if end.Queued? then [Approval(fx.redact(action), Pending)] else []
    {
      ghost var start := View();
      var id := approvals.Enqueue(fx.redact(action));
      Move(i, Auditing(Queued(id)));
      SoloOne(fx, start, i, ch);
      Record(i, Queued(id), ch);
      SoloThen(fx, start, i, ch, 1);
      end := Queued(id);
    }

    /** The trust ladder's slot loop, then either the shared path or the human queue. */
    method TrySlots(i: nat, action: Action, ch: Choice) returns (end: End, ghost n: nat)
      requires Valid() && i < |history| && history[i].pc == TrySlot(ch.date, 1) && history[i].action == action
      requires SemanticType(action).Some? && HasHandler(history[i].request) && !history[i].request.Approve?
      modifies this`recent, this`last, this`admitted, this`history, dedup, approvals, audit
      ensures Valid() && View() == Solo(fx, old(View()), i, ch, n)
      ensures history[i] == old(history)[i].(pc := Ended(end))
      ensures approvals.rows == old(approvals.rows) + if end.Queued? then [Approval(fx.redact(action), Pending)] else []
      ensures IsDigest(fx.digest) ==>
                EndOnSlots(settings, old(dedup.keys), action, ch.date, |old(approvals.rows)|, old(WayOf(action, true, ch)), end)
    {
      ghost var start, keys, queued, way := View(), dedup.keys, |approvals.rows|, WayOf(action, true, ch);
      ghost var m;
      var slot;
      slot, m := ClaimDailySlot(i, action, ch);
      ghost var later := dedup.keys;
      end, n := AfterSlots(i, slot, action, ch);
      SlotsSettled(fx, settings, action, keys, later, ch.date, queued, way, slot, end);
      SoloAdds(fx, start, i, ch, m, n);
      n := m + n;
    }

    method AfterSlots(i: nat, slot: Option<nat>, action: Action, ch: Choice) returns (end: End, ghost n: nat)
      requires Valid() && i < |history| && history[i].action == action
      requires history[i].pc == if slot.Some? then Guarded(AutoSlot(ch.date, slot.value)) else Enqueuing(Some(ch.date))
      requires HasHandler(history[i].request) && !history[i].request.Approve?
      modifies this`recent, this`last, this`admitted, this`history, dedup, approvals, audit
      ensures Valid() && View() == Solo(fx, old(View()), i, ch, n)
      ensures history[i] == old(history)[i].(pc := Ended(end))
      ensures end == if slot.Some? then EndPast(settings, old(WayOf(action, true, ch)), AutoSlot(ch.date, slot.value))
                     else Queued(|old(approvals.rows)|)
      ensures approvals.rows == old(approvals.rows) + if end.Queued? then [Approval(fx.redact(action), Pending)] else []
    {
      if slot.Some? {
        end, n := GuardAndRun(i, AutoSlot(ch.date, slot.value), action, true, ch);
      } else {
        end := Queue(i, action, ch);
        n := 2;
      }
    }

    /** The rest of a call, from its first decision on. */
    method Follow(i: nat, pc: Pc, request: Request, ch: Choice) returns (end: End, ghost n: nat)
      requires Valid() && i < |history| && !request.Approve? && !request.Reject?
      requires history[i] == Call(0, request, request.action, pc) && GoesTo(pc, request, ch.date)
      modifies this`recent, this`last, this`admitted, this`history, dedup, approvals, audit
      ensures Valid() && View() == Solo(fx, old(View()), i, ch, n)
      ensures history[i] == old(history)[i].(pc := Ended(end))
      ensures approvals.rows == old(approvals.rows) + if end.Queued? then [Approval(fx.redact(request.action), Pending)] else []
      ensures IsDigest(fx.digest) ==>
                EndFrom(settings, old(dedup.keys), request.action, ch.date, |old(approvals.rows)|,
                        old(WayOf(request.action, HasHandler(request), ch)), pc, end)
    {
      ghost var start := View();
      if pc.Ended? {
        end, n := pc.end, 0;
      } else if pc.Auditing? {
        Record(i, pc.end, ch);
        SoloOne(fx, start, i, ch);
        end, n := pc.end, 1;
      } else if pc.Guarded? {
        end, n := GuardAndRun(i, pc.why, request.action, HasHandler(request), ch);
      } else if pc.TrySlot? {
        end, n := TrySlots(i, request.action, ch);
      } else {
        end := Queue(i, request.action, ch);
        n := 2;
      }
    }

    /** `execute`, `execute_approved` and `enqueue_for_approval`. */
    method Submit(request: Request, ch: Choice) returns (end: End, ghost n: nat)
      requires Valid() && !request.Approve? && !request.Reject?
      modifies this, dedup, approvals, audit
      ensures Valid() && Answers(fx, old(View()), request, request.action, ch, n, View(), end)
      ensures approvals.rows == old(approvals.rows) + if end.Queued? then [Approval(fx.redact(request.action), Pending)] else []
      ensures old(Steady(ch.now)) ==>
                Told(settings, old(dedup.keys), request, request.action, ch.date, |old(approvals.rows)|,
                     Way(InWindow(old(admitted), ch.now) >= MAX_CALLS, DedupKey(fx.digest, request.action) in old(dedup.keys),
                         HasHandler(request), ch.handlerOk), end)
    {
      ghost var keys, queued, steady := dedup.keys, |approvals.rows|, Steady(ch.now);
      ghost var way := WayOf(request.action, HasHandler(request), ch);
      if steady { WindowCounts(ch.now); }
      var i := Open(request, request.action);
      end, n := Process(i, request, ch);
      if steady { DecisionTold(settings, keys, request, request.action, ch.date, queued, way, end); }
    }

    lemma WindowCounts(now: real)
      requires Steady(now)
      ensures Crowded(now) <==> InWindow(admitted, now) >= MAX_CALLS
    {
      TrimKeeps(admitted, recent, last, now);
    }

    method Process(i: nat, request: Request, ch: Choice) returns (end: End, ghost n: nat)
      requires Valid() && i < |history| && !request.Approve? && !request.Reject?
      requires history[i] == Call(0, request, request.action, Begin)
      modifies this`recent, this`last, this`admitted, this`history, dedup, approvals, audit
      ensures Valid() && View() == Solo(fx, old(View()), i, ch, n)
      ensures i < |history| && history[i].pc == Ended(end)
      ensures approvals.rows == old(approvals.rows) + if end.Queued? then [Approval(fx.redact(request.action), Pending)] else []
      ensures IsDigest(fx.digest) ==>
                EndFrom(settings, old(dedup.keys), request.action, ch.date, |old(approvals.rows)|,
                        old(WayOf(request.action, HasHandler(request), ch)),
                        Decide(settings, Call(0, request, request.action, Begin), ch.date), end)
    {
      ghost var start := View();
      var pc := Go(i, request, ch);
      end, n := Follow(i, pc, request, ch);
      SoloAdds(fx, start, i, ch, 1, n);
      n := 1 + n;
    }

    /** `approve`: win the compare-and-set, run the stored action, hand the id back if that fails. */
    method ApproveCall(id: nat, ghost placeholder: Action, ch: Choice) returns (end: End, ghost n: nat)
      requires Valid()
      modifies this, dedup, approvals, audit
      ensures Valid() && Answers(fx, old(View()), Approve(id), placeholder, ch, n, View(), end)
      ensures old(Steady(ch.now)) ==>
                ApprovalSettled(fx, settings, old(approvals.rows), approvals.rows, old(dedup.keys), id, ch.date,
                                InWindow(old(admitted), ch.now) >= MAX_CALLS, ch.handlerOk, end)
    {
      if Steady(ch.now) { WindowCounts(ch.now); }
      var i := calls;
      calls := calls + 1;
      history := history + [Call(0, Approve(id), placeholder, Begin)];
      end, n := ProcessApproval(i, id, ch);
    }

    method ProcessApproval(i: nat, id: nat, ch: Choice) returns (end: End, ghost n: nat)
      requires Valid() && i < |history| && history[i].pc.Begin? && history[i].request == Approve(id)
      modifies this`recent, this`last, this`admitted, this`history, dedup, approvals, audit
      ensures Valid() && View() == Solo(fx, old(View()), i, ch, n)
      ensures i < |history| && history[i].pc == Ended(end)
      ensures ApprovalSettled(fx, settings, old(approvals.rows), approvals.rows, old(dedup.keys), id, ch.date,
                              old(Crowded(ch.now)), ch.handlerOk, end)
    {
      ghost var start, rows, keys := View(), approvals.rows, dedup.keys;
      var pc, action := Win(i, id, ch);
      if pc.Ended? {
        return Invalid, 1;
      }
      ghost var won, way := approvals.rows, WayOf(action.value, true, ch);
      end, n := RunApproved(i, id, pc, action, ch);
      ApprovalSettles(fx, settings, rows, won, approvals.rows, keys, id, ch.date, way, action.value, end);
      SoloAdds(fx, start, i, ch, 1, n);
      n := 1 + n;
    }

    /** The lookup and the compare-and-set. */
    method Win(i: nat, id: nat, ch: Choice) returns (pc: Pc, action: Option<Action>)
      requires Valid() && i < |history| && history[i].pc.Begin? && history[i].request == Approve(id)
      modifies this`history, approvals
      ensures Valid() && View() == Solo(fx, old(View()), i, ch, 1) && history[i].pc == pc && history[i].request == Approve(id)
      ensures Won(settings, old(approvals.rows), approvals.rows, id, pc, action)
      ensures action.Some? ==> history[i].action == action.value
    {
      ghost var start := View();
      var won := approvals.TransitionIfPending(id, Approved);
      if !won {
        Move(i, Ended(Invalid));
        SoloOne(fx, start, i, ch);
        return Ended(Invalid), None;
      }
      var a := approvals.rows[id].action;
      VerdictIs(settings, a);
      pc := if KindOf(a) == Foreign then Reverting(Invalid)
            else if ApprovedRoute(settings.tests, settings.allow, a) == Refuse then Auditing(Failed)
            else Guarded(Human);
      history := history[i := history[i].(action := a, pc := pc)];
      assert View() == BeginApprove(start, i, id);
      SoloOne(fx, start, i, ch);
      action := Some(a);
    }

    /** The approved action on the shared path, and the `except` branch. */
    method RunApproved(i: nat, id: nat, pc: Pc, action: Option<Action>, ch: Choice) returns (end: End, ghost n: nat)
      requires Valid() && i < |history| && history[i].pc == pc && history[i].request == Approve(id)
      requires action.Some? && history[i].action == action.value
      requires pc == ApprovedTo(settings, action.value)
      modifies this`recent, this`last, this`admitted, this`history, dedup, approvals, audit
      ensures Valid() && View() == Solo(fx, old(View()), i, ch, n)
      ensures i < |history| && history[i].pc == Ended(end)
      ensures HandedBack(settings, old(approvals.rows), approvals.rows, id, action.value, old(WayOf(action.value, true, ch)), end)
    {
      ghost var start := View();
      n := 0;
      if pc.Guarded? {
        end, n := GuardAndRun(i, Human, action.value, true, ch);
      } else if pc.Auditing? {
        Record(i, Failed, ch);
        SoloOne(fx, start, i, ch);
        end, n := Failed, 1;
      } else {
        end := Invalid;
      }
      if end == Failed || end == Invalid {
        HandBack(i, id, end, ch);
        SoloThen(fx, start, i, ch, n);
        n := n + 1;
      }
    }

    method HandBack(i: nat, id: nat, end: End, ghost ch: Choice)
      requires Valid() && i < |history| && history[i].pc == Reverting(end) && history[i].request == Approve(id)
      modifies this`history, approvals
      ensures Valid() && View() == Step(fx, old(View()), i, ch)
      ensures history[i] == old(history)[i].(pc := Ended(end))
      ensures approvals.rows == if id < |old(approvals.rows)|
                                then old(approvals.rows)[id := old(approvals.rows)[id].(status := Pending)] else old(approvals.rows)
    {
      approvals.SetStatus(id, Pending);
      Move(i, Ended(end));
    }

    /** `reject`: the status is set whatever it was; an unknown id is ignored. */
    method RejectCall(id: nat, ghost placeholder: Action, ch: Choice) returns (end: End, ghost n: nat)
      requires Valid()
      modifies this, approvals, audit
      ensures Valid() && Answers(fx, old(View()), Reject(id), placeholder, ch, n, View(), end)
      ensures var rows := old(approvals.rows);
              if id < |rows| then end == Declined && approvals.rows == rows[id := rows[id].(status := Rejected)]
              else end == Invalid && approvals.rows == rows
    {
      var i := calls;
      calls := calls + 1;
      history := history + [Call(0, Reject(id), placeholder, Begin)];
      ghost var start := View();
      var known := id < |approvals.rows|;
      approvals.SetStatus(id, Rejected);
      Move(i, if known then Auditing(Declined) else Ended(Invalid));
      assert View() == BeginReject(start, i, id);
      SoloOne(fx, start, i, ch);
      if !known {
        return Invalid, 1;
      }
      Record(i, Declined, ch);
      SoloThen(fx, start, i, ch, 1);
      return Declined, 2;
    }
  }

  /** Where the first decision can send a call. */
  predicate GoesTo(pc: Pc, r: Request, date: string)
    requires !r.Approve? && !r.Reject?
  {
    || pc == Ended(Invalid) || (pc.Auditing? && pc.end != Invalid && !pc.end.Queued?) || pc.Guarded? || pc.Enqueuing?
    || (pc == TrySlot(date, 1) && SemanticType(r.action).Some? && HasHandler(r))
  }

  lemma DecideGoes(g: Settings, c: Call, date: string)
    requires !c.request.Approve? && !c.request.Reject? && c.action == c.request.action
    ensures GoesTo(Decide(g, c, date), c.request, date)
  {
  }

  // ---------------------------------------------------------------------------------------
  // The sequential gateway inherits every guarantee
  // ---------------------------------------------------------------------------------------

  lemma StepKeepsClock(fx: Fixed, s: Sys, i: nat, ch: Choice, g: nat)
    requires Runnable(s, i) && g < |s.gates| && s.gates[g].last <= ch.now
    ensures Step(fx, s, i, ch).gates[g].last <= ch.now
  {
  }

  /** An undisturbed schedule is a piece of a run: it leads from reachable states to reachable states. */
  lemma {:induction false} SoloReachable(fx: Fixed, s: Sys, i: nat, ch: Choice, n: nat)
    requires Reachable(fx, s) && Runnable(s, i)
    requires ':' !in ch.date && s.gates[s.calls[i].gate].last <= ch.now
    ensures Reachable(fx, Solo(fx, s, i, ch, n)) && Runnable(Solo(fx, s, i, ch, n), i)
    ensures Solo(fx, s, i, ch, n).calls[i].gate == s.calls[i].gate
    ensures Solo(fx, s, i, ch, n).gates[s.calls[i].gate].last <= ch.now
  {
    if n > 0 {
      SoloReachable(fx, s, i, ch, n - 1);
      var before := Solo(fx, s, i, ch, n - 1);
      SoloThen(fx, s, i, ch, n - 1);
      NextReachable(fx, before, StepCall(i, ch), Step(fx, before, i, ch));
      StepKeepsClock(fx, before, i, ch, s.calls[i].gate);
    }
  }

  /** In every state the protocol can reach, while the clock does not go back, the outcomes of a call are the ones told. */
  lemma ReachableSteady(fx: Fixed, s: Sys, now: real)
    requires Reachable(fx, s) && |s.gates| == 1 && s.gates[0].last <= now
    ensures IsDigest(fx.digest) && History(s.gates[0].admitted, s.gates[0].recent, s.gates[0].last)
  {
    ReachableSafe(fx, s);
  }

  /** Whatever the gateway answers, its state is one the protocol can reach, so every guarantee holds of it. */
  lemma AnswerReachable(fx: Fixed, before: Sys, r: Request, a: Action, ch: Choice, n: nat, after: Sys, end: End)
    requires Reachable(fx, before) && |before.gates| == 1
    requires r.Approve? || r.Reject? || a == r.action
    requires Answers(fx, before, r, a, ch, n, after, end)
    requires ':' !in ch.date && before.gates[0].last <= ch.now
    ensures Reachable(fx, after)
  {
    NextReachable(fx, before, NewCall(0, r, a), Opened(before, r, a));
    SoloReachable(fx, Opened(before, r, a), |before.calls|, ch, n);
  }
}
