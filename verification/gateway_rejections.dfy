/**
 When a rejection is final (src/actions/action_gateway.py, `approve` and `reject`): exactly what can
 undo one, what cannot, and a run in which one is undone.
 */
module GatewayRejections {
  import opened Common
  import opened ActionPolicy
  import opened GatewayProtocol
  import opened GatewaySafety
  import opened GatewayRuns
  import Text

  /** An `approve` of this id that has won the row and may still fail: its handler has not succeeded. */
  predicate Approving(c: Call, id: nat) {
    && c.request == Approve(id) && !c.pc.Begin? && !c.pc.Ended?
    && (c.pc.Auditing? ==> c.pc.end == Failed)
  }

  predicate Rejected(s: Sys, id: nat) {
    id < |s.approvals| && s.approvals[id].status == ApprovalStatus.Rejected
  }

  /** One step undoes a rejection exactly when it is a failed `approve` of that id handing the row back. */
  lemma RejectionUndoneIff(fx: Fixed, s: Sys, i: nat, ch: Choice, id: nat)
    requires Reachable(fx, s) && Rejected(s, id)
    requires i < |s.calls| && s.calls[i].gate < |s.gates|
    ensures Rejected(Step(fx, s, i, ch), id) <==> !(s.calls[i].request == Approve(id) && s.calls[i].pc.Reverting?)
  {
    ReachableSafe(fx, s);
    assert Shape(s.gates[s.calls[i].gate].settings, s.calls[i]);
  }

  /** Rejected, and no `approve` of the id that could still fail is under way. */
  predicate RejectedForGood(s: Sys, id: nat) {
    Rejected(s, id) && forall i :: 0 <= i < |s.calls| ==> !Approving(s.calls[i], id)
  }

  /** No new `approve` can get under way, so nothing is left that could hand the row back. */
  lemma RejectedForGoodStays(fx: Fixed, s: Sys, e: Event, s': Sys, id: nat)
    requires Next(fx, s, e, s') && RejectedForGood(s, id)
    ensures RejectedForGood(s', id)
  {
    match e
    case NewCall(gate, request, action) =>
      assert forall k :: 0 <= k < |s'.calls| ==> s'.calls[k] == if k < |s.calls| then s.calls[k] else Call(gate, request, action, Begin);
    case StepCall(i, ch) =>
      assert !Approving(s.calls[i], id);
      assert forall k :: 0 <= k < |s'.calls| && k != i ==> s'.calls[k] == s.calls[k];
  }

  /**
   A rejection is final once no `approve` of the id can fail any more: in every continuation of the run
   it stands, and no `approve` of the id ever succeeds that had not done so before.
   */
  lemma {:induction false} RejectionIsFinal(fx: Fixed, ss: seq<Sys>, es: seq<Event>, k: nat, m: nat, id: nat)
    requires IsRun(fx, ss, es) && k <= m < |ss| && RejectedForGood(ss[k], id)
    ensures RejectedForGood(ss[m], id)
    ensures forall i :: 0 <= i < |ss[m].calls| && ss[m].calls[i].request == Approve(id) && Succeeded(ss[m].calls[i]) ==>
              i < |ss[k].calls| && Succeeded(ss[k].calls[i])
    decreases m - k
  {
    if k < m {
      RejectionIsFinal(fx, ss, es, k, m - 1, id);
      assert Next(fx, ss[m - 1], es[m - 1], ss[m]);
      RejectedForGoodStays(fx, ss[m - 1], es[m - 1], ss[m], id);
      NoNewSuccess(fx, ss[m - 1], es[m - 1], ss[m], id);
    }
  }

  lemma NoNewSuccess(fx: Fixed, s: Sys, e: Event, s': Sys, id: nat)
    requires Next(fx, s, e, s') && RejectedForGood(s, id)
    ensures forall i :: 0 <= i < |s'.calls| && s'.calls[i].request == Approve(id) && Succeeded(s'.calls[i]) ==>
              i < |s.calls| && Succeeded(s.calls[i])
  {
    match e
    case NewCall(gate, request, action) =>
      assert forall k :: 0 <= k < |s'.calls| ==> s'.calls[k] == if k < |s.calls| then s.calls[k] else Call(gate, request, action, Begin);
    case StepCall(i, ch) =>
      assert !Approving(s.calls[i], id);
      assert forall k :: 0 <= k < |s'.calls| && k != i ==> s'.calls[k] == s.calls[k];
  }

  // ---------------------------------------------------------------------------------------
  // A rejection that is undone
  // ---------------------------------------------------------------------------------------

  const MESSAGE := Action("telegram_send", "", "", [], "", "1", "", None, "hello")

  /** Nothing is red-lined, and the kill switch is on. */
  function SwitchedOff(): Settings {
    Settings(Tests(_ => false, _ => false, _ => false, _ => None, _ => None), map[], {}, None, true, false)
  }

  lemma MessageKind()
    ensures KindOf(MESSAGE) == TelegramSend
  {
    var t := "telegram_send";
    assert forall i :: 0 <= i < |t| ==> Text.LowerChar(t[i]) == t[i];
    assert Text.Lower(t) == t;
  }

  lemma Arrives(fx: Fixed, s: Sys, request: Request, action: Action) returns (s': Sys)
    requires Reachable(fx, s) && 0 < |s.gates|
    requires request.Execute? || request.ExecuteApproved? || request.Enqueue? ==> action == request.action
    ensures Reachable(fx, s') && s' == s.(calls := s.calls + [Call(0, request, action, Begin)])
  {
    s' := s.(calls := s.calls + [Call(0, request, action, Begin)]);
    NextReachable(fx, s, NewCall(0, request, action), s');
  }

  lemma Steps(fx: Fixed, s: Sys, i: nat, ch: Choice) returns (s': Sys)
    requires Reachable(fx, s) && i < |s.calls| && s.calls[i].gate < |s.gates| && Timely(s, i, ch)
    ensures Reachable(fx, s') && s' == Step(fx, s, i, ch)
  {
    s' := Step(fx, s, i, ch);
    NextReachable(fx, s, StepCall(i, ch), s');
  }

  /** A message is queued and its approval has just been won. */
  lemma ApprovalBegun(fx: Fixed, ch: Choice) returns (s: Sys)
    requires IsDigest(fx.digest) && fx.redact(MESSAGE) == MESSAGE && ':' !in ch.date
    ensures Reachable(fx, s) && |s.gates| == 1 && s.gates[0] == Gateway(SwitchedOff(), [], 0.0, [])
    ensures |s.calls| == 2 && s.approvals == [Approval(MESSAGE, Approved)]
    ensures s.calls[1] == Call(0, Approve(0), MESSAGE, Guarded(Human))
  {
    MessageKind();
    s := Sys([Gateway(SwitchedOff(), [], 0.0, [])], {}, [], [], []);
    StartReachable(fx, s);
    s := Arrives(fx, s, Enqueue(MESSAGE, false, Scheduled), MESSAGE);
    s := Steps(fx, s, 0, ch);
    assert s.calls[0].pc == Enqueuing(None);
    s := Steps(fx, s, 0, ch);
    assert s.approvals == [Approval(MESSAGE, Pending)];
    s := Arrives(fx, s, Approve(0), MESSAGE);
    s := Steps(fx, s, 1, ch);
  }

  /**
   The race: while an approval is running with the kill switch on, the human rejects; the run fails
   and hands the row back, and the rejection is gone.
   */
  lemma RejectionLost(fx: Fixed, ch: Choice) returns (s: Sys)
    requires IsDigest(fx.digest) && fx.redact(MESSAGE) == MESSAGE && ':' !in ch.date && ch.now >= 0.0
    ensures Reachable(fx, s) && Rejected(s, 0)
    ensures 1 < |s.calls| && s.calls[1].gate < |s.gates|
    ensures Step(fx, s, 1, ch).approvals[0] == Approval(MESSAGE, Pending)
  {
    s := ApprovalBegun(fx, ch);
    s := Arrives(fx, s, Reject(0), MESSAGE);
    s := Steps(fx, s, 2, ch);
    assert Rejected(s, 0) && s.calls[1] == Call(0, Approve(0), MESSAGE, Guarded(Human));
    s := Steps(fx, s, 1, ch);
    assert s.calls[1].pc == Auditing(Failed);
    s := Steps(fx, s, 1, ch);
    assert s.calls[1].pc == Reverting(Failed);
  }
}
