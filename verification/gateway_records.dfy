/**
 The approval queue, the audit log and the rate limit across every interleaving
 (src/actions/approval_store.py, action_gateway.py).
 */
module GatewayRecords {
  import opened Common
  import opened RateLimit
  import opened GatewayProtocol
  import opened GatewaySafety

  // ---------------------------------------------------------------------------------------
  // Approvals
  // ---------------------------------------------------------------------------------------

  /** The call won its approval and has not handed it back: it is in flight, or it returned normally. */
  predicate Consumes(c: Call) {
    c.request.Approve? && !c.pc.Begin? && c.pc != Ended(Failed) && c.pc != Ended(Invalid)
  }

  predicate ConsumesWell(approvals: seq<Approval>, c: Call) {
    Consumes(c) ==>
      && c.request.id < |approvals| && approvals[c.request.id].status != Pending
      && approvals[c.request.id].action == c.action
  }

  predicate ApprovalsInv(approvals: seq<Approval>, calls: seq<Call>) {
    && (forall i :: 0 <= i < |calls| ==> ConsumesWell(approvals, calls[i]))
    && forall i, j :: 0 <= i < j < |calls| && Consumes(calls[i]) && Consumes(calls[j]) ==>
         calls[i].request.id != calls[j].request.id
  }

  /** A row that keeps its action, and its status unless nobody consumes it. */
  predicate RowsKept(approvals: seq<Approval>, approvals': seq<Approval>, free: int) {
    && |approvals| <= |approvals'|
    && forall k :: 0 <= k < |approvals| ==>
         && approvals'[k].action == approvals[k].action
         && (k != free && approvals[k].status != Pending ==> approvals'[k].status != Pending)
  }

  /** A step of a call that neither wins nor hands back an approval. */
  lemma ApprovalsSame(approvals: seq<Approval>, approvals': seq<Approval>, calls: seq<Call>, i: nat, c: Call)
    requires ApprovalsInv(approvals, calls) && i < |calls| && RowsKept(approvals, approvals', -1)
    requires c.request == calls[i].request && Consumes(c) == Consumes(calls[i])
    requires Consumes(c) ==> c.action == calls[i].action
    ensures ApprovalsInv(approvals', calls[i := c])
  {
    var calls' := calls[i := c];
    forall k | 0 <= k < |calls|
      ensures ConsumesWell(approvals', calls'[k])
    {
      assert ConsumesWell(approvals, calls[k]);
    }
  }

  /** Winning the compare-and-set: nobody else can be consuming that id. */
  lemma ApprovalWon(approvals: seq<Approval>, calls: seq<Call>, i: nat, c: Call, id: nat)
    requires ApprovalsInv(approvals, calls) && i < |calls| && id < |approvals| && approvals[id].status == Pending
    requires c.request == calls[i].request == Approve(id) && c.action == approvals[id].action
    ensures ApprovalsInv(approvals[id := Approval(c.action, Approved)], calls[i := c])
  {
    var approvals', calls' := approvals[id := Approval(c.action, Approved)], calls[i := c];
    forall k | 0 <= k < |calls|
      ensures ConsumesWell(approvals', calls'[k])
      ensures k != i && Consumes(calls[k]) ==> calls[k].request.id != id
    {
      assert ConsumesWell(approvals, calls[k]);
    }
  }

  /** Handing an approval back makes the row pending; no other call depends on it. */
  lemma ApprovalReturned(approvals: seq<Approval>, calls: seq<Call>, i: nat, c: Call)
    requires ApprovalsInv(approvals, calls) && i < |calls| && Consumes(calls[i])
    requires c.request == calls[i].request && !Consumes(c)
    ensures calls[i].request.id < |approvals|
    ensures var id := calls[i].request.id;
            ApprovalsInv(approvals[id := approvals[id].(status := Pending)], calls[i := c])
  {
    var id := calls[i].request.id;
    assert ConsumesWell(approvals, calls[i]);
    var calls' := calls[i := c];
    forall k | 0 <= k < |calls|
      ensures ConsumesWell(approvals[id := approvals[id].(status := Pending)], calls'[k])
    {
      assert ConsumesWell(approvals, calls[k]);
    }
  }

  lemma StepKeepsApprovals(fx: Fixed, s: Sys, i: nat, ch: Choice)
    requires i < |s.calls| && Shapes(s) && ApprovalsInv(s.approvals, s.calls)
    ensures ApprovalsInv(Step(fx, s, i, ch).approvals, Step(fx, s, i, ch).calls)
  {
    var c, s' := s.calls[i], Step(fx, s, i, ch);
    match c.pc
    case Begin => BeginKeepsApprovals(fx, s, i, ch);
    case Reverting(end) => ApprovalReturned(s.approvals, s.calls, i, s'.calls[i]);
    case _ => ApprovalsSame(s.approvals, s'.approvals, s.calls, i, s'.calls[i]);
  }

  lemma BeginKeepsApprovals(fx: Fixed, s: Sys, i: nat, ch: Choice)
    requires i < |s.calls| && Shapes(s) && ApprovalsInv(s.approvals, s.calls) && s.calls[i].pc.Begin?
    ensures ApprovalsInv(Step(fx, s, i, ch).approvals, Step(fx, s, i, ch).calls)
  {
    var c, s' := s.calls[i], Step(fx, s, i, ch);
    match c.request
    case Approve(id) =>
      if id < |s.approvals| && s.approvals[id].status == Pending {
        ApprovalWon(s.approvals, s.calls, i, s'.calls[i], id);
      } else {
        ApprovalsSame(s.approvals, s'.approvals, s.calls, i, s'.calls[i]);
      }
    case _ => ApprovalsSame(s.approvals, s'.approvals, s.calls, i, s'.calls[i]);
  }

  // ---------------------------------------------------------------------------------------
  // Audit
  // ---------------------------------------------------------------------------------------

  /** The verdict a call has left in the audit log, if it has. */
  function Recorded(c: Call): Option<AuditVerdict> {
    match c.pc
    case Ended(end) => if end == Invalid then None else Some(VerdictOf(end))
    case Reverting(end) => if end == Invalid then None else Some(VerdictOf(end))
    case _ => None
  }

  ghost predicate AuditInv(audit: seq<Line>, calls: seq<Call>) {
    && (forall i: nat, v {:trigger multiset(audit)[Line(i, v)]} :: i < |calls| ==>
          multiset(audit)[Line(i, v)] == if Recorded(calls[i]) == Some(v) then 1 else 0)
    && forall i: nat, v {:trigger multiset(audit)[Line(i, v)]} :: i >= |calls| ==> multiset(audit)[Line(i, v)] == 0
  }

  lemma StepRecords(fx: Fixed, s: Sys, i: nat, ch: Choice)
    requires i < |s.calls| && Shapes(s)
    ensures var s' := Step(fx, s, i, ch);
            if s.calls[i].pc.Auditing?
            then Recorded(s.calls[i]).None? && s'.audit == s.audit + [Line(i, VerdictOf(s.calls[i].pc.end))]
                 && Recorded(s'.calls[i]) == Some(VerdictOf(s.calls[i].pc.end))
            else s'.audit == s.audit && Recorded(s'.calls[i]) == Recorded(s.calls[i])
  {
    var c := s.calls[i];
    match c.pc
    case Begin => BeginRecordsNothing(fx, s, i, ch);
    case _ =>
  }

  lemma BeginRecordsNothing(fx: Fixed, s: Sys, i: nat, ch: Choice)
    requires i < |s.calls| && Shapes(s) && s.calls[i].pc.Begin?
    ensures Step(fx, s, i, ch).audit == s.audit && Recorded(Step(fx, s, i, ch).calls[i]).None?
  {
  }

  lemma StepKeepsAudit(fx: Fixed, s: Sys, i: nat, ch: Choice)
    requires i < |s.calls| && Shapes(s) && AuditInv(s.audit, s.calls)
    ensures AuditInv(Step(fx, s, i, ch).audit, Step(fx, s, i, ch).calls)
  {
    StepRecords(fx, s, i, ch);
    var s' := Step(fx, s, i, ch);
    AuditThrough(s.audit, s.calls, s'.audit, s'.calls, i);
  }

  lemma AuditThrough(audit: seq<Line>, calls: seq<Call>, audit': seq<Line>, calls': seq<Call>, i: nat)
    requires AuditInv(audit, calls) && i < |calls| == |calls'| && calls' == calls[i := calls'[i]]
    requires (audit' == audit && Recorded(calls'[i]) == Recorded(calls[i]))
             || (Recorded(calls[i]).None? && Recorded(calls'[i]).Some? && audit' == audit + [Line(i, Recorded(calls'[i]).value)])
    ensures AuditInv(audit', calls')
  {
    assert forall k :: 0 <= k < |calls| && k != i ==> calls'[k] == calls[k];
  }

  // ---------------------------------------------------------------------------------------
  // Rate
  // ---------------------------------------------------------------------------------------

  ghost predicate RatesInv(gates: seq<Gateway>) {
    forall g :: 0 <= g < |gates| ==> History(gates[g].admitted, gates[g].recent, gates[g].last)
  }

  lemma CheckKeepsHistory(g: Gateway, now: real)
    requires History(g.admitted, g.recent, g.last) && g.last <= now
    ensures var g' := CheckedRate(g, now);
            History(g'.admitted, g'.recent, g'.last)
    ensures !Admits(g, now) ==> InWindow(g.admitted, now) == MAX_CALLS
  {
    TrimKeeps(g.admitted, g.recent, g.last, now);
    if Admits(g, now) { AdmitKeeps(g.admitted, Trimmed(g.recent, now - WINDOW), now); }
  }

  lemma GuardKeepsRates(s: Sys, i: nat, why: Why, now: real)
    requires i < |s.calls| && s.calls[i].gate < |s.gates| && RatesInv(s.gates) && s.gates[s.calls[i].gate].last <= now
    ensures RatesInv(Guard(s, i, why, now).gates)
  {
    CheckKeepsHistory(s.gates[s.calls[i].gate], now);
  }

  lemma StepKeepsRates(fx: Fixed, s: Sys, i: nat, ch: Choice)
    requires i < |s.calls| && s.calls[i].gate < |s.gates| && RatesInv(s.gates) && Timely(s, i, ch)
    ensures RatesInv(Step(fx, s, i, ch).gates)
  {
    if s.calls[i].pc.Guarded? {
      GuardKeepsRates(s, i, s.calls[i].pc.why, ch.now);
    } else {
      assert Step(fx, s, i, ch).gates == s.gates;
    }
  }
}
