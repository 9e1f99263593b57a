/**
 What one undisturbed call to the Action Gateway comes to, said of the action, the settings and the
 state before the call (src/actions/action_gateway.py, hard_block.py, auto_approve_policy.py).
 */
module GatewayOutcomes {
  import opened Common
  import opened Text
  import opened ActionPolicy
  import opened GatewayProtocol

  // ---------------------------------------------------------------------------------------
  // What the policy looks at
  // ---------------------------------------------------------------------------------------

  /** The red line of each kind of action. */
  predicate RedLined(g: Settings, a: Action) {
    match KindOf(a)
    case McpTool => g.tests.mcpRedLine(a).Some?
    case GhCli => g.tests.ghRedLine(a).Some?
    case EmailSend => g.tests.secret(a) || g.tests.badAttachment(a)
    case TelegramSend => g.tests.secret(a)
    case Foreign => g.tests.secret(a)
  }

  /** The allowlist names the tool, the command is a listed one, the message is well formed. */
  predicate OnList(g: Settings, a: Action) {
    match KindOf(a)
    case McpTool => Lower(a.server) in g.allow && Lower(a.tool) in g.allow[Lower(a.server)]
    case GhCli => exists k :: 0 <= k < |GH_ALLOWED| && GH_ALLOWED[k] <= LowerAll(a.argv)
    case EmailSend => !g.tests.malformed(a)
    case TelegramSend => !g.tests.malformed(a)
    case Foreign => false
  }

  /** Mail, a merge, a ticket change, a post to an outside channel: a human is asked first. */
  predicate AsksFirst(g: Settings, a: Action) {
    || KindOf(a) == EmailSend
    || (KindOf(a) == GhCli && exists k :: 0 <= k < |GH_ASK_FIRST| && GH_ASK_FIRST[k] <= LowerAll(a.argv))
    || (KindOf(a) == McpTool && exists k :: 0 <= k < |TOOL_ASK_FIRST| && Contains(Lower(a.tool), TOOL_ASK_FIRST[k]))
    || (KindOf(a) == McpTool && Contains(Lower(a.tool), "post_message") && a.channel != "" && a.channel in g.external)
  }

  /** The kinds of action that the trust ladder knows. */
  predicate LadderKind(a: Action, kind: string) {
    || (KindOf(a) == EmailSend && kind == "email_send")
    || (KindOf(a) == McpTool && Contains(Lower(a.tool), "post_message") && kind == "slack_post")
  }

  /** The grant that covers this action, if there is one. */
  predicate GrantedBy(g: Settings, a: Action, origin: Origin, kind: string, grant: Grant) {
    && LadderKind(a, kind) && g.auto.Some? && kind in g.auto.value.grants && grant == g.auto.value.grants[kind]
    && grant.enabled
    && (grant.destinations.Some? ==> (if KindOf(a) == EmailSend then a.recipient else a.channel) in grant.destinations.value)
    && match origin
       case Scheduled => true
       case Chat(sender, transport, chatId) =>
         transport == "telegram" && sender == chatId && sender != "" && sender in g.auto.value.trusted
  }

  /** The day's slots below `n` are all taken. */
  predicate TakenBelow(keys: set<string>, kind: string, date: string, n: nat) {
    forall m: nat :: 1 <= m < n ==> SlotKey(kind, date, m) in keys
  }

  /** The lowest of the day's slots that is not taken, within the grant. */
  predicate FirstFree(keys: set<string>, kind: string, date: string, most: int, n: nat) {
    1 <= n <= most && SlotKey(kind, date, n) !in keys && TakenBelow(keys, kind, date, n)
  }

  /** The trust ladder lets the call through on this slot. */
  ghost predicate OnSlot(g: Settings, keys: set<string>, a: Action, origin: Origin, date: string, n: nat) {
    exists kind, grant :: GrantedBy(g, a, origin, kind, grant) && FirstFree(keys, kind, date, grant.maxPerDay, n)
  }

  /** The call gets past the policy, and this is why. */
  ghost predicate Passes(g: Settings, keys: set<string>, r: Request, a: Action, date: string, why: Why) {
    && KindOf(a) != Foreign && !RedLined(g, a)
    && match why
       case Direct => r.Execute? && OnList(g, a) && !AsksFirst(g, a)
       case Human => r.ExecuteApproved? || r.Approve?
       case AutoSlot(d, n) =>
         && d == date && HasHandler(r)
         && ((r.Execute? && AsksFirst(g, a) && OnSlot(g, keys, a, Scheduled, date, n))
             || (r.Enqueue? && OnList(g, a) && OnSlot(g, keys, a, r.origin, date, n)))
  }

  /** It would have to wait for a human. */
  predicate Waits(g: Settings, r: Request, a: Action) {
    && KindOf(a) != Foreign && !RedLined(g, a)
    && ((r.Execute? && AsksFirst(g, a)) || (r.Enqueue? && OnList(g, a)))
  }

  lemma VerdictIs(g: Settings, a: Action)
    ensures Classify(g.tests, g.allow, a).HardDenied? <==> RedLined(g, a)
    ensures Classify(g.tests, g.allow, a) == Allowed <==> !RedLined(g, a) && OnList(g, a)
    ensures NeedsInterrupt(g.external, a) <==> AsksFirst(g, a)
  {
  }

  lemma LadderIs(g: Settings, a: Action, origin: Origin)
    ensures MayAutoApprove(g.auto, a, origin) <==> exists kind, grant :: GrantedBy(g, a, origin, kind, grant)
    ensures forall kind :: SemanticType(a) == Some(kind) <==> LadderKind(a, kind)
  {
    if MayAutoApprove(g.auto, a, origin) {
      var kind := SemanticType(a).value;
      assert GrantedBy(g, a, origin, kind, g.auto.value.grants[kind]);
    }
  }

  lemma SlotIs(g: Settings, keys: set<string>, a: Action, origin: Origin, date: string, n: nat, kind: string)
    requires SemanticType(a) == Some(kind) && MayAutoApprove(g.auto, a, origin)
    ensures OnSlot(g, keys, a, origin, date, n) <==> FirstFree(keys, kind, date, DailyCap(g.auto, a), n)
  {
    LadderIs(g, a, origin);
    var grant := g.auto.value.grants[kind];
    assert GrantedBy(g, a, origin, kind, grant);
  }

  // ---------------------------------------------------------------------------------------
  // The outcomes
  // ---------------------------------------------------------------------------------------

  /** What a call that is past the policy meets: the switches, the rate limit, its key, its handler. */
  datatype Way = Way(full: bool, held: bool, hasHandler: bool, handlerOk: bool)

  predicate Unhindered(g: Settings, w: Way) {
    !g.writeDisabled && !g.dryRun && !w.full
  }

  /** From past the policy on. */
  function EndPast(g: Settings, w: Way, why: Why): End {
    if g.writeDisabled then Failed
    else if g.dryRun then DryRan
    else if w.full then Failed
    else if w.held then Duplicate
    else if !w.hasHandler then NoHandler
    else if w.handlerOk then Executed(why)
    else Failed
  }

  /** The policy refuses: the red line, or neither listed nor something a human is asked about. */
  predicate Refused(g: Settings, r: Request, a: Action) {
    && KindOf(a) != Foreign
    && ((r.Execute? && (RedLined(g, a) || (!AsksFirst(g, a) && !OnList(g, a))))
        || (r.ExecuteApproved? && RedLined(g, a))
        || (r.Approve? && RedLined(g, a)))
  }

  /** The exact case in which a call ends in each way. */
  ghost predicate Told(g: Settings, keys: set<string>, r: Request, a: Action, date: string, queued: nat, w: Way, end: End) {
    && (end == Invalid <==> KindOf(a) == Foreign)
    && (end == NotQueued <==> r.Enqueue? && KindOf(a) != Foreign && (RedLined(g, a) || !OnList(g, a)))
    && (end.Queued? <==> Waits(g, r, a) && !PassesSomehow(g, keys, r, a, date))
    && (end.Queued? ==> end == Queued(queued))
    && (end == DryRan <==> PassesSomehow(g, keys, r, a, date) && !g.writeDisabled && g.dryRun)
    && (end == Duplicate <==> PassesSomehow(g, keys, r, a, date) && Unhindered(g, w) && w.held)
    && (end == NoHandler <==> PassesSomehow(g, keys, r, a, date) && Unhindered(g, w) && !w.held && !w.hasHandler)
    && (forall why :: end == Executed(why) <==>
          Passes(g, keys, r, a, date, why) && Unhindered(g, w) && !w.held && w.hasHandler && w.handlerOk)
    && (end == Failed <==>
          || Refused(g, r, a)
          || (PassesSomehow(g, keys, r, a, date)
              && (g.writeDisabled || (!g.dryRun && (w.full || (!w.held && w.hasHandler && !w.handlerOk))))))
  }

  ghost predicate PassesSomehow(g: Settings, keys: set<string>, r: Request, a: Action, date: string) {
    exists why :: Passes(g, keys, r, a, date, why)
  }

  lemma FirstFreeUnique(keys: set<string>, kind: string, date: string, most: int, m: nat, n: nat)
    requires FirstFree(keys, kind, date, most, m) && FirstFree(keys, kind, date, most, n)
    ensures m == n
  {
  }

  lemma OnSlotUnique(g: Settings, keys: set<string>, a: Action, origin: Origin, date: string, m: nat, n: nat)
    requires OnSlot(g, keys, a, origin, date, m) && OnSlot(g, keys, a, origin, date, n)
    ensures m == n
  {
    var kind, grant :| GrantedBy(g, a, origin, kind, grant) && FirstFree(keys, kind, date, grant.maxPerDay, m);
    var kind', grant' :| GrantedBy(g, a, origin, kind', grant') && FirstFree(keys, kind', date, grant'.maxPerDay, n);
    FirstFreeUnique(keys, kind, date, grant.maxPerDay, m, n);
  }

  /** There is only one way past the policy. */
  lemma PassesOnce(g: Settings, keys: set<string>, r: Request, a: Action, date: string, why: Why, why': Why)
    requires Passes(g, keys, r, a, date, why) && Passes(g, keys, r, a, date, why')
    ensures why == why'
  {
    if why.AutoSlot? && why'.AutoSlot? {
      var origin := if r.Execute? then Scheduled else r.origin;
      OnSlotUnique(g, keys, a, origin, date, why.slot, why'.slot);
    }
  }

  /** A call that is past the policy is told what the rest of the way decides. */
  lemma ToldPast(g: Settings, keys: set<string>, r: Request, a: Action, date: string, queued: nat, w: Way, why: Why)
    requires Passes(g, keys, r, a, date, why)
    ensures Told(g, keys, r, a, date, queued, w, EndPast(g, w, why))
  {
    forall why' | Passes(g, keys, r, a, date, why')
      ensures why' == why
    {
      PassesOnce(g, keys, r, a, date, why, why');
    }
    assert PassesSomehow(g, keys, r, a, date);
  }

  lemma ToldWaiting(g: Settings, keys: set<string>, r: Request, a: Action, date: string, queued: nat, w: Way)
    requires Waits(g, r, a) && !PassesSomehow(g, keys, r, a, date)
    ensures Told(g, keys, r, a, date, queued, w, Queued(queued))
  {
  }

  lemma ToldRefused(g: Settings, keys: set<string>, r: Request, a: Action, date: string, queued: nat, w: Way)
    requires Refused(g, r, a)
    ensures Told(g, keys, r, a, date, queued, w, Failed)
  {
    NoWay(g, keys, r, a, date);
  }

  lemma NoWay(g: Settings, keys: set<string>, r: Request, a: Action, date: string)
    requires Refused(g, r, a) || KindOf(a) == Foreign || (r.Enqueue? && (RedLined(g, a) || !OnList(g, a)))
    ensures !PassesSomehow(g, keys, r, a, date)
  {
  }

  lemma ToldOutright(g: Settings, keys: set<string>, r: Request, a: Action, date: string, queued: nat, w: Way)
    ensures KindOf(a) == Foreign ==> Told(g, keys, r, a, date, queued, w, Invalid)
    ensures r.Enqueue? && KindOf(a) != Foreign && (RedLined(g, a) || !OnList(g, a)) ==>
              Told(g, keys, r, a, date, queued, w, NotQueued)
  {
    if KindOf(a) == Foreign || (r.Enqueue? && (RedLined(g, a) || !OnList(g, a))) {
      NoWay(g, keys, r, a, date);
    }
  }

  // ---------------------------------------------------------------------------------------
  // From the first decision to the outcome
  // ---------------------------------------------------------------------------------------

  /** The slot loop: on the first free slot, or into the queue. */
  ghost predicate EndOnSlots(g: Settings, keys: set<string>, a: Action, date: string, queued: nat, w: Way, end: End)
    requires SemanticType(a).Some?
  {
    var kind, cap := SemanticType(a).value, DailyCap(g.auto, a);
    && (forall n: nat :: FirstFree(keys, kind, date, cap, n) ==> end == EndPast(g, w, AutoSlot(date, n)))
    && ((forall n: nat :: !FirstFree(keys, kind, date, cap, n)) ==> end == Queued(queued))
  }

  /** What becomes of a call that the first decision sends to `pc`. */
  ghost predicate EndFrom(g: Settings, keys: set<string>, a: Action, date: string, queued: nat, w: Way, pc: Pc, end: End) {
    match pc
    case Ended(e) => end == e
    case Auditing(e) => end == e
    case Guarded(why) => end == EndPast(g, w, why)
    case Enqueuing(_) => end == Queued(queued)
    case TrySlot(_, _) => SemanticType(a).Some? && EndOnSlots(g, keys, a, date, queued, w, end)
    case _ => false
  }

  lemma LadderTold(g: Settings, keys: set<string>, r: Request, a: Action, date: string, queued: nat, w: Way, origin: Origin, end: End)
    requires Waits(g, r, a) && HasHandler(r) && MayAutoApprove(g.auto, a, origin)
    requires origin == if r.Execute? then Scheduled else r.origin
    requires SemanticType(a).Some? && EndOnSlots(g, keys, a, date, queued, w, end)
    ensures Told(g, keys, r, a, date, queued, w, end)
  {
    var kind, cap := SemanticType(a).value, DailyCap(g.auto, a);
    forall n: nat
      ensures OnSlot(g, keys, a, origin, date, n) <==> FirstFree(keys, kind, date, cap, n)
    {
      SlotIs(g, keys, a, origin, date, n, kind);
    }
    if n: nat :| FirstFree(keys, kind, date, cap, n) {
      assert Passes(g, keys, r, a, date, AutoSlot(date, n));
      ToldPast(g, keys, r, a, date, queued, w, AutoSlot(date, n));
    } else {
      ToldWaiting(g, keys, r, a, date, queued, w);
    }
  }

  lemma UngrantedWaits(g: Settings, keys: set<string>, r: Request, a: Action, date: string, origin: Origin)
    requires Waits(g, r, a) && origin == if r.Execute? then Scheduled else r.origin
    requires !HasHandler(r) || !MayAutoApprove(g.auto, a, origin)
    ensures !PassesSomehow(g, keys, r, a, date)
  {
    LadderIs(g, a, origin);
  }

  /** The first decision and what follows it come to what is told. */
  lemma DecisionTold(g: Settings, keys: set<string>, r: Request, a: Action, date: string, queued: nat, w: Way, end: End)
    requires !r.Approve? && !r.Reject? && a == r.action && w.hasHandler == HasHandler(r)
    requires EndFrom(g, keys, a, date, queued, w, Decide(g, Call(0, r, a, Begin), date), end)
    ensures Told(g, keys, r, a, date, queued, w, end)
  {
    VerdictIs(g, a);
    if KindOf(a) == Foreign {
      ToldOutright(g, keys, r, a, date, queued, w);
    } else {
      match r
      case Execute(_, _) => ExecuteTold(g, keys, r, a, date, queued, w, end);
      case ExecuteApproved(_, _) =>
        if RedLined(g, a) {
          ToldRefused(g, keys, r, a, date, queued, w);
        } else {
          ToldPast(g, keys, r, a, date, queued, w, Human);
        }
      case Enqueue(_, _, _) => EnqueueTold(g, keys, r, a, date, queued, w, end);
    }
  }

  /** Where winning the row sends an approval of this action. */
  function ApprovedTo(g: Settings, a: Action): Pc {
    if KindOf(a) == Foreign then Reverting(Invalid) else if RedLined(g, a) then Auditing(Failed) else Guarded(Human)
  }

  /** The compare-and-set on the queue, and where it sends the call. */
  predicate Won(g: Settings, rows: seq<Approval>, rows': seq<Approval>, id: nat, pc: Pc, action: Option<Action>) {
    if id >= |rows| || rows[id].status != Pending then action == None && pc == Ended(Invalid) && rows' == rows
    else action == Some(rows[id].action) && rows' == rows[id := rows[id].(status := Approved)] && pc == ApprovedTo(g, rows[id].action)
  }

  /** The outcome of the approved run, and the row handed back if it failed. */
  predicate HandedBack(g: Settings, rows: seq<Approval>, rows': seq<Approval>, id: nat, a: Action, w: Way, end: End) {
    && end == (if KindOf(a) == Foreign then Invalid else if RedLined(g, a) then Failed else EndPast(g, w, Human))
    && rows' == if (end == Failed || end == Invalid) && id < |rows| then rows[id := rows[id].(status := Pending)] else rows
  }

  /** What `approve` of an id comes to, and what it leaves in the queue. */
  ghost predicate ApprovalSettled(fx: Fixed, g: Settings, rows: seq<Approval>, rows': seq<Approval>, keys: set<string>, id: nat,
                                  date: string, full: bool, handlerOk: bool, end: End) {
    if id >= |rows| || rows[id].status != Pending then end == Invalid && rows' == rows
    else
      var a := rows[id].action;
      && rows' == (if end == Failed || end == Invalid then rows else rows[id := rows[id].(status := Approved)])
      && Told(g, keys, Approve(id), a, date, |rows|, Way(full, DedupKey(fx.digest, a) in keys, true, handlerOk), end)
  }

  lemma ApprovalTold(g: Settings, keys: set<string>, id: nat, a: Action, date: string, queued: nat, w: Way, end: End)
    requires w.hasHandler
    requires end == if KindOf(a) == Foreign then Invalid else if RedLined(g, a) then Failed else EndPast(g, w, Human)
    ensures Told(g, keys, Approve(id), a, date, queued, w, end)
  {
    if KindOf(a) == Foreign {
      ToldOutright(g, keys, Approve(id), a, date, queued, w);
    } else if RedLined(g, a) {
      ToldRefused(g, keys, Approve(id), a, date, queued, w);
    } else {
      ToldPast(g, keys, Approve(id), a, date, queued, w, Human);
    }
  }

  lemma ApprovalSettles(fx: Fixed, g: Settings, rows: seq<Approval>, won: seq<Approval>, rows': seq<Approval>, keys: set<string>,
                        id: nat, date: string, w: Way, a: Action, end: End)
    requires id < |rows| && rows[id].status == Pending && a == rows[id].action
    requires won == rows[id := rows[id].(status := Approved)] && HandedBack(g, won, rows', id, a, w, end)
    requires w.hasHandler && w.held == (DedupKey(fx.digest, a) in keys)
    ensures ApprovalSettled(fx, g, rows, rows', keys, id, date, w.full, w.handlerOk, end)
  {
    ApprovalTold(g, keys, id, a, date, |rows|, w, end);
    assert rows[id].(status := Pending) == rows[id] && rows[id := rows[id]] == rows;
  }

  lemma ExecuteTold(g: Settings, keys: set<string>, r: Request, a: Action, date: string, queued: nat, w: Way, end: End)
    requires r.Execute? && a == r.action && KindOf(a) != Foreign
    requires EndFrom(g, keys, a, date, queued, w, Decide(g, Call(0, r, a, Begin), date), end)
    ensures Told(g, keys, r, a, date, queued, w, end)
  {
    VerdictIs(g, a);
    if Refused(g, r, a) {
      ToldRefused(g, keys, r, a, date, queued, w);
    } else if !AsksFirst(g, a) {
      ToldPast(g, keys, r, a, date, queued, w, Direct);
    } else if HasHandler(r) && MayAutoApprove(g.auto, a, Scheduled) {
      LadderTold(g, keys, r, a, date, queued, w, Scheduled, end);
    } else {
      UngrantedWaits(g, keys, r, a, date, Scheduled);
      ToldWaiting(g, keys, r, a, date, queued, w);
    }
  }

  lemma EnqueueTold(g: Settings, keys: set<string>, r: Request, a: Action, date: string, queued: nat, w: Way, end: End)
    requires r.Enqueue? && a == r.action && KindOf(a) != Foreign
    requires EndFrom(g, keys, a, date, queued, w, Decide(g, Call(0, r, a, Begin), date), end)
    ensures Told(g, keys, r, a, date, queued, w, end)
  {
    VerdictIs(g, a);
    if RedLined(g, a) || !OnList(g, a) {
      ToldOutright(g, keys, r, a, date, queued, w);
    } else if HasHandler(r) && MayAutoApprove(g.auto, a, r.origin) {
      LadderTold(g, keys, r, a, date, queued, w, r.origin, end);
    } else {
      UngrantedWaits(g, keys, r, a, date, r.origin);
      ToldWaiting(g, keys, r, a, date, queued, w);
    }
  }
}
