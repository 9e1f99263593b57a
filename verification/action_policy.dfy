/**
 What the Action Gateway decides about an action before it touches any store: the hard-deny and
 allowlist layers, the human-approval rule (src/actions/hard_block.py), the trust ladder
 (src/actions/auto_approve_policy.py) and the idempotency keys (src/actions/action_gateway.py).
 */
module ActionPolicy {
  import opened Common
  import Text

  // ---------------------------------------------------------------------------------------
  // Actions
  // ---------------------------------------------------------------------------------------

  datatype Kind = McpTool | GhCli | EmailSend | TelegramSend | Foreign

  /** The parts of an action that decide its fate; `content` stands for the rest of it. */
  datatype Action = Action(rawType: string, server: string, tool: string, argv: seq<string>,
                           recipient: string, chatId: string, channel: string, hint: Option<string>,
                           content: string)

  function KindOf(a: Action): Kind {
    var t := Text.Lower(a.rawType);
    if t == "mcp_tool" then McpTool
    else if t == "gh_cli" then GhCli
    else if t == "email_send" then EmailSend
    else if t == "telegram_send" then TelegramSend
    else Foreign
  }

  // ---------------------------------------------------------------------------------------
  // Layer 1 (hard deny) and layer 2 (default deny)
  // ---------------------------------------------------------------------------------------

  datatype RedLine = DataLoss | Credential | Security

  datatype Verdict = Allowed | NotAllowlisted | HardDenied(line: RedLine)

  /** The individual tests of the action's text and arguments. */
  datatype Tests = Tests(secret: Action -> bool, badAttachment: Action -> bool, malformed: Action -> bool,
                         mcpRedLine: Action -> Option<RedLine>, ghRedLine: Action -> Option<RedLine>)

  /** What a pack permits: tools by server. */
  type Allowlist = map<string, set<string>>

  const GH_ALLOWED: seq<seq<string>> := [
    ["pr", "list"], ["pr", "view"], ["pr", "create"], ["issue", "list"], ["issue", "view"],
    ["issue", "create"], ["issue", "comment"], ["repo", "view"], ["run", "list"], ["run", "view"], ["api"]]

  const GH_ASK_FIRST: seq<seq<string>> := [["pr", "merge"], ["pr", "close"], ["pr", "ready"]]

  const TOOL_ASK_FIRST: seq<string> := [
    "closeissue", "close_issue", "transitionissue", "assignissue", "reassign", "createcomment"]

  function LowerAll(words: seq<string>): seq<string> {
    seq(|words|, i requires 0 <= i < |words| => Text.Lower(words[i]))
  }

  predicate StartsWithOne(words: seq<string>, prefixes: seq<seq<string>>) {
    exists k :: 0 <= k < |prefixes| && prefixes[k] <= words
  }

  predicate Listed(allow: Allowlist, a: Action) {
    var server := Text.Lower(a.server);
    server in allow && Text.Lower(a.tool) in allow[server]
  }

  /** `classify`: the red line first, then the allowlist; mail and telegram have no allowlist layer. */
  function Classify(tests: Tests, allow: Allowlist, a: Action): Verdict {
    match KindOf(a)
    case McpTool =>
      if tests.mcpRedLine(a).Some? then HardDenied(tests.mcpRedLine(a).value)
      else if Listed(allow, a) then Allowed else NotAllowlisted
    case GhCli =>
      if tests.ghRedLine(a).Some? then HardDenied(tests.ghRedLine(a).value)
      else if StartsWithOne(LowerAll(a.argv), GH_ALLOWED) then Allowed else NotAllowlisted
    case EmailSend =>
      if tests.secret(a) then HardDenied(Credential)
      else if tests.badAttachment(a) then HardDenied(Security)
      else if tests.malformed(a) then NotAllowlisted else Allowed
    case TelegramSend =>
      if tests.secret(a) then HardDenied(Credential)
      else if tests.malformed(a) then NotAllowlisted else Allowed
    case Foreign =>
      if tests.secret(a) then HardDenied(Credential) else NotAllowlisted
  }

  /** `needs_interrupt`: may only run after a human said yes. */
  predicate NeedsInterrupt(external: set<string>, a: Action) {
    match KindOf(a)
    case EmailSend => true
    case McpTool =>
      var tool := Text.Lower(a.tool);
      || (exists k :: 0 <= k < |TOOL_ASK_FIRST| && Text.Contains(tool, TOOL_ASK_FIRST[k]))
      || (Text.Contains(tool, "post_message") && a.channel != "" && a.channel in external)
    case GhCli => StartsWithOne(LowerAll(a.argv), GH_ASK_FIRST)
    case TelegramSend => false
    case Foreign => false
  }

  /** A pack's allowlist moves nothing across the red line, in either direction. */
  lemma AllowlistCannotMoveRedLine(tests: Tests, mine: Allowlist, yours: Allowlist, a: Action)
    ensures Classify(tests, mine, a).HardDenied? <==> Classify(tests, yours, a).HardDenied?
    ensures Classify(tests, mine, a).HardDenied? ==> Classify(tests, mine, a) == Classify(tests, yours, a)
    ensures Classify(tests, mine, a) != Classify(tests, yours, a) ==> KindOf(a) == McpTool
  {
  }

  /** What the gateway does with a fresh action, before any switch, limit or store. */
  datatype Route = Refuse | AskHuman | Proceed

  /** The approval rule is consulted before the default deny, but never past the red line. */
  function RouteOf(tests: Tests, allow: Allowlist, external: set<string>, a: Action): Route {
    var v := Classify(tests, allow, a);
    if NeedsInterrupt(external, a) && !v.HardDenied? then AskHuman
    else if v == Allowed then Proceed
    else Refuse
  }

  /** With an approval in hand only the red line still refuses. */
  function ApprovedRoute(tests: Tests, allow: Allowlist, a: Action): Route {
    if Classify(tests, allow, a).HardDenied? then Refuse else Proceed
  }

  /**
   A human can release exactly what the red line leaves: everything that would have proceeded,
   everything that asks, and what was merely not allowlisted; never a hard-denied action.
   */
  lemma ApprovalReleases(tests: Tests, allow: Allowlist, external: set<string>, a: Action)
    ensures RouteOf(tests, allow, external, a) != Refuse ==> ApprovedRoute(tests, allow, a) == Proceed
    ensures ApprovedRoute(tests, allow, a) == Refuse <==> Classify(tests, allow, a).HardDenied?
    ensures ApprovedRoute(tests, allow, a) == Refuse ==> RouteOf(tests, allow, external, a) == Refuse
  {
  }

  /** Mail never goes out unasked; a merge asks although it is on no allowlist. */
  lemma SensitiveActionsAsk(tests: Tests, allow: Allowlist, external: set<string>, a: Action)
    requires KindOf(a) == EmailSend || (KindOf(a) == GhCli && ["pr", "merge"] <= LowerAll(a.argv))
    ensures RouteOf(tests, allow, external, a) == if Classify(tests, allow, a).HardDenied? then Refuse else AskHuman
    ensures KindOf(a) == GhCli && !Classify(tests, allow, a).HardDenied? ==> Classify(tests, allow, a) == NotAllowlisted
  {
    var argv := LowerAll(a.argv);
    assert ["pr", "merge"] <= argv ==> StartsWithOne(argv, GH_ASK_FIRST) by {
      assert GH_ASK_FIRST[0] == ["pr", "merge"];
    }
    MergeIsNotListed(argv);
  }

  lemma MergeIsNotListed(argv: seq<string>)
    ensures ["pr", "merge"] <= argv ==> !StartsWithOne(argv, GH_ALLOWED)
  {
    forall k | 0 <= k < |GH_ALLOWED|
      ensures ["pr", "merge"] <= argv ==> !(GH_ALLOWED[k] <= argv)
    {
      assert GH_ALLOWED[k][0] != "pr" || (|GH_ALLOWED[k]| == 2 && GH_ALLOWED[k][1] != "merge");
    }
  }

  /**
   A mail without recipient or body is refused as "not allowlisted", not as a red line: it is
   queued like any other mail and an approval does run it.
   */
  lemma MalformedMailIsApprovable(tests: Tests, allow: Allowlist, external: set<string>, a: Action)
    requires KindOf(a) == EmailSend && tests.malformed(a) && !tests.secret(a) && !tests.badAttachment(a)
    ensures RouteOf(tests, allow, external, a) == AskHuman && ApprovedRoute(tests, allow, a) == Proceed
  {
  }

  // ---------------------------------------------------------------------------------------
  // The trust ladder
  // ---------------------------------------------------------------------------------------

  datatype Grant = Grant(enabled: bool, destinations: Option<set<string>>, maxPerDay: int)

  datatype AutoConfig = AutoConfig(grants: map<string, Grant>, trusted: set<string>)

  datatype Origin = Scheduled | Chat(sender: string, transport: string, chatId: string)

  /** `_action_semantic_type`. */
  function SemanticType(a: Action): Option<string> {
    if KindOf(a) == EmailSend then Some("email_send")
    else if KindOf(a) == McpTool && Text.Contains(Text.Lower(a.tool), "post_message") then Some("slack_post")
    else None
  }

  /** `_action_destination`. */
  function Destination(a: Action): string {
    if KindOf(a) == EmailSend then a.recipient else a.channel
  }

  /** The sender is a trusted user writing in a direct Telegram chat. */
  predicate TrustedDirectMessage(config: AutoConfig, sender: string, transport: string, chatId: string) {
    transport == "telegram" && sender != "" && chatId == sender && sender in config.trusted
  }

  /** `evaluate`. */
  predicate MayAutoApprove(config: Option<AutoConfig>, a: Action, origin: Origin) {
    && config.Some? && SemanticType(a).Some?
    && var kind := SemanticType(a).value;
       && kind in config.value.grants
       && var grant := config.value.grants[kind];
          && grant.enabled
          && (grant.destinations.Some? ==> Destination(a) in grant.destinations.value)
          && match origin
             case Scheduled => true
             case Chat(sender, transport, chatId) => TrustedDirectMessage(config.value, sender, transport, chatId)
  }

  /** Slots per day for this action's type; none unless a grant says so. */
  function DailyCap(config: Option<AutoConfig>, a: Action): nat {
    if config.None? || SemanticType(a).None? || SemanticType(a).value !in config.value.grants then 0
    else
      var m := config.value.grants[SemanticType(a).value].maxPerDay;
      if m <= 0 then 0 else m
  }

  // ---------------------------------------------------------------------------------------
  // Keys of the idempotency table
  // ---------------------------------------------------------------------------------------

  function Join(words: seq<string>): string {
    if words == [] then "" else if |words| == 1 then words[0]
    else Join(words[..|words| - 1]) + " " + words[|words| - 1]
  }

  /** `_label`: compares the type as given, not lower-cased. */
  function Label(a: Action): string {
    if a.rawType == "mcp_tool" then a.server + ":" + a.tool
    else if a.rawType == "gh_cli" then "gh " + Join(if |a.argv| <= 3 then a.argv else a.argv[..3])
    else if a.rawType == "email_send" then "email:" + a.recipient
    else if a.rawType == "telegram_send" then "telegram:" + a.chatId
    else a.rawType
  }

  predicate IsHex(c: char) {
    '0' <= c <= '9' || 'a' <= c <= 'f'
  }

  /** The shape of a SHA-256 hex digest of the action's canonical form. */
  ghost predicate IsDigest(d: Action -> string) {
    forall a :: |d(a)| == 64 && forall i :: 0 <= i < 64 ==> IsHex(d(a)[i])
  }

  function HintKey(name: string, hint: string): string {
    "hint:" + name + ":" + hint
  }

  /** `_action_dedup_key`. */
  function DedupKey(digest: Action -> string, a: Action): string {
    if a.hint.Some? && a.hint.value != "" then HintKey(Label(a), a.hint.value) else digest(a)
  }

  function SlotKey(kind: string, date: string, seqNo: nat): string {
    "auto-slot:" + (kind + ":" + (date + ":" + Text.Digits(seqNo)))
  }

  /** A semantic type and an ISO date: neither holds a colon. */
  predicate SlotName(kind: string, date: string) {
    ':' !in kind && ':' !in date
  }

  lemma SemanticTypeIsName(a: Action)
    requires SemanticType(a).Some?
    ensures ':' !in SemanticType(a).value
  {
  }

  /** No action key is ever a slot key: releasing an action cannot free a slot. */
  lemma ActionKeyIsNoSlot(digest: Action -> string, a: Action, kind: string, date: string, seqNo: nat)
    requires IsDigest(digest)
    ensures DedupKey(digest, a) != SlotKey(kind, date, seqNo)
  {
    var key, slot := DedupKey(digest, a), SlotKey(kind, date, seqNo);
    assert slot[0] == 'a' && slot[1] == 'u';
    if a.hint.Some? && a.hint.value != "" {
      assert key[0] == 'h';
    } else {
      assert IsHex(digest(a)[1]);
    }
  }

  /** A slot key names its type, its date and its number. */
  lemma SlotKeyInjective(kind: string, date: string, s: nat, kind': string, date': string, s': nat)
    requires SlotName(kind, date) && SlotName(kind', date')
    requires SlotKey(kind, date, s) == SlotKey(kind', date', s')
    ensures kind == kind' && date == date' && s == s'
  {
    var rest, rest' := date + ":" + Text.Digits(s), date' + ":" + Text.Digits(s');
    var prefix := "auto-slot:";
    assert SlotKey(kind, date, s)[|prefix|..] == kind + ":" + rest;
    assert SlotKey(kind', date', s')[|prefix|..] == kind' + ":" + rest';
    Text.SplitUnique(kind, kind', ':', rest, rest');
    Text.SplitUnique(date, date', ':', Text.Digits(s), Text.Digits(s'));
    Text.DigitsInjective(s, s');
  }

  /** The same hint never collides across tools with different labels. */
  lemma SameHintSameTool(name: string, name': string, hint: string)
    ensures HintKey(name, hint) == HintKey(name', hint) <==> name == name'
  {
    var a, b := HintKey(name, hint), HintKey(name', hint);
    if a == b {
      assert |name| == |name'|;
      assert name == a[5..5 + |name|] && name' == b[5..5 + |name'|];
    }
  }

  /** The key of this action is its hint under its tool's name. */
  predicate Hinted(a: Action) {
    a.hint.Some? && a.hint.value != ""
  }

  /** The longer name continues the shorter one after a colon, and the shorter one's hint makes up for it. */
  predicate Continues(shorter: string, hint: string, longer: string, hint': string) {
    shorter + ":" <= longer && hint == longer[|shorter| + 1..] + ":" + hint'
  }

  lemma ContinuesKey(name: string, hint: string, name': string, hint': string)
    requires |name| < |name'|
    ensures HintKey(name, hint) == HintKey(name', hint') <==> Continues(name, hint, name', hint')
  {
    var a, b := HintKey(name, hint), HintKey(name', hint');
    if a == b {
      assert name == a[5..5 + |name|] && name' == b[5..5 + |name'|];
      assert name' == b[5..][..|name'|] && a[5..][..|name| + 1] == name + ":";
      assert hint == a[5 + |name| + 1..] && hint' == b[5 + |name'| + 1..];
      assert name'[|name| + 1..] == b[5 + |name| + 1..5 + |name'|];
      assert hint == name'[|name| + 1..] + ":" + hint';
    }
    if Continues(name, hint, name', hint') {
      var middle := name'[|name| + 1..];
      assert name' == name + ":" + middle;
      assert "hint:" + name + ":" + (middle + ":" + hint') == "hint:" + (name + ":" + middle) + ":" + hint';
      assert a == b;
    }
  }

  /**
   Two hinted actions share a key exactly when name and hint agree, or one name continues the other
   after a colon and the hints are cut accordingly: the colon is not escaped.
   */
  lemma HintsCollideIff(digest: Action -> string, a: Action, b: Action)
    requires Hinted(a) && Hinted(b)
    ensures DedupKey(digest, a) == DedupKey(digest, b) <==>
              || (Label(a) == Label(b) && a.hint == b.hint)
              || Continues(Label(a), a.hint.value, Label(b), b.hint.value)
              || Continues(Label(b), b.hint.value, Label(a), a.hint.value)
  {
    var name, name', hint, hint' := Label(a), Label(b), a.hint.value, b.hint.value;
    if |name| < |name'| {
      ContinuesKey(name, hint, name', hint');
    } else if |name'| < |name| {
      ContinuesKey(name', hint', name, hint);
    } else {
      assert HintKey(name, hint)[5..5 + |name|] == name && HintKey(name', hint')[5..5 + |name'|] == name';
      assert HintKey(name, hint)[5 + |name| + 1..] == hint && HintKey(name', hint')[5 + |name'| + 1..] == hint';
    }
  }

  /** What a tool author can check: names of which neither continues the other never share a key. */
  lemma NamesApart(digest: Action -> string, a: Action, b: Action)
    requires Hinted(a) && Hinted(b) && Label(a) != Label(b)
    requires !(Label(a) + ":" <= Label(b)) && !(Label(b) + ":" <= Label(a))
    ensures DedupKey(digest, a) != DedupKey(digest, b)
  {
    HintsCollideIff(digest, a, b);
  }

  function SlackCall(tool: string, hint: string): Action {
    Action("mcp_tool", "slack", tool, [], "", "", "", Some(hint), "")
  }

  /** Two different tools with two different hints, and one key: the second mutation is dropped. */
  lemma HintsCanCollide(digest: Action -> string)
    ensures var a, b := SlackCall("post", "x:1"), SlackCall("post:x", "1");
            Label(a) != Label(b) && DedupKey(digest, a) == DedupKey(digest, b)
  {
    var a, b := SlackCall("post", "x:1"), SlackCall("post:x", "1");
    assert Label(a) == "slack:post" && Label(b) == "slack:post:x";
    assert Label(b)[11..] == "x";
    assert "slack:post" + ":" <= "slack:post:x";
    HintsCollideIff(digest, a, b);
  }

  /** A Telegram message without chat or text is refused, but only as "not allowlisted": an approved run sends it. */
  lemma MalformedMessageIsApprovable(tests: Tests, allow: Allowlist, external: set<string>, a: Action)
    requires KindOf(a) == TelegramSend && tests.malformed(a) && !tests.secret(a)
    ensures RouteOf(tests, allow, external, a) == Refuse && ApprovedRoute(tests, allow, a) == Proceed
  {
  }

  /** A hinted key never equals the digest of an unhinted action. */
  lemma HintIsNoDigest(digest: Action -> string, name: string, hint: string, a: Action)
    requires IsDigest(digest)
    ensures HintKey(name, hint) != digest(a)
  {
    assert HintKey(name, hint)[0] == 'h' && IsHex(digest(a)[0]);
  }
}
