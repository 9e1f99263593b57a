/**
 The agent's section of a human-owned MEMORY.md (src/agent/memory_mirror.py).
 */
module MemoryMirror {
  import opened Common
  import opened Text
  import opened Search

  /** The two marker lines of a section. */
  datatype Markers = Markers(start: string, end: string)

  const AGENT := Markers("<!-- AGENT-MEMORY:START -->", "<!-- AGENT-MEMORY:END -->")

  predicate Proper(m: Markers) {
    && Marker(m.start) && Marker(m.end) && !(m.start <= m.end) && !(m.end <= m.start)
    && OneLine(m.start) && OneLine(m.end)
  }

  lemma AgentIsProper()
    ensures Proper(AGENT)
  {
    StartIsMarker("<!-- AGENT-MEMORY:START -->");
    EndIsMarker("<!-- AGENT-MEMORY:END -->");
    assert AGENT.start[18] == 'S' && AGENT.end[18] == 'E';
  }

  lemma StartIsMarker(s: string)
    requires s == "<!-- AGENT-MEMORY:START -->"
    ensures Marker(s) && OneLine(s)
  {
  }

  lemma EndIsMarker(s: string)
    requires s == "<!-- AGENT-MEMORY:END -->"
    ensures Marker(s) && OneLine(s)
  {
  }

  // ---------------------------------------------------------------------------------------
  // Lines
  // ---------------------------------------------------------------------------------------

  /** The characters at which `str.splitlines()` breaks. */
  predicate IsBreak(c: char) {
    || '\U{A}' <= c <= '\U{D}' || '\U{1C}' <= c <= '\U{1E}'
    || c == '\U{85}' || c == '\U{2028}' || c == '\U{2029}'
  }

  predicate OneLine(s: string) {
    forall i :: 0 <= i < |s| ==> !IsBreak(s[i])
  }

  function BreakAt(s: string): (i: nat)
    ensures i <= |s| && OneLine(s[..i]) && (i < |s| ==> IsBreak(s[i]))
  {
    if s == "" || IsBreak(s[0]) then 0 else 1 + BreakAt(s[1..])
  }

  /** How many characters the break at the start of `s` takes: a carriage return swallows a newline. */
  function BreakLength(s: string): nat
    requires s != ""
  {
    if s[0] == '\r' && |s| > 1 && s[1] == '\n' then 2 else 1
  }

  /** `str.splitlines()`. */
  function Lines(s: string): seq<string>
    decreases |s|
  {
    var i := BreakAt(s);
    if i == |s| then (if s == "" then [] else [s])
    else [s[..i]] + Lines(s[i + BreakLength(s[i..])..])
  }

  predicate OneLiners(parts: seq<string>) {
    forall i :: 0 <= i < |parts| ==> OneLine(parts[i])
  }

  lemma {:induction false} BreakAtIs(line: string, rest: string)
    requires OneLine(line) && (rest == "" || IsBreak(rest[0]))
    ensures BreakAt(line + rest) == |line|
  {
    if line == "" {
      assert line + rest == rest;
    } else {
      assert (line + rest)[1..] == line[1..] + rest;
      BreakAtIs(line[1..], rest);
    }
  }

  /** Splitting what was joined gives the lines back, if none is empty. */
  lemma {:induction false} LinesOfJoin(parts: seq<string>)
    requires OneLiners(parts) && forall i :: 0 <= i < |parts| ==> parts[i] != ""
    ensures Lines(JoinLines(parts)) == parts
  {
    if parts != [] {
      LinesOfJoin(parts[1..]);
      if |parts| == 1 {
        assert parts[0] + "" == parts[0];
        BreakAtIs(parts[0], "");
      } else {
        FirstLine(parts[0], JoinLines(parts[1..]));
        assert parts == [parts[0]] + parts[1..];
      }
    }
  }

  lemma FirstLine(line: string, rest: string)
    requires OneLine(line)
    ensures Lines(line + "\n" + rest) == [line] + Lines(rest)
  {
    var s := line + "\n" + rest;
    BreakAtIs(line, "\n" + rest);
    assert s == line + ("\n" + rest);
    assert s[..|line|] == line && s[|line|..][0] == '\n' && s[|line| + 1..] == rest;
  }

  lemma {:induction false} LinesAreOneLiners(s: string)
    ensures OneLiners(Lines(s))
    decreases |s|
  {
    var i := BreakAt(s);
    if i == |s| {
      assert s[..i] == s;
    } else {
      LinesAreOneLiners(s[i + BreakLength(s[i..])..]);
    }
  }

  /** The lines of a text free of a marker are free of it. */
  lemma {:induction false} LinesFree(s: string, m: string)
    requires Free(s, m)
    ensures forall k :: 0 <= k < |Lines(s)| ==> Free(Lines(s)[k], m)
    decreases |s|
  {
    var i := BreakAt(s);
    if i < |s| {
      var j := i + BreakLength(s[i..]);
      FreePiece(s, 0, i, m);
      FreePiece(s, j, |s|, m);
      assert s[0..i] == s[..i] && s[j..|s|] == s[j..];
      LinesFree(s[j..], m);
    }
  }

  // ---------------------------------------------------------------------------------------
  // Facts
  // ---------------------------------------------------------------------------------------

  /** `_dedupe`, keeping first occurrences. */
  function Dedupe(facts: seq<string>): seq<string> {
    if facts == [] then []
    else
      var front := Dedupe(facts[..|facts| - 1]);
      if facts[|facts| - 1] in front then front else front + [facts[|facts| - 1]]
  }

  lemma {:induction false} DedupeSpec(facts: seq<string>)
    ensures NoDuplicates(Dedupe(facts))
    ensures forall f :: f in Dedupe(facts) <==> f in facts
    ensures |Dedupe(facts)| <= |facts|
  {
    if facts != [] {
      DedupeSpec(facts[..|facts| - 1]);
      assert facts == facts[..|facts| - 1] + [facts[|facts| - 1]];
    }
  }

  method DedupeLoop(facts: seq<string>) returns (out: seq<string>)
    ensures out == Dedupe(facts)
  {
    var seen: set<string> := {};
    out := [];
    for i := 0 to |facts|
      invariant out == Dedupe(facts[..i])
      invariant forall f :: f in seen <==> f in out
    {
      assert facts[..i + 1][..i] == facts[..i];
      if facts[i] !in seen {
        seen := seen + {facts[i]};
        out := out + [facts[i]];
      }
    }
    assert facts[..|facts|] == facts;
  }

  lemma {:induction false} DedupeFixed(facts: seq<string>)
    requires NoDuplicates(facts)
    ensures Dedupe(facts) == facts
  {
    if facts != [] {
      var front := facts[..|facts| - 1];
      DedupeFixed(front);
      assert facts == front + [facts[|facts| - 1]];
    }
  }

  lemma {:induction false} DedupeKnown(facts: seq<string>, more: seq<string>)
    requires forall f :: f in more ==> f in facts
    ensures Dedupe(facts + more) == Dedupe(facts)
  {
    if more == [] {
      assert facts + more == facts;
    } else {
      var front, last := more[..|more| - 1], more[|more| - 1];
      assert more == front + [last];
      DedupeKnown(facts, front);
      DedupeSpec(facts);
      assert (facts + more)[..|facts + more| - 1] == facts + front;
    }
  }

  /** `merged[-cap:]` when there are more than `cap` facts; a zero cap keeps all of them. */
  function Capped(facts: seq<string>, cap: int): (r: seq<string>)
    ensures cap > 0 ==> |r| <= cap
  {
    if cap == 0 || |facts| <= cap then facts
    else if cap > 0 then facts[|facts| - cap..]
    else if -cap <= |facts| then facts[-cap..] else []
  }

  function NonBlank(facts: seq<string>): seq<string> {
    if facts == [] then []
    else NonBlank(facts[..|facts| - 1]) + if Strip(facts[|facts| - 1]) != "" then [Strip(facts[|facts| - 1])] else []
  }

  /** The facts kept after a rewrite: the prior ones, then the new ones stripped. */
  function Kept(prior: seq<string>, facts: seq<string>, cap: int): seq<string> {
    Capped(Dedupe(prior + NonBlank(facts)), cap)
  }

  /** What is kept is duplicate-free, comes from the prior or the new facts, and respects a positive cap. */
  lemma KeptSpec(prior: seq<string>, facts: seq<string>, cap: int)
    ensures NoDuplicates(Kept(prior, facts, cap))
    ensures forall f :: f in Kept(prior, facts, cap) ==> f in prior || f in NonBlank(facts)
    ensures cap > 0 ==> |Kept(prior, facts, cap)| <= cap
    ensures cap >= 0 && |Dedupe(prior + NonBlank(facts))| <= cap ==> Kept(prior, facts, cap) == Dedupe(prior + NonBlank(facts))
  {
    DedupeSpec(prior + NonBlank(facts));
    CappedMember(Dedupe(prior + NonBlank(facts)), cap);
  }

  /** The fact is first mentioned at place `p`. */
  predicate FirstMention(facts: seq<string>, f: string, p: nat) {
    p < |facts| && facts[p] == f && f !in facts[..p]
  }

  lemma {:induction false} MentionedFirst(facts: seq<string>, f: string) returns (p: nat)
    requires f in facts
    ensures FirstMention(facts, f, p)
  {
    var front := facts[..|facts| - 1];
    if f in front {
      p := MentionedFirst(front, f);
      assert facts[..p] == front[..p];
    } else {
      p := |facts| - 1;
    }
  }

  /** The distinct facts stand in the order in which they are first mentioned. */
  lemma {:induction false} DedupeInOrder(facts: seq<string>, i: nat, j: nat) returns (p: nat, q: nat)
    requires i < j < |Dedupe(facts)|
    ensures p < q && FirstMention(facts, Dedupe(facts)[i], p) && FirstMention(facts, Dedupe(facts)[j], q)
  {
    var front := facts[..|facts| - 1];
    DedupeSpec(front);
    if j < |Dedupe(front)| {
      p, q := DedupeInOrder(front, i, j);
      assert facts[..p] == front[..p] && facts[..q] == front[..q];
    } else {
      assert Dedupe(front)[i] in Dedupe(front);
      p := MentionedFirst(front, Dedupe(front)[i]);
      q := |facts| - 1;
      assert facts[..p] == front[..p] && facts[..q] == front;
    }
  }

  lemma {:induction false} NonBlankIs(facts: seq<string>, f: string)
    ensures f in NonBlank(facts) <==> f != "" && exists p :: 0 <= p < |facts| && Strip(facts[p]) == f
  {
    if facts != [] {
      NonBlankIs(facts[..|facts| - 1], f);
      assert forall p :: 0 <= p < |facts| - 1 ==> facts[..|facts| - 1][p] == facts[p];
    }
  }

  lemma {:induction false} NonBlankInOrder(facts: seq<string>, i: nat, j: nat) returns (p: nat, q: nat)
    requires i < j < |NonBlank(facts)|
    ensures p < q < |facts| && Strip(facts[p]) == NonBlank(facts)[i] && Strip(facts[q]) == NonBlank(facts)[j]
  {
    var front := facts[..|facts| - 1];
    if j < |NonBlank(front)| {
      p, q := NonBlankInOrder(front, i, j);
    } else {
      NonBlankIs(front, NonBlank(front)[i]);
      p :| p < |front| && Strip(front[p]) == NonBlank(front)[i];
      q := |facts| - 1;
    }
  }

  /** A fact the cap drops was mentioned before every fact that is kept. */
  lemma DroppedAreOldest(prior: seq<string>, facts: seq<string>, cap: int, f: string, g: string) returns (p: nat, q: nat)
    requires cap >= 0 && (f in prior || f in NonBlank(facts)) && f !in Kept(prior, facts, cap) && g in Kept(prior, facts, cap)
    ensures p < q && FirstMention(prior + NonBlank(facts), f, p) && FirstMention(prior + NonBlank(facts), g, q)
  {
    var all := prior + NonBlank(facts);
    var merged := Dedupe(all);
    DedupeSpec(all);
    assert f in merged && cap > 0 && |merged| > cap;
    var i: nat :| i < |merged| && merged[i] == f;
    var k: nat :| k < cap && merged[|merged| - cap..][k] == g;
    forall m | |merged| - cap <= m < |merged|
      ensures merged[m] in Kept(prior, facts, cap)
    {
      assert merged[|merged| - cap..][m - (|merged| - cap)] == merged[m];
    }
    p, q := DedupeInOrder(all, i, |merged| - cap + k);
  }

  lemma CappedMember(facts: seq<string>, cap: int)
    requires NoDuplicates(facts)
    ensures NoDuplicates(Capped(facts, cap)) && forall f :: f in Capped(facts, cap) ==> f in facts
  {
  }

  /** A rewrite without new facts keeps exactly what the last one kept. */
  lemma KeptAgain(prior: seq<string>, facts: seq<string>, cap: int)
    requires cap >= 0
    ensures Kept(Kept(prior, facts, cap), [], cap) == Kept(prior, facts, cap)
  {
    var kept := Kept(prior, facts, cap);
    KeptSpec(prior, facts, cap);
    assert kept + NonBlank([]) == kept;
    DedupeFixed(kept);
  }

  /** Repeating the same facts changes nothing exactly when the cap has dropped none of them. */
  lemma RepeatIff(prior: seq<string>, facts: seq<string>, cap: int)
    requires cap >= 0
    ensures Kept(Kept(prior, facts, cap), facts, cap) == Kept(prior, facts, cap) <==>
              forall f :: f in NonBlank(facts) ==> f in Kept(prior, facts, cap)
  {
    var kept := Kept(prior, facts, cap);
    KeptSpec(prior, facts, cap);
    DedupeFixed(kept);
    if forall f :: f in NonBlank(facts) ==> f in kept {
      DedupeKnown(kept, NonBlank(facts));
    } else {
      var f :| f in NonBlank(facts) && f !in kept;
      NewFactShows(kept, NonBlank(facts), cap, f);
    }
  }

  /** A fact that was not there before ends up among the kept ones, or pushes the first one out. */
  lemma NewFactShows(kept: seq<string>, more: seq<string>, cap: int, f: string)
    requires NoDuplicates(kept) && cap >= 0 && f in more && f !in kept && (cap > 0 ==> |kept| <= cap)
    ensures Capped(Dedupe(kept + more), cap) != kept
  {
    var merged := Dedupe(kept + more);
    DedupeSpec(kept + more);
    DedupeExtends(kept, more);
    DedupeFixed(kept);
    assert f in merged;
    if cap > 0 && |merged| > cap {
      var k: nat :| k < |merged| && merged[k] == f;
      assert |kept| < |merged| && merged[|kept|] !in kept;
      if Capped(merged, cap) == kept {
        CapShifts(merged, kept, cap);
        assert false;
      }
    }
  }

  lemma {:induction false} DedupeExtends(facts: seq<string>, more: seq<string>)
    ensures Dedupe(facts) <= Dedupe(facts + more)
  {
    if more == [] {
      assert facts + more == facts;
    } else {
      assert (facts + more)[..|facts + more| - 1] == facts + more[..|more| - 1];
      DedupeExtends(facts, more[..|more| - 1]);
    }
  }

  lemma CapShifts(merged: seq<string>, kept: seq<string>, cap: int)
    requires NoDuplicates(merged) && kept < merged && 0 < cap < |merged| && |kept| <= cap
    ensures merged[|merged| - cap..] != kept
  {
    var tail := merged[|merged| - cap..];
    assert tail[|tail| - 1] == merged[|merged| - 1];
    forall k | 0 <= k < |kept|
      ensures kept[k] != merged[|merged| - 1]
    {
      assert kept[k] == merged[k];
    }
  }

  /** With a cap of one, giving the same two facts again swaps which of them is kept. */
  lemma CapDropsRepeat()
    ensures Kept([], ["a", "b"], 1) == ["b"]
    ensures Kept(["b"], ["a", "b"], 1) == ["a"]
  {
    LettersStay();
    assert [] + ["a", "b"] == ["a", "b"];
    DedupeFixed(["a", "b"]);
    assert ["b"] + ["a", "b"] == ["b", "a"] + ["b"];
    DedupeKnown(["b", "a"], ["b"]);
    DedupeFixed(["b", "a"]);
  }

  lemma LettersStay()
    ensures NonBlank(["a", "b"]) == ["a", "b"]
  {
    StripFixed("a");
    StripFixed("b");
    assert ["a", "b"][..1] == ["a"] && ["a"][..0] == [];
    assert NonBlank(["a"]) == [] + ["a"];
  }

  // ---------------------------------------------------------------------------------------
  // Splitting and rewriting
  // ---------------------------------------------------------------------------------------

  function TrimStartNewlines(s: string): string {
    if s != "" && s[0] == '\n' then TrimStartNewlines(s[1..]) else s
  }

  /** `rstrip("\n")`. */
  function TrimEndNewlines(s: string): string {
    if s != "" && s[|s| - 1] == '\n' then TrimEndNewlines(s[..|s| - 1]) else s
  }

  /** The lines that are not blank, as they stand. */
  function Written(lines: seq<string>): seq<string> {
    if lines == [] then []
    else Written(lines[..|lines| - 1]) + if Strip(lines[|lines| - 1]) != "" then [lines[|lines| - 1]] else []
  }

  /** The lines that are not a marker. */
  function Unmarked(m: Markers, lines: seq<string>): seq<string> {
    if lines == [] then []
    else Unmarked(m, lines[..|lines| - 1]) +
         if Strip(lines[|lines| - 1]) == m.start || Strip(lines[|lines| - 1]) == m.end then [] else [lines[|lines| - 1]]
  }

  datatype Sections = NoPair | Pair(before: string, facts: seq<string>, after: string)

  function WithNewline(s: string): string {
    if s != "" && s[|s| - 1] != '\n' then s + "\n" else s
  }

  function FactsOf(inner: string): seq<string> {
    Written(Lines(TrimEndNewlines(TrimStartNewlines(inner))))
  }

  /** What lies between an opening marker at `s` and a closing one at `e`. */
  function Inside(m: Markers, text: string, s: nat, e: nat): string
    requires e <= |text|
  {
    if s + |m.start| <= e then text[s + |m.start|..e] else ""
  }

  /** `_split`, once both markers are found; a second opening marker inside makes the file malformed. */
  function SplitAt(m: Markers, text: string, s: nat, e: nat): Sections
    requires s <= |text| && e + |m.end| <= |text|
  {
    if e < s || !Free(Inside(m, text, s, e), m.start) then NoPair
    else Pair(WithNewline(text[..s]), FactsOf(Inside(m, text, s, e)), text[e + |m.end|..])
  }

  /** `_split`. */
  function Split(m: Markers, text: string): Sections {
    var s, e := Find(text, m.start, 0), Find(text, m.end, 0);
    if s.None? || e.None? then NoPair else SplitAt(m, text, s.value, e.value)
  }

  /** `_strip_marker_lines`, then the trailing newlines. */
  function Base(m: Markers, text: string): string {
    TrimEndNewlines(JoinLines(Unmarked(m, Lines(text))))
  }

  function Block(m: Markers, kept: seq<string>): string {
    JoinLines([m.start] + kept + [m.end])
  }

  /** What is put above a block appended to a text without a pair. */
  function Lead(m: Markers, text: string): string {
    if Base(m, text) == "" then "" else Base(m, text) + "\n\n"
  }

  /** `rewrite_agent_section`. */
  function Rewrite(m: Markers, text: string, facts: seq<string>, cap: int): string {
    match Split(m, text)
    case NoPair => Lead(m, text) + Block(m, Kept([], facts, cap)) + "\n"
    case Pair(before, prior, after) => before + Block(m, Kept(prior, facts, cap)) + after
  }

  // ---------------------------------------------------------------------------------------
  // A block is found again
  // ---------------------------------------------------------------------------------------

  /** A fact the section can hold: one non-blank line without a marker. */
  predicate GoodFact(m: Markers, f: string) {
    OneLine(f) && Strip(f) != "" && Free(f, m.start) && Free(f, m.end)
  }

  predicate GoodFacts(m: Markers, facts: seq<string>) {
    forall i :: 0 <= i < |facts| ==> GoodFact(m, facts[i])
  }

  function Listing(facts: seq<string>): string {
    if facts == [] then "" else facts[0] + "\n" + Listing(facts[1..])
  }

  lemma {:induction false} JoinedListing(facts: seq<string>, last: string)
    ensures JoinLines(facts + [last]) == Listing(facts) + last
  {
    if facts == [] {
      assert [] + [last] == [last];
    } else {
      assert (facts + [last])[1..] == facts[1..] + [last] && (facts + [last])[0] == facts[0];
      JoinedListing(facts[1..], last);
      assert facts[0] + "\n" + (Listing(facts[1..]) + last) == facts[0] + "\n" + Listing(facts[1..]) + last;
    }
  }

  lemma BlockIs(m: Markers, kept: seq<string>)
    ensures Block(m, kept) == m.start + "\n" + Listing(kept) + m.end
  {
    assert [m.start] + kept + [m.end] == [m.start] + (kept + [m.end]);
    assert ([m.start] + (kept + [m.end]))[1..] == kept + [m.end];
    JoinedListing(kept, m.end);
  }

  lemma {:induction false} ListingFree(m: Markers, facts: seq<string>, mark: string)
    requires Marker(mark) && forall i :: 0 <= i < |facts| ==> Free(facts[i], mark)
    ensures Free(Listing(facts), mark)
    ensures facts != [] ==> Listing(facts)[|Listing(facts)| - 1] == '\n'
  {
    if facts == [] {
      FreeOfAngle("", mark);
    } else {
      ListingFree(m, facts[1..], mark);
      FreeLine(facts[0], mark);
      FreeAcrossLine(facts[0] + "\n", Listing(facts[1..]), mark);
    }
  }

  lemma {:induction false} ListingJoined(facts: seq<string>)
    requires facts != []
    ensures Listing(facts) == JoinLines(facts) + "\n"
  {
    if |facts| > 1 {
      ListingJoined(facts[1..]);
    } else {
      assert facts[1..] == [];
    }
  }

  lemma GoodFactEnds(m: Markers, f: string)
    requires GoodFact(m, f)
    ensures f != "" && f[0] != '\n' && f[|f| - 1] != '\n'
  {
    if f == "" { StripFixed(f); }
    assert f != "" ==> !IsBreak(f[0]) && !IsBreak(f[|f| - 1]);
  }

  lemma {:induction false} JoinEnds(m: Markers, facts: seq<string>)
    requires GoodFacts(m, facts) && facts != []
    ensures var t := JoinLines(facts);
            t != "" && t[0] != '\n' && t[|t| - 1] != '\n'
  {
    GoodFactEnds(m, facts[0]);
    if |facts| > 1 { JoinEnds(m, facts[1..]); }
  }

  lemma {:induction false} WrittenAll(lines: seq<string>)
    requires forall i :: 0 <= i < |lines| ==> Strip(lines[i]) != ""
    ensures Written(lines) == lines
  {
    if lines != [] {
      WrittenAll(lines[..|lines| - 1]);
      assert lines == lines[..|lines| - 1] + [lines[|lines| - 1]];
    }
  }

  lemma TrimListing(m: Markers, kept: seq<string>)
    requires GoodFacts(m, kept)
    ensures TrimEndNewlines(TrimStartNewlines("\n" + Listing(kept))) == JoinLines(kept)
  {
    if kept == [] {
      assert ("\n" + "")[1..] == "";
    } else {
      ListingJoined(kept);
      JoinEnds(m, kept);
      TrimBoth(JoinLines(kept));
    }
  }

  lemma TrimBoth(t: string)
    requires t != "" && t[0] != '\n' && t[|t| - 1] != '\n'
    ensures TrimEndNewlines(TrimStartNewlines("\n" + (t + "\n"))) == t
  {
    var line := t + "\n";
    assert ("\n" + line)[1..] == line;
    assert TrimStartNewlines(line) == line;
    assert line[..|line| - 1] == t;
  }

  /** Reading the lines of a listing gives the facts back. */
  lemma FactsOfListing(m: Markers, kept: seq<string>)
    requires GoodFacts(m, kept)
    ensures FactsOf("\n" + Listing(kept)) == kept
  {
    TrimListing(m, kept);
    forall i | 0 <= i < |kept|
      ensures kept[i] != ""
    {
      GoodFactEnds(m, kept[i]);
    }
    LinesOfJoin(kept);
    WrittenAll(kept);
  }

  lemma InnerFree(m: Markers, kept: seq<string>)
    requires Proper(m) && GoodFacts(m, kept)
    ensures Free("\n" + Listing(kept), m.start) && Free("\n" + Listing(kept), m.end)
    ensures EndsLine("\n" + Listing(kept))
  {
    ListingFree(m, kept, m.start);
    ListingFree(m, kept, m.end);
    FreeOfAngle("\n", m.start);
    FreeOfAngle("\n", m.end);
    FreeAcrossLine("\n", Listing(kept), m.start);
    FreeAcrossLine("\n", Listing(kept), m.end);
  }

  predicate EndsLine(s: string) {
    s != "" && s[|s| - 1] == '\n'
  }

  /** Nothing above a fresh block's inside can be mistaken for its closing marker. */
  lemma HeadFree(m: Markers, pre: string, inner: string)
    requires Proper(m) && Free(pre, m.end) && (pre == "" || EndsLine(pre))
    requires EndsLine(inner) && inner[0] == '\n' && Free(inner, m.end)
    ensures Free(pre + m.start + inner, m.end)
  {
    var rest := inner[1..];
    MarkerInMarker(m.start, m.end);
    FreeLine(m.start, m.end);
    FreeAcrossLine(pre, m.start + "\n", m.end);
    FreePiece(inner, 1, |inner|, m.end);
    assert inner[1..|inner|] == rest && inner == "\n" + rest;
    FreeAcrossLine(pre + (m.start + "\n"), rest, m.end);
    assert pre + (m.start + "\n") + rest == pre + m.start + inner;
  }

  lemma StartFound(m: Markers, pre: string, rest: string)
    requires Proper(m) && Free(pre, m.start) && (pre == "" || EndsLine(pre))
    ensures Find(pre + m.start + rest, m.start, 0) == Some(|pre|)
  {
    assert pre[0..] == pre;
    FoundAfter(pre, m.start, rest, 0);
  }

  lemma EndFound(m: Markers, head: string, after: string)
    requires Proper(m) && Free(head, m.end) && EndsLine(head)
    ensures Find(head + m.end + after, m.end, 0) == Some(|head|)
  {
    assert head[0..] == head;
    FoundAfter(head, m.end, after, 0);
  }

  /** Where the two markers of a fresh block are found. */
  lemma MarkersFound(m: Markers, pre: string, inner: string, after: string)
    requires Proper(m) && Free(pre, m.start) && Free(pre, m.end) && (pre == "" || EndsLine(pre))
    requires EndsLine(inner) && inner[0] == '\n' && Free(inner, m.end)
    ensures var text := pre + m.start + inner + m.end + after;
            && Find(text, m.start, 0) == Some(|pre|)
            && Find(text, m.end, 0) == Some(|pre + m.start + inner|)
  {
    HeadFree(m, pre, inner);
    EndFound(m, pre + m.start + inner, after);
    StartFound(m, pre, inner + m.end + after);
    Regroup(pre + m.start, inner, m.end, after);
  }

  lemma Regroup(a: string, b: string, c: string, e: string)
    ensures a + (b + c + e) == a + b + c + e
  {
  }

  lemma FivePieces(a: string, b: string, c: string, d: string, e: string)
    ensures var text := a + b + c + d + e;
            text[..|a|] == a && text[|a| + |b|..|a + b + c|] == c && text[|a + b + c| + |d|..] == e
  {
  }

  lemma SplitAtAround(m: Markers, pre: string, inner: string, after: string)
    requires Free(inner, m.start)
    ensures SplitAt(m, pre + m.start + inner + m.end + after, |pre|, |pre + m.start + inner|) ==
              Pair(WithNewline(pre), FactsOf(inner), after)
  {
    FivePieces(pre, m.start, inner, m.end, after);
  }

  /** What `Split` makes of a text whose markers are found around `inner`. */
  lemma SplitAround(m: Markers, pre: string, inner: string, after: string)
    requires var text := pre + m.start + inner + m.end + after;
             Find(text, m.start, 0) == Some(|pre|) && Find(text, m.end, 0) == Some(|pre + m.start + inner|)
    requires Free(inner, m.start)
    ensures Split(m, pre + m.start + inner + m.end + after) == Pair(WithNewline(pre), FactsOf(inner), after)
  {
    SplitAtAround(m, pre, inner, after);
  }

  /** A block below marker-free lines splits into exactly what it was made of, whatever follows it. */
  lemma SplitBlock(m: Markers, pre: string, kept: seq<string>, after: string)
    requires Proper(m) && GoodFacts(m, kept)
    requires Free(pre, m.start) && Free(pre, m.end) && (pre == "" || EndsLine(pre))
    ensures Split(m, pre + Block(m, kept) + after) == Pair(pre, kept, after)
  {
    var inner := "\n" + Listing(kept);
    BlockText(m, pre, kept, after);
    InnerFree(m, kept);
    MarkersFound(m, pre, inner, after);
    SplitAround(m, pre, inner, after);
    FactsOfListing(m, kept);
  }

  lemma BlockText(m: Markers, pre: string, kept: seq<string>, after: string)
    ensures pre + Block(m, kept) + after == pre + m.start + ("\n" + Listing(kept)) + m.end + after
  {
    BlockIs(m, kept);
    assert pre + (m.start + "\n" + Listing(kept) + m.end) + after == pre + m.start + ("\n" + Listing(kept)) + m.end + after;
  }

  // ---------------------------------------------------------------------------------------
  // What a split guarantees
  // ---------------------------------------------------------------------------------------

  /** Before its first occurrence a text is free of a marker. */
  lemma PrefixFree(text: string, part: string, i: nat)
    requires Find(text, part, 0) == Some(i) && part != ""
    ensures Free(text[..i], part)
  {
    FindSpec(text, part, 0);
    forall j | 0 <= j <= i
      ensures !At(text[..i], j, part)
    {
      AtIff(text[..i], j, part);
      AtIff(text, j, part);
      if j < i { assert !At(text, j, part); }
    }
  }

  lemma {:induction false} TrimStartFree(s: string, part: string)
    requires Free(s, part)
    ensures Free(TrimStartNewlines(s), part)
  {
    if s != "" && s[0] == '\n' {
      FreePiece(s, 1, |s|, part);
      assert s[1..|s|] == s[1..];
      TrimStartFree(s[1..], part);
    }
  }

  lemma {:induction false} TrimEndFree(s: string, part: string)
    requires Free(s, part)
    ensures Free(TrimEndNewlines(s), part)
  {
    if s != "" && s[|s| - 1] == '\n' {
      FreePiece(s, 0, |s| - 1, part);
      assert s[0..|s| - 1] == s[..|s| - 1];
      TrimEndFree(s[..|s| - 1], part);
    }
  }

  lemma {:induction false} WrittenMember(lines: seq<string>, f: string)
    ensures f in Written(lines) <==> f in lines && Strip(f) != ""
  {
    if lines != [] {
      WrittenMember(lines[..|lines| - 1], f);
      assert lines == lines[..|lines| - 1] + [lines[|lines| - 1]];
    }
  }

  lemma FactsAreGood(m: Markers, inner: string)
    requires Free(inner, m.start) && Free(inner, m.end)
    ensures GoodFacts(m, FactsOf(inner))
  {
    var t := TrimEndNewlines(TrimStartNewlines(inner));
    TrimStartFree(inner, m.start);
    TrimStartFree(inner, m.end);
    TrimEndFree(TrimStartNewlines(inner), m.start);
    TrimEndFree(TrimStartNewlines(inner), m.end);
    LinesFree(t, m.start);
    LinesFree(t, m.end);
    LinesAreOneLiners(t);
    forall i | 0 <= i < |FactsOf(inner)|
      ensures GoodFact(m, FactsOf(inner)[i])
    {
      WrittenMember(Lines(t), FactsOf(inner)[i]);
      var k: nat :| k < |Lines(t)| && Lines(t)[k] == FactsOf(inner)[i];
    }
  }

  lemma NewlineKeepsFree(s: string, part: string)
    requires Marker(part) && Free(s, part)
    ensures Free(WithNewline(s), part) && (WithNewline(s) == "" || EndsLine(WithNewline(s)))
  {
    FreeLine(s, part);
  }

  /** The parts of a well-formed file: marker-free text above, facts the section can hold. */
  lemma PairIsGood(m: Markers, text: string)
    requires Proper(m) && Split(m, text).Pair?
    ensures var p := Split(m, text);
            && Free(p.before, m.start) && Free(p.before, m.end) && (p.before == "" || EndsLine(p.before))
            && GoodFacts(m, p.facts)
  {
    var s, e := Find(text, m.start, 0).value, Find(text, m.end, 0).value;
    PrefixFree(text, m.start, s);
    PrefixFree(text, m.end, e);
    SplitAtGood(m, text, s, e);
  }

  lemma SplitAtGood(m: Markers, text: string, s: nat, e: nat)
    requires Proper(m) && s <= |text| && e + |m.end| <= |text| && SplitAt(m, text, s, e).Pair?
    requires Free(text[..s], m.start) && Free(text[..e], m.end)
    ensures var p := SplitAt(m, text, s, e);
            && Free(p.before, m.start) && Free(p.before, m.end) && (p.before == "" || EndsLine(p.before))
            && GoodFacts(m, p.facts)
  {
    PairAboveFree(m, text, s, e);
    PairFactsGood(m, text, s, e);
  }

  lemma PairAboveFree(m: Markers, text: string, s: nat, e: nat)
    requires Proper(m) && s <= e <= |text| && Free(text[..s], m.start) && Free(text[..e], m.end)
    ensures var before := WithNewline(text[..s]);
            Free(before, m.start) && Free(before, m.end) && (before == "" || EndsLine(before))
  {
    FreePiece(text[..e], 0, s, m.end);
    assert text[..e][0..s] == text[..s];
    NewlineKeepsFree(text[..s], m.start);
    NewlineKeepsFree(text[..s], m.end);
  }

  lemma PairFactsGood(m: Markers, text: string, s: nat, e: nat)
    requires Proper(m) && s <= |text| && e <= |text| && Free(text[..e], m.end)
    requires Free(Inside(m, text, s, e), m.start)
    ensures GoodFacts(m, FactsOf(Inside(m, text, s, e)))
  {
    if s + |m.start| <= e {
      FreePiece(text[..e], s + |m.start|, e, m.end);
      assert text[..e][s + |m.start|..e] == text[s + |m.start|..e];
      FactsAreGood(m, text[s + |m.start|..e]);
    } else {
      FreeOfAngle("", m.start);
      FreeOfAngle("", m.end);
      FactsAreGood(m, "");
    }
  }

  // ---------------------------------------------------------------------------------------
  // Main results
  // ---------------------------------------------------------------------------------------

  /** New facts that are single lines without markers, once stripped. */
  predicate PlainFacts(m: Markers, facts: seq<string>) {
    forall i :: 0 <= i < |facts| ==>
      OneLine(Strip(facts[i])) && Free(Strip(facts[i]), m.start) && Free(Strip(facts[i]), m.end)
  }

  lemma {:induction false} NonBlankGood(m: Markers, facts: seq<string>)
    requires PlainFacts(m, facts)
    ensures GoodFacts(m, NonBlank(facts))
  {
    if facts != [] {
      NonBlankGood(m, facts[..|facts| - 1]);
      StripTwice(facts[|facts| - 1]);
    }
  }

  lemma KeptGood(m: Markers, prior: seq<string>, facts: seq<string>, cap: int)
    requires GoodFacts(m, prior) && PlainFacts(m, facts)
    ensures GoodFacts(m, Kept(prior, facts, cap))
  {
    NonBlankGood(m, facts);
    KeptSpec(prior, facts, cap);
    forall i | 0 <= i < |Kept(prior, facts, cap)|
      ensures GoodFact(m, Kept(prior, facts, cap)[i])
    {
      assert Kept(prior, facts, cap)[i] in Kept(prior, facts, cap);
    }
  }

  /**
   Rewriting a well-formed file: it splits again into the same human text on both sides, whatever
   stands below the section, and exactly the kept facts.
   */
  lemma RewriteSplits(m: Markers, text: string, facts: seq<string>, cap: int)
    requires Proper(m) && PlainFacts(m, facts) && Split(m, text).Pair?
    ensures var p := Split(m, text);
            Split(m, Rewrite(m, text, facts, cap)) == Pair(p.before, Kept(p.facts, facts, cap), p.after)
  {
    var p := Split(m, text);
    PairIsGood(m, text);
    KeptGood(m, p.facts, facts, cap);
    SplitBlock(m, p.before, Kept(p.facts, facts, cap), p.after);
  }

  lemma LeadFree(m: Markers, text: string)
    requires Proper(m) && Free(Base(m, text), m.start) && Free(Base(m, text), m.end)
    ensures Free(Lead(m, text), m.start) && Free(Lead(m, text), m.end) && (Lead(m, text) == "" || EndsLine(Lead(m, text)))
  {
    var b := Base(m, text);
    if b == "" {
      FreeOfAngle("", m.start);
      FreeOfAngle("", m.end);
    } else {
      FreeLine(b, m.start);
      FreeLine(b, m.end);
      FreeLine(b + "\n", m.start);
      FreeLine(b + "\n", m.end);
      assert b + "\n\n" == b + "\n" + "\n";
    }
  }

  /** Without a well-formed pair, but with no marker left in the text, the new section stands below all of it. */
  lemma FreshRewriteSplits(m: Markers, text: string, facts: seq<string>, cap: int)
    requires Proper(m) && PlainFacts(m, facts) && Split(m, text).NoPair?
    requires Free(Base(m, text), m.start) && Free(Base(m, text), m.end)
    ensures Split(m, Rewrite(m, text, facts, cap)) == Pair(Lead(m, text), Kept([], facts, cap), "\n")
  {
    LeadFree(m, text);
    KeptGood(m, [], facts, cap);
    SplitBlock(m, Lead(m, text), Kept([], facts, cap), "\n");
  }

  /** A further rewrite without new facts is the identity. */
  lemma RewriteAgain(m: Markers, text: string, facts: seq<string>, cap: int)
    requires Proper(m) && PlainFacts(m, facts) && cap >= 0
    requires Split(m, text).Pair? || (Free(Base(m, text), m.start) && Free(Base(m, text), m.end))
    ensures Rewrite(m, Rewrite(m, text, facts, cap), [], cap) == Rewrite(m, text, facts, cap)
  {
    if Split(m, text).Pair? {
      RewriteSplits(m, text, facts, cap);
      KeptAgain(Split(m, text).facts, facts, cap);
    } else {
      FreshRewriteSplits(m, text, facts, cap);
      KeptAgain([], facts, cap);
    }
  }

  /** A text without markers keeps none after the clean-up, so the two results above apply to it. */
  lemma PlainTextIsFree(m: Markers, text: string)
    requires Proper(m) && Free(text, m.start) && Free(text, m.end)
    ensures Split(m, text).NoPair? && Free(Base(m, text), m.start) && Free(Base(m, text), m.end)
  {
    FindSpec(text, m.start, 0);
    UnmarkedFree(m, text, m.start);
    UnmarkedFree(m, text, m.end);
  }

  lemma {:induction false} UnmarkedMember(m: Markers, lines: seq<string>, l: string)
    requires l in Unmarked(m, lines)
    ensures l in lines
  {
    if l in Unmarked(m, lines[..|lines| - 1]) { UnmarkedMember(m, lines[..|lines| - 1], l); }
  }

  lemma UnmarkedFree(m: Markers, text: string, mark: string)
    requires Marker(mark) && Free(text, mark)
    ensures Free(Base(m, text), mark)
  {
    var lines := Unmarked(m, Lines(text));
    LinesFree(text, mark);
    forall i | 0 <= i < |lines|
      ensures Free(lines[i], mark)
    {
      UnmarkedMember(m, Lines(text), lines[i]);
      var k: nat :| k < |Lines(text)| && Lines(text)[k] == lines[i];
    }
    JoinFree(lines, mark);
    TrimEndFree(JoinLines(lines), mark);
  }

  // ---------------------------------------------------------------------------------------
  // "Always exactly one marker pair": when it holds
  // ---------------------------------------------------------------------------------------

  ghost predicate OnlyAt(t: string, part: string, i: int) {
    At(t, i, part) && forall j :: At(t, j, part) ==> j == i
  }

  ghost predicate ExactlyOnePair(m: Markers, t: string) {
    exists s, e :: s < e && OnlyAt(t, m.start, s) && OnlyAt(t, m.end, e)
  }

  /** Past its first character a marker hides no marker. */
  lemma NotInsideMarker(a: string, mark: string, b: string, part: string, i: int)
    requires Marker(mark) && Marker(part) && |a| < i < |a| + |mark|
    ensures !At(a + mark + b, i, part)
  {
    AtIff(a + mark + b, i, part);
    assert (a + mark + b)[i] == mark[i - |a|];
  }

  /** Two markers that occur at one place start alike. */
  lemma SamePlace(t: string, i: int, p: string, q: string)
    requires At(t, i, p)
    ensures At(t, i, q) ==> p <= q || q <= p
  {
    AtIff(t, i, p);
    AtIff(t, i, q);
  }

  lemma NotOnOtherMarker(a: string, mark: string, b: string, part: string)
    requires !(mark <= part) && !(part <= mark)
    ensures !At(a + mark + b, |a|, part)
  {
    assert (a + mark + b)[|a|..|a| + |mark|] == mark;
    SamePlace(a + mark + b, |a|, mark, part);
  }

  lemma InTail(a: string, b: string, part: string, i: int)
    requires i >= |a|
    ensures At(a + b, i, part) <==> At(b, i - |a|, part)
  {
    if i + |part| <= |a + b| {
      assert (a + b)[i..i + |part|] == b[i - |a|..i - |a| + |part|];
    }
  }

  /** An occurrence of a marker never starts inside lines that are free of it. */
  lemma NotInLines(a: string, lines: string, b: string, part: string, i: int)
    requires Marker(part) && Free(lines, part) && EndsLine(lines) && |a| <= i < |a| + |lines|
    ensures !At(a + lines + b, i, part)
  {
    AtIff(a + lines + b, i, part);
    AtIff(lines, i - |a|, part);
    if i + |part| <= |a| + |lines| {
      assert !At(lines, i - |a|, part);
      assert (a + lines + b)[i..i + |part|] == lines[i - |a|..i - |a| + |part|];
    } else {
      assert (a + lines + b)[i + (|a| + |lines| - 1 - i)] == '\n';
    }
  }

  /** Inside its block the opening marker occurs only at the block's beginning. */
  lemma StartNotInside(m: Markers, pre: string, inner: string, after: string, i: int)
    requires Proper(m) && Free(inner, m.start) && EndsLine(inner)
    requires |pre| < i < |pre + m.start + inner + m.end|
    ensures !At(pre + m.start + inner + m.end + after, i, m.start)
  {
    if i < |pre + m.start| {
      NotInsideMarker(pre, m.start, inner + m.end + after, m.start, i);
      Regroup(pre + m.start, inner, m.end, after);
    } else if i < |pre + m.start + inner| {
      NotInLines(pre + m.start, inner, m.end + after, m.start, i);
      assert pre + m.start + inner + (m.end + after) == pre + m.start + inner + m.end + after;
    } else {
      InEndMarker(m, pre + m.start + inner, after, m.start, i);
    }
  }

  /** Where the opening marker occurs in a rewritten text: in its block, and where the text below has it. */
  lemma StartOccurs(m: Markers, pre: string, inner: string, after: string, i: int)
    requires Proper(m) && Free(pre, m.start) && (pre == "" || EndsLine(pre)) && Free(inner, m.start) && EndsLine(inner)
    ensures var head := pre + m.start + inner + m.end;
            At(head + after, i, m.start) <==> i == |pre| || At(after, i - |head|, m.start)
  {
    var head := pre + m.start + inner + m.end;
    if i <= |pre| {
      StartFirst(m, pre, inner, after, i);
    } else if i < |head| {
      StartNotInside(m, pre, inner, after, i);
    } else {
      InTail(head, after, m.start, i);
    }
  }

  lemma StartFirst(m: Markers, pre: string, inner: string, after: string, i: int)
    requires Proper(m) && Free(pre, m.start) && (pre == "" || EndsLine(pre)) && i <= |pre|
    ensures At(pre + m.start + inner + m.end + after, i, m.start) <==> i == |pre|
  {
    StartFound(m, pre, inner + m.end + after);
    Regroup(pre + m.start, inner, m.end, after);
    FindSpec(pre + m.start + inner + m.end + after, m.start, 0);
  }

  lemma InEndMarker(m: Markers, a: string, after: string, part: string, i: int)
    requires Proper(m) && Marker(part) && !(m.end <= part) && !(part <= m.end) && |a| <= i < |a + m.end|
    ensures !At(a + m.end + after, i, part)
  {
    if i == |a| { NotOnOtherMarker(a, m.end, after, part); } else { NotInsideMarker(a, m.end, after, part, i); }
  }

  lemma EndOccurs(m: Markers, top: string, after: string, i: int)
    requires Proper(m) && Free(top, m.end) && EndsLine(top)
    ensures At(top + m.end + after, i, m.end) <==> i == |top| || At(after, i - |top + m.end|, m.end)
  {
    if i <= |top| {
      EndFirst(m, top, after, i);
    } else if i < |top + m.end| {
      NotInsideMarker(top, m.end, after, m.end, i);
    } else {
      InTail(top + m.end, after, m.end, i);
    }
  }

  lemma EndFirst(m: Markers, top: string, after: string, i: int)
    requires Proper(m) && Free(top, m.end) && EndsLine(top) && i <= |top|
    ensures At(top + m.end + after, i, m.end) <==> i == |top|
  {
    EndFound(m, top, after);
    FindSpec(top + m.end + after, m.end, 0);
  }

  lemma OnlyStartIff(m: Markers, pre: string, inner: string, after: string)
    requires Proper(m) && Free(pre, m.start) && (pre == "" || EndsLine(pre)) && Free(inner, m.start) && EndsLine(inner)
    ensures var t := pre + m.start + inner + m.end + after;
            && At(t, |pre|, m.start)
            && (OnlyAt(t, m.start, |pre|) <==> Free(after, m.start))
  {
    var head := pre + m.start + inner + m.end;
    forall i
      ensures At(head + after, i, m.start) <==> i == |pre| || At(after, i - |head|, m.start)
    {
      StartOccurs(m, pre, inner, after, i);
    }
    if !Free(after, m.start) {
      var j :| 0 <= j <= |after| && At(after, j, m.start);
      assert At(head + after, j + |head|, m.start);
    }
  }

  lemma OnlyEndIff(m: Markers, top: string, after: string)
    requires Proper(m) && Free(top, m.end) && EndsLine(top)
    ensures var t := top + m.end + after;
            && At(t, |top|, m.end)
            && (OnlyAt(t, m.end, |top|) <==> Free(after, m.end))
  {
    var head := top + m.end;
    forall i
      ensures At(head + after, i, m.end) <==> i == |top| || At(after, i - |head|, m.end)
    {
      EndOccurs(m, top, after, i);
    }
    if !Free(after, m.end) {
      var j :| 0 <= j <= |after| && At(after, j, m.end);
      assert At(head + after, j + |head|, m.end);
    }
  }

  /** A block below marker-free lines is the only pair exactly when nothing below it is a marker. */
  lemma BlockIsOnlyPair(m: Markers, pre: string, kept: seq<string>, after: string)
    requires Proper(m) && GoodFacts(m, kept) && Free(pre, m.start) && Free(pre, m.end) && (pre == "" || EndsLine(pre))
    ensures ExactlyOnePair(m, pre + Block(m, kept) + after) <==> Free(after, m.start) && Free(after, m.end)
  {
    var inner := "\n" + Listing(kept);
    var t, top := pre + Block(m, kept) + after, pre + m.start + inner;
    BlockText(m, pre, kept, after);
    InnerFree(m, kept);
    HeadFree(m, pre, inner);
    OnlyStartIff(m, pre, inner, after);
    OnlyEndIff(m, top, after);
    if Free(after, m.start) && Free(after, m.end) {
      assert OnlyAt(t, m.start, |pre|) && OnlyAt(t, m.end, |top|);
    }
  }

  /** In place of a well-formed pair: exactly one pair afterwards iff no marker stood below the old one. */
  lemma OnePairIff(m: Markers, text: string, facts: seq<string>, cap: int)
    requires Proper(m) && PlainFacts(m, facts) && Split(m, text).Pair?
    ensures ExactlyOnePair(m, Rewrite(m, text, facts, cap)) <==>
              Free(Split(m, text).after, m.start) && Free(Split(m, text).after, m.end)
  {
    var p := Split(m, text);
    PairIsGood(m, text);
    KeptGood(m, p.facts, facts, cap);
    BlockIsOnlyPair(m, p.before, Kept(p.facts, facts, cap), p.after);
  }

  lemma SecondOccurrence(t: string, part: string, i: int, j: int, k: int)
    requires At(t, i, part) && At(t, j, part) && i != j
    ensures !OnlyAt(t, part, k)
  {
  }

  lemma SliceAt(a: string, b: string, c: string, t: string)
    requires t == a + (b + c)
    ensures |a| + |b| <= |t| && t[|a|..|a| + |b|] == b
  {
    assert t[|a|..] == b + c;
  }

  lemma MarkInBlock(m: Markers, pre: string, kept: seq<string>, mark: string) returns (i: nat)
    requires mark == m.start || mark == m.end
    ensures i >= |pre| && At(pre + Block(m, kept) + "\n", i, mark)
  {
    var inner, t := "\n" + Listing(kept), pre + Block(m, kept) + "\n";
    BlockText(m, pre, kept, "\n");
    if mark == m.start {
      i := |pre|;
      SliceAt(pre, mark, inner + m.end + "\n", t);
    } else {
      i := |pre + m.start + inner|;
      SliceAt(pre + m.start + inner, mark, "\n", t);
    }
  }

  /** A marker that survives in the text above stays a second one. */
  lemma LeftoverBreaksPair(m: Markers, base: string, kept: seq<string>, mark: string)
    requires Proper(m) && (mark == m.start || mark == m.end) && !Free(base, mark)
    ensures !ExactlyOnePair(m, base + "\n\n" + Block(m, kept) + "\n")
  {
    var j :| 0 <= j <= |base| && At(base, j, mark);
    var t := base + "\n\n" + Block(m, kept) + "\n";
    var i := MarkInBlock(m, base + "\n\n", kept, mark);
    AtIff(base, j, mark);
    AtIff(t, j, mark);
    forall k
      ensures !OnlyAt(t, mark, k)
    {
      SecondOccurrence(t, mark, i, j, k);
    }
  }

  /** Without a well-formed pair: exactly one pair afterwards iff the clean-up left no marker in the text. */
  lemma CleanedOnePairIff(m: Markers, text: string, facts: seq<string>, cap: int)
    requires Proper(m) && PlainFacts(m, facts) && Split(m, text).NoPair?
    ensures ExactlyOnePair(m, Rewrite(m, text, facts, cap)) <==> Free(Base(m, text), m.start) && Free(Base(m, text), m.end)
  {
    KeptGood(m, [], facts, cap);
    if Free(Base(m, text), m.start) && Free(Base(m, text), m.end) {
      LeadFree(m, text);
      FreeOfAngle("\n", m.start);
      FreeOfAngle("\n", m.end);
      BlockIsOnlyPair(m, Lead(m, text), Kept([], facts, cap), "\n");
    } else {
      if Base(m, text) == "" { FreeOfAngle("", m.start); FreeOfAngle("", m.end); }
      LeftoverBreaksPair(m, Base(m, text), Kept([], facts, cap), if !Free(Base(m, text), m.start) then m.start else m.end);
    }
  }

  /** A line the clean-up removes, or one without markers. */
  predicate CleanLine(m: Markers, l: string) {
    Strip(l) == m.start || Strip(l) == m.end || (Free(l, m.start) && Free(l, m.end))
  }

  predicate CleanLines(m: Markers, text: string) {
    forall i :: 0 <= i < |Lines(text)| ==> CleanLine(m, Lines(text)[i])
  }

  lemma {:induction false} PartsFree(parts: seq<string>, mark: string, k: nat)
    requires Free(JoinLines(parts), mark) && k < |parts|
    ensures Free(parts[k], mark)
  {
    if |parts| > 1 {
      var whole, first := JoinLines(parts), parts[0];
      if k == 0 {
        FreePiece(whole, 0, |first|, mark);
        assert whole[0..|first|] == first;
      } else {
        FreePiece(whole, |first| + 1, |whole|, mark);
        assert whole[|first| + 1..|whole|] == JoinLines(parts[1..]);
        PartsFree(parts[1..], mark, k - 1);
      }
    }
  }

  lemma {:induction false} TrimmedFree(s: string, mark: string)
    requires Marker(mark) && Free(TrimEndNewlines(s), mark)
    ensures Free(s, mark)
  {
    if s != "" && s[|s| - 1] == '\n' {
      TrimmedFree(s[..|s| - 1], mark);
      FreeLine(s[..|s| - 1], mark);
      assert s == s[..|s| - 1] + "\n";
    }
  }

  lemma {:induction false} UnmarkedKept(m: Markers, lines: seq<string>, l: string)
    ensures l in Unmarked(m, lines) <==> l in lines && Strip(l) != m.start && Strip(l) != m.end
  {
    if lines != [] {
      UnmarkedKept(m, lines[..|lines| - 1], l);
      assert lines == lines[..|lines| - 1] + [lines[|lines| - 1]];
    }
  }

  lemma BaseFreeIff(m: Markers, text: string)
    requires Proper(m)
    ensures Free(Base(m, text), m.start) && Free(Base(m, text), m.end) <==> CleanLines(m, text)
  {
    var lines := Unmarked(m, Lines(text));
    if Free(Base(m, text), m.start) && Free(Base(m, text), m.end) {
      TrimmedFree(JoinLines(lines), m.start);
      TrimmedFree(JoinLines(lines), m.end);
      forall i | 0 <= i < |Lines(text)|
        ensures CleanLine(m, Lines(text)[i])
      {
        LineIsClean(m, lines, Lines(text), i);
      }
    }
    if CleanLines(m, text) {
      forall i | 0 <= i < |lines|
        ensures Free(lines[i], m.start) && Free(lines[i], m.end)
      {
        UnmarkedKept(m, Lines(text), lines[i]);
        var k: nat :| k < |Lines(text)| && Lines(text)[k] == lines[i];
        assert CleanLine(m, Lines(text)[k]);
      }
      JoinFree(lines, m.start);
      JoinFree(lines, m.end);
      TrimEndFree(JoinLines(lines), m.start);
      TrimEndFree(JoinLines(lines), m.end);
    }
  }

  lemma LineIsClean(m: Markers, kept: seq<string>, lines: seq<string>, i: nat)
    requires kept == Unmarked(m, lines) && i < |lines|
    requires Free(JoinLines(kept), m.start) && Free(JoinLines(kept), m.end)
    ensures CleanLine(m, lines[i])
  {
    UnmarkedKept(m, lines, lines[i]);
    if lines[i] in kept {
      var k: nat :| k < |kept| && kept[k] == lines[i];
      PartsFree(kept, m.start, k);
      PartsFree(kept, m.end, k);
    }
  }

  /**
   Without a well-formed pair: exactly one pair afterwards iff every line of the file that contains
   a marker is, blanks aside, exactly that marker.
   */
  lemma FreshOnePairIff(m: Markers, text: string, facts: seq<string>, cap: int)
    requires Proper(m) && PlainFacts(m, facts) && Split(m, text).NoPair?
    ensures ExactlyOnePair(m, Rewrite(m, text, facts, cap)) <==> CleanLines(m, text)
  {
    CleanedOnePairIff(m, text, facts, cap);
    BaseFreeIff(m, text);
  }

  /** The facts a rewrite finds in the file. */
  function PriorFacts(m: Markers, text: string): seq<string> {
    match Split(m, text) case NoPair => [] case Pair(_, facts, _) => facts
  }

  /**
   Writing the same facts into the file again leaves it as it is exactly when the cap has dropped
   none of them.
   */
  lemma RewriteRepeatIff(m: Markers, text: string, facts: seq<string>, cap: int)
    requires Proper(m) && PlainFacts(m, facts) && cap >= 0
    requires Split(m, text).Pair? || CleanLines(m, text)
    ensures var once := Rewrite(m, text, facts, cap);
            Rewrite(m, once, facts, cap) == once <==>
              forall f :: f in NonBlank(facts) ==> f in Kept(PriorFacts(m, text), facts, cap)
  {
    var once, kept := Rewrite(m, text, facts, cap), Kept(PriorFacts(m, text), facts, cap);
    RepeatIff(PriorFacts(m, text), facts, cap);
    if Split(m, text).Pair? {
      RewriteSplits(m, text, facts, cap);
    } else {
      BaseFreeIff(m, text);
      FreshRewriteSplits(m, text, facts, cap);
    }
    assert Split(m, once).facts == kept;
    RewriteSplits(m, once, facts, cap);
    if Kept(kept, facts, cap) == kept {
      assert Rewrite(m, once, facts, cap) == once;
    }
  }

  /** A stray opening marker inside a line is not stripped: the rewritten file has two of them. */
  lemma InlineMarkerSurvives(m: Markers, facts: seq<string>, cap: int)
    requires Proper(m) && PlainFacts(m, facts)
    ensures !ExactlyOnePair(m, Rewrite(m, "x" + m.start, facts, cap))
  {
    var text := "x" + m.start;
    InlineSplit(m);
    InlineBase(m);
    assert text[1..1 + |m.start|] == m.start;
    assert At(text, 1, m.start);
    CleanedOnePairIff(m, text, facts, cap);
  }

  lemma InlineSplit(m: Markers)
    requires Proper(m)
    ensures Split(m, "x" + m.start).NoPair?
  {
    var text := "x" + m.start;
    MarkerInMarker(m.start, m.end);
    forall i | 0 <= i <= |text|
      ensures !At(text, i, m.end)
    {
      if i == 0 { AtIff(text, 0, m.end); } else { InTail("x", m.start, m.end, i); }
    }
    FindNone(text, m.end);
  }

  lemma {:induction false} FindNone(s: string, part: string)
    requires Free(s, part)
    ensures Find(s, part, 0).None?
  {
    FindSpec(s, part, 0);
  }

  lemma InlineBase(m: Markers)
    requires Proper(m)
    ensures Base(m, "x" + m.start) == TrimEndNewlines("x" + m.start) == "x" + m.start
  {
    var text := "x" + m.start;
    assert OneLine(text);
    BreakAtIs(text, "");
    assert text + "" == text;
    assert Lines(text) == [text];
    TrimRightSpec(TrimLeft(text));
    TrimRightKeepsFirst(text);
    assert Unmarked(m, [text][..0]) == [];
    assert Unmarked(m, [text]) == [text];
    assert text[|text| - 1] == m.start[|m.start| - 1];
  }

  lemma TrimRightKeepsFirst(text: string)
    requires text != "" && text[0] == 'x'
    ensures Strip(text) != "" && Strip(text)[0] == 'x'
  {
    TrimRightSpec(text);
    assert TrimLeft(text) == text;
  }

  // ---------------------------------------------------------------------------------------
  // "Preserved byte-for-byte": when it holds for a file without a section
  // ---------------------------------------------------------------------------------------

  /** The only line breaks are newlines. */
  predicate PlainNewlines(s: string) {
    forall i :: 0 <= i < |s| && IsBreak(s[i]) ==> s[i] == '\n'
  }

  lemma StripInside(l: string, mark: string)
    requires Free(l, mark)
    ensures Strip(l) != mark
  {
    var a := TrimLeft(l);
    var b := TrimRight(a);
    TrimLeftSpec(l);
    TrimRightSpec(a);
    var lo := |l| - |a|;
    assert l[lo..lo + |b|] == b;
    assert At(l, lo, b) && !At(l, lo, mark);
  }

  lemma {:induction false} UnmarkedAll(m: Markers, lines: seq<string>)
    requires forall i :: 0 <= i < |lines| ==> Free(lines[i], m.start) && Free(lines[i], m.end)
    ensures Unmarked(m, lines) == lines
  {
    if lines != [] {
      UnmarkedAll(m, lines[..|lines| - 1]);
      StripInside(lines[|lines| - 1], m.start);
      StripInside(lines[|lines| - 1], m.end);
      assert lines == lines[..|lines| - 1] + [lines[|lines| - 1]];
    }
  }

  lemma {:induction false} JoinBreaks(parts: seq<string>)
    requires OneLiners(parts)
    ensures PlainNewlines(JoinLines(parts))
  {
    if |parts| > 1 {
      JoinBreaks(parts[1..]);
      var rest := JoinLines(parts[1..]);
      forall i | 0 <= i < |JoinLines(parts)| && IsBreak(JoinLines(parts)[i])
        ensures JoinLines(parts)[i] == '\n'
      {
        if i > |parts[0]| { assert JoinLines(parts)[i] == rest[i - |parts[0]| - 1]; }
      }
    }
  }

  lemma {:induction false} TrimEndPlain(s: string)
    requires PlainNewlines(s)
    ensures PlainNewlines(TrimEndNewlines(s)) && !EndsLine(TrimEndNewlines(s))
  {
    if s != "" && s[|s| - 1] == '\n' { TrimEndPlain(s[..|s| - 1]); }
  }

  lemma LinesStep(s: string) returns (line: string, rest: string)
    requires PlainNewlines(s) && BreakAt(s) < |s|
    ensures s == line + "\n" + rest && PlainNewlines(rest)
    ensures Lines(s) == [line] + Lines(rest)
  {
    var i := BreakAt(s);
    line, rest := s[..i], s[i + 1..];
    assert s[i] == '\n' && s == line + "\n" + rest;
    FirstLine(line, rest);
    assert forall k :: 0 <= k < |rest| ==> rest[k] == s[i + 1 + k];
  }

  lemma LastLine(s: string)
    requires BreakAt(s) == |s|
    ensures JoinLines(Lines(s)) == s && !EndsLine(s)
  {
    assert s[..|s|] == s;
  }

  lemma JoinCons(line: string, parts: seq<string>)
    ensures JoinLines([line] + parts) == if parts == [] then line else line + "\n" + JoinLines(parts)
  {
    assert ([line] + parts)[1..] == parts;
  }

  lemma LessFinalNewline(line: string, rest: string)
    ensures var s := line + "\n" + rest;
            (if EndsLine(s) then s[..|s| - 1] else s) ==
              if rest == "" then line else line + "\n" + if EndsLine(rest) then rest[..|rest| - 1] else rest
  {
    var s := line + "\n" + rest;
    if rest == "" {
      assert s[..|s| - 1] == line;
    } else {
      assert s[|s| - 1] == rest[|rest| - 1] && s[..|s| - 1] == line + "\n" + rest[..|rest| - 1];
    }
  }

  /** Lines broken at newlines only join to the same text, less a final newline. */
  lemma {:induction false} JoinOfLines(s: string)
    requires PlainNewlines(s)
    ensures JoinLines(Lines(s)) == if EndsLine(s) then s[..|s| - 1] else s
    decreases |s|
  {
    if BreakAt(s) == |s| {
      LastLine(s);
    } else {
      var line, rest := LinesStep(s);
      JoinCons(line, Lines(rest));
      JoinOfLines(rest);
      if rest != "" { LinesNonEmpty(rest); }
      LessFinalNewline(line, rest);
    }
  }

  lemma LinesNonEmpty(s: string)
    requires s != ""
    ensures Lines(s) != []
  {
  }

  lemma {:induction false} TrimEndSpec(s: string)
    ensures TrimEndNewlines(s) <= s
    ensures forall i :: |TrimEndNewlines(s)| <= i < |s| ==> s[i] == '\n'
  {
    if s != "" && s[|s| - 1] == '\n' { TrimEndSpec(s[..|s| - 1]); }
  }

  /** What a text without markers is reduced to when a section is put below it. */
  lemma BaseOfPlain(m: Markers, text: string)
    requires Proper(m) && Free(text, m.start) && Free(text, m.end) && PlainNewlines(text)
    ensures Base(m, text) == TrimEndNewlines(text)
  {
    LinesFree(text, m.start);
    LinesFree(text, m.end);
    UnmarkedAll(m, Lines(text));
    JoinOfLines(text);
  }

  lemma BasePlain(m: Markers, text: string)
    requires Free(text, m.start) && Free(text, m.end)
    ensures PlainNewlines(Base(m, text))
  {
    LinesFree(text, m.start);
    LinesFree(text, m.end);
    UnmarkedAll(m, Lines(text));
    LinesAreOneLiners(text);
    JoinBreaks(Lines(text));
    TrimEndPlain(JoinLines(Lines(text)));
  }

  lemma FreshPlain(m: Markers, text: string, facts: seq<string>, cap: int)
    requires Proper(m) && PlainFacts(m, facts) && Free(text, m.start) && Free(text, m.end)
    ensures PlainNewlines(Rewrite(m, text, facts, cap))
  {
    var kept := Kept([], facts, cap);
    PlainTextIsFree(m, text);
    BasePlain(m, text);
    KeptGood(m, [], facts, cap);
    JoinBreaks([m.start] + kept + [m.end]);
    assert PlainNewlines(Lead(m, text)) && PlainNewlines(Block(m, kept));
  }

  /** The text is empty, or has a last line with at most two newlines below it. */
  predicate FewTrailingNewlines(text: string) {
    var body := TrimEndNewlines(text);
    text == "" || (body != "" && |text| - |body| <= 2)
  }

  lemma PrefixOfPlain(text: string, below: string)
    requires below != "" && below[0] != '\n'
    ensures var body := TrimEndNewlines(text);
            text <= (if body == "" then "" else body + "\n\n") + below <==> FewTrailingNewlines(text)
  {
    var body := TrimEndNewlines(text);
    var lead := if body == "" then "" else body + "\n\n";
    TrimEndSpec(text);
    if |text| > |lead| {
      assert text[|lead|] == '\n' && (lead + below)[|lead|] == below[0];
    } else {
      assert text == lead[..|text|];
    }
  }

  /**
   A file without markers is kept byte for byte, with the section below it, exactly when its line
   breaks are plain newlines and, unless it is empty, at most two of them are below its last line.
   */
  lemma HumanTextKeptIff(m: Markers, text: string, facts: seq<string>, cap: int)
    requires Proper(m) && PlainFacts(m, facts) && Free(text, m.start) && Free(text, m.end)
    ensures text <= Rewrite(m, text, facts, cap) <==> PlainNewlines(text) && FewTrailingNewlines(text)
  {
    var r, kept := Rewrite(m, text, facts, cap), Kept([], facts, cap);
    PlainTextIsFree(m, text);
    FreshPlain(m, text, facts, cap);
    if text <= r {
      assert forall i :: 0 <= i < |text| ==> text[i] == r[i];
    }
    if PlainNewlines(text) {
      BaseOfPlain(m, text);
      BlockIs(m, kept);
      var below := Block(m, kept) + "\n";
      assert below[0] == m.start[0];
      assert r == Lead(m, text) + below;
      PrefixOfPlain(text, below);
    }
  }

  /**
   A file with a section is kept byte for byte on both sides exactly when the section starts a
   line: otherwise a newline is inserted above it.
   */
  lemma SidesKeptIff(m: Markers, text: string, facts: seq<string>, cap: int)
    requires Split(m, text).Pair?
    ensures Find(text, m.start, 0).Some? && Find(text, m.end, 0).Some?
    ensures var s, e := Find(text, m.start, 0).value, Find(text, m.end, 0).value;
            var block := Block(m, Kept(Split(m, text).facts, facts, cap));
            Rewrite(m, text, facts, cap) == text[..s] + block + text[e + |m.end|..] <==> s == 0 || text[s - 1] == '\n'
  {
    var s, e := Find(text, m.start, 0).value, Find(text, m.end, 0).value;
    var block := Block(m, Kept(Split(m, text).facts, facts, cap));
    assert Rewrite(m, text, facts, cap) == WithNewline(text[..s]) + block + text[e + |m.end|..];
    if s > 0 { assert text[..s][|text[..s]| - 1] == text[s - 1]; }
  }

  lemma EndNotIn(m: Markers)
    requires Proper(m)
    ensures Free("x" + (m.start + "\n"), m.end)
  {
    HeadFree(m, "", "\n");
    assert "" + m.start + "\n" == m.start + "\n";
    forall i | 0 <= i <= |"x" + (m.start + "\n")|
      ensures !At("x" + (m.start + "\n"), i, m.end)
    {
      if i > 0 { InTail("x", m.start + "\n", m.end, i); }
    }
  }

  lemma SectionPlaces(m: Markers, text: string, head: string)
    requires Proper(m) && text == "x" + Block(m, []) && head == "x" + (m.start + "\n")
    ensures text == head + m.end + ""
    ensures Find(text, m.start, 0) == Some(1) && Find(text, m.end, 0) == Some(|head|)
  {
    BlockIs(m, []);
    assert Listing([]) == "" && text == head + m.end + "";
    assert At(text, 1, m.start);
    assert text[0..|m.start|][0] == 'x';
    FindIs(text, m.start, 0, 1);
    EndNotIn(m);
    EndFound(m, head, "");
  }

  lemma SectionAfterText(m: Markers) returns (text: string)
    requires Proper(m)
    ensures text == "x" + Block(m, []) && Split(m, text).Pair? && Split(m, text).before == "x\n"
  {
    text := "x" + Block(m, []);
    var head := "x" + (m.start + "\n");
    SectionPlaces(m, text, head);
    assert Inside(m, text, 1, |head|) == "\n" && text[..1] == "x";
    FreeLine("", m.start);
  }

  /** A file in which the section follows text on the same line: the rewrite begins differently. */
  lemma NewlineInserted(m: Markers, facts: seq<string>, cap: int) returns (text: string)
    requires Proper(m)
    ensures text == "x" + Block(m, [])
    ensures "x\n" <= Rewrite(m, text, facts, cap) && !("x\n" <= text)
  {
    text := SectionAfterText(m);
    BlockIs(m, []);
    assert text[1] == m.start[0];
  }
}
