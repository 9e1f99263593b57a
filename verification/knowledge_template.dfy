/**
 Form fields rendered into marked text and parsed back (src/agent/knowledge_template.py).
 */
module KnowledgeTemplate {
  import opened Common
  import opened Text
  import opened Search
  import opened MarkedSections

  // ---------------------------------------------------------------------------------------
  // Fields and markers
  // ---------------------------------------------------------------------------------------

  /** A form field: its key and the caption shown above its value. */
  datatype Field = Field(key: string, caption: string)

  /** A document: its title line and its fields in render order. */
  datatype Doc = Doc(title: string, fields: seq<Field>)

  const ROLE := Field("role", "Vai trò của agent (1 câu)")
  const TONE := Field("tone", "Giọng điệu khi trả lời")
  const RULES := Field("rules", "Quy tắc riêng (mỗi dòng một ý)")
  const TEAM := Field("team", "Thành viên đội + vai trò")
  const CONVENTIONS := Field("conventions", "Quy ước (nhãn, quy trình…)")
  const NOTES := Field("notes", "Ghi chú khác")

  const SOUL := Doc("# SOUL", [ROLE, TONE, RULES])
  const PROJECT := Doc("# PROJECT", [TEAM, CONVENTIONS, NOTES])

  const OPENING := "<!-- field:"
  const CLOSING := "<!-- /field:"

  function Open(key: string): string {
    OPENING + key + " -->"
  }

  function Close(key: string): string {
    CLOSING + key + " -->"
  }

  /** The characters that match `c` under `re.IGNORECASE`; both Turkish letters match `i`. */
  predicate SameLetter(c: char, c': char) {
    c' == c || LowerChar(c') == c || (c == 'i' && (c' == '\U{130}' || c' == '\U{131}'))
  }

  predicate FieldWordAt(s: string, i: int) {
    0 <= i <= |s| - 6 && forall k :: 0 <= k < 6 ==> SameLetter("field:"[k], s[i + k])
  }

  predicate SpacesIn(s: string, lo: int, hi: int) {
    0 <= lo <= hi <= |s| && forall k :: lo <= k < hi ==> IsSpace(s[k])
  }

  /** `<!--\s*\/?\s*field:`, ignoring case, at position `i`. */
  predicate MarkerAt(s: string, i: int) {
    At(s, i, "<!--") &&
    exists a, b :: i + 4 <= a <= b <= |s| && SpacesIn(s, i + 4, a) && FieldWordAt(s, b)
                   && (SpacesIn(s, a, b) || (a < b && s[a] == '/' && SpacesIn(s, a + 1, b)))
  }

  /** `_MARKER_RE.search(value)`. */
  predicate HasMarker(s: string) {
    exists i :: 0 <= i <= |s| && MarkerAt(s, i)
  }

  /** What the two documents have in common: distinct plain keys and one-line captions. */
  predicate GoodField(f: Field) {
    GoodKey(f.key) && GoodCaption(f.caption)
  }

  predicate GoodKey(key: string) {
    '<' !in key && '\n' !in key && ' ' !in key
  }

  predicate GoodCaption(caption: string) {
    OneLine(caption) && caption != "" && !IsSpace(caption[|caption| - 1])
  }

  predicate OneLine(s: string) {
    forall i :: 0 <= i < |s| ==> s[i] != '<' && s[i] != '\n'
  }

  predicate GoodDoc(d: Doc) {
    && d.fields != []
    && '<' !in d.title && '\n' !in d.title && Strip(d.title) != ""
    && (forall i :: 0 <= i < |d.fields| ==> GoodField(d.fields[i]))
    && forall i, j :: 0 <= i < j < |d.fields| ==> d.fields[i].key != d.fields[j].key
  }

  lemma DocumentsAreGood()
    ensures GoodDoc(SOUL) && GoodDoc(PROJECT)
  {
    SoulIsGood();
    ProjectIsGood();
  }

  lemma SoulIsGood()
    ensures GoodDoc(SOUL)
  {
    StripFixed(SOUL.title);
    RoleIsGood();
    ToneIsGood();
    RulesIsGood();
    assert ROLE.key[0] != TONE.key[0] && ROLE.key[1] != RULES.key[1] && TONE.key[0] != RULES.key[0];
  }

  lemma ProjectIsGood()
    ensures GoodDoc(PROJECT)
  {
    StripFixed(PROJECT.title);
    TeamIsGood();
    ConventionsIsGood();
    NotesIsGood();
    assert TEAM.key[0] != CONVENTIONS.key[0] && TEAM.key[0] != NOTES.key[0] && CONVENTIONS.key[0] != NOTES.key[0];
  }

  lemma RoleIsGood()
    ensures GoodField(ROLE)
  {
    RoleIsOneLine();
    assert GoodKey("role");
  }

  lemma RoleIsOneLine()
    ensures OneLine("Vai trò của agent (1 câu)")
  {
  }

  lemma ToneIsGood()
    ensures GoodField(TONE)
  {
    ToneIsOneLine();
    assert GoodKey("tone");
  }

  lemma ToneIsOneLine()
    ensures OneLine("Giọng điệu khi trả lời")
  {
  }

  lemma RulesIsGood()
    ensures GoodField(RULES)
  {
    RulesIsOneLine();
    assert GoodKey("rules");
  }

  lemma RulesIsOneLine()
    ensures OneLine("Quy tắc riêng (mỗi dòng một ý)")
  {
  }

  lemma TeamIsGood()
    ensures GoodField(TEAM)
  {
    TeamIsOneLine();
    assert GoodKey("team");
  }

  lemma TeamIsOneLine()
    ensures OneLine("Thành viên đội + vai trò")
  {
  }

  lemma ConventionsIsGood()
    ensures GoodField(CONVENTIONS)
  {
    ConventionsIsOneLine();
    assert GoodKey("conventions");
  }

  lemma ConventionsIsOneLine()
    ensures OneLine("Quy ước (nhãn, quy trình…)")
  {
  }

  lemma NotesIsGood()
    ensures GoodField(NOTES)
  {
    NotesIsOneLine();
    assert GoodKey("notes");
  }

  lemma NotesIsOneLine()
    ensures OneLine("Ghi chú khác")
  {
  }

  // ---------------------------------------------------------------------------------------
  // Rendering
  // ---------------------------------------------------------------------------------------

  /** What stands between a field's markers: its heading and its value. */
  function Inner(f: Field, value: string): string {
    "\n" + ("## " + f.caption + "\n") + (value + "\n")
  }

  function PieceOf(f: Field, value: string): Piece {
    Piece(Open(f.key), Inner(f, value), Close(f.key))
  }

  function Pieces(d: Doc, values: seq<string>): (r: seq<Piece>)
    requires |d.fields| == |values|
    ensures |r| == |values|
  {
    seq(|values|, i requires 0 <= i < |values| => PieceOf(d.fields[i], values[i]))
  }

  function Head(d: Doc): string {
    d.title + "\n" + "\n"
  }

  /** The whole page: title, blank line, sections a blank line apart. */
  function Page(d: Doc, values: seq<string>): string
    requires 1 <= |d.fields| == |values|
  {
    PageText(Head(d), Pieces(d, values), |values|)
  }

  /** The stripped form values, in field order. */
  function Values(d: Doc, form: map<string, string>): (r: seq<string>)
    ensures |r| == |d.fields|
  {
    seq(|d.fields|, i requires 0 <= i < |d.fields| => if d.fields[i].key in form then Strip(form[d.fields[i].key]) else "")
  }

  datatype Parsed = Raw | Fields(values: seq<string>)

  /** The heading line the renderer puts above a value: `re.sub(r"^##[^\n]*\n?", "", block, count=1)`. */
  function DropHeading(block: string): string {
    if "##" <= block then DropLine(block) else block
  }

  function DropLine(s: string): string {
    if s == "" then "" else if s[0] == '\n' then s[1..] else DropLine(s[1..])
  }

  function Value(block: string): string {
    Strip(DropHeading(Strip(block)))
  }

  /** What `parse` gets for one field. */
  function FieldValue(text: string, key: string): Option<string> {
    match Enclosed(text, Open(key), Close(key))
    case None => None
    case Some(block) => Some(Value(block))
  }

  function Found(d: Doc, text: string): (r: seq<Option<string>>)
    ensures |r| == |d.fields|
  {
    seq(|d.fields|, i requires 0 <= i < |d.fields| => FieldValue(text, d.fields[i].key))
  }

  /** All of the first `n` fields, or raw as soon as one of them is missing. */
  function Collect(found: seq<Option<string>>, n: nat): Parsed
    requires n <= |found|
  {
    if n == 0 then Fields([])
    else
      var front := Collect(found, n - 1);
      if front.Raw? || found[n - 1].None? then Raw else Fields(front.values + [found[n - 1].value])
  }

  function Blank(d: Doc): Parsed {
    Fields(seq(|d.fields|, i requires 0 <= i < |d.fields| => ""))
  }

  function ParsePage(d: Doc, text: string): Parsed {
    if Strip(text) == "" then Blank(d) else Collect(Found(d, text), |d.fields|)
  }

  /** `parse`. */
  method Parse(d: Doc, text: string) returns (r: Parsed)
    ensures r == ParsePage(d, text)
  {
    if Strip(text) == "" {
      return Blank(d);
    }
    r := ParseMarked(d, text, Found(d, text));
  }

  method SearchField(d: Doc, text: string, i: nat) returns (value: Option<string>)
    requires i < |d.fields|
    ensures value == Found(d, text)[i]
  {
    value := FieldValue(text, d.fields[i].key);
  }

  /** Field by field; the first field whose markers are missing makes the file raw. */
  method ParseMarked(d: Doc, text: string, ghost found: seq<Option<string>>) returns (r: Parsed)
    requires found == Found(d, text)
    ensures r == Collect(found, |d.fields|)
  {
    var values := [];
    for i := 0 to |d.fields|
      invariant Collect(found, i) == Fields(values)
    {
      var value := SearchField(d, text, i);
      if value.None? {
        RawStays(found, i + 1, |d.fields|);
        return Raw;
      }
      values := values + [value.value];
    }
    return Fields(values);
  }

  lemma {:induction false} RawStays(found: seq<Option<string>>, i: nat, n: nat)
    requires i <= n <= |found| && Collect(found, i).Raw?
    ensures Collect(found, n).Raw?
  {
    if i < n { RawStays(found, i, n - 1); }
  }

  lemma {:induction false} CollectAll(found: seq<Option<string>>, values: seq<string>, n: nat)
    requires n <= |found| == |values| && forall i :: 0 <= i < |found| ==> found[i] == Some(values[i])
    ensures Collect(found, n) == Fields(values[..n])
  {
    if n > 0 {
      CollectAll(found, values, n - 1);
      assert values[..n] == values[..n - 1] + [values[n - 1]];
    }
  }

  /** A page is form-parseable exactly when every field's markers are there. */
  lemma {:induction false} RawIffMissing(found: seq<Option<string>>, n: nat)
    requires n <= |found|
    ensures Collect(found, n).Raw? <==> exists i :: 0 <= i < n && found[i].None?
  {
    if n > 0 { RawIffMissing(found, n - 1); }
  }

  // ---------------------------------------------------------------------------------------
  // A value without markers cannot disturb the search
  // ---------------------------------------------------------------------------------------

  lemma OpenIsMarker(key: string)
    requires '<' !in key && '\n' !in key
    ensures Marker(Open(key)) && Marker(Close(key))
  {
    assert Open(key)[0] == '<' && Close(key)[0] == '<';
  }

  /** The value holds no beginning of a marker. */
  predicate Calm(v: string) {
    Free(v, OPENING) && Free(v, CLOSING)
  }

  /** What the renderer accepts is calm. */
  lemma AcceptedIsCalm(v: string)
    requires !HasMarker(v)
    ensures Calm(v)
  {
    forall i | 0 <= i <= |v|
      ensures !At(v, i, OPENING) && !At(v, i, CLOSING)
    {
      OpenIsMatched(v, i);
      CloseIsMatched(v, i);
    }
  }

  /** A calm value holds neither marker of any field. */
  lemma CalmIsFree(v: string, key: string)
    requires Calm(v)
    ensures Free(v, Open(key)) && Free(v, Close(key))
  {
    forall i | 0 <= i <= |v|
      ensures !At(v, i, Open(key)) && !At(v, i, Close(key))
    {
      PrefixAt(v, i, OPENING, key + " -->");
      PrefixAt(v, i, CLOSING, key + " -->");
      assert Open(key) == OPENING + (key + " -->") && Close(key) == CLOSING + (key + " -->");
    }
  }

  lemma PrefixAt(v: string, i: int, a: string, b: string)
    ensures At(v, i, a + b) ==> At(v, i, a)
  {
    AtIff(v, i, a + b);
    AtIff(v, i, a);
    assert forall k :: 0 <= k < |a| ==> (a + b)[k] == a[k];
  }

  lemma OpenIsMatched(v: string, i: nat)
    requires i <= |v|
    ensures At(v, i, OPENING) ==> MarkerAt(v, i)
  {
    AtIff(v, i, OPENING);
    AtIff(v, i, "<!--");
    assert "<!--" == OPENING[..4];
    if At(v, i, OPENING) {
      assert SpacesIn(v, i + 4, i + 5) && SpacesIn(v, i + 5, i + 5);
      assert FieldWordAt(v, i + 5) by {
        assert forall k :: 0 <= k < 6 ==> "field:"[k] == OPENING[5 + k] == v[i + (5 + k)];
      }
    }
  }

  lemma CloseIsMatched(v: string, i: nat)
    requires i <= |v|
    ensures At(v, i, CLOSING) ==> MarkerAt(v, i)
  {
    AtIff(v, i, CLOSING);
    AtIff(v, i, "<!--");
    assert "<!--" == CLOSING[..4];
    if At(v, i, CLOSING) {
      assert SpacesIn(v, i + 4, i + 5) && v[i + 5] == '/' && SpacesIn(v, i + 6, i + 6);
      assert FieldWordAt(v, i + 6) by {
        assert forall k :: 0 <= k < 6 ==> "field:"[k] == CLOSING[6 + k] == v[i + (6 + k)];
      }
    }
  }

  /** One field's opening marker occurs in no marker of another field. */
  lemma MarkersApart(key: string, other: string)
    requires key != other && ' ' !in key && ' ' !in other
    requires '<' !in key && '\n' !in key && '<' !in other && '\n' !in other
    ensures Free(Open(other), Open(key)) && Free(Close(other), Open(key))
  {
    OpenIsMarker(key);
    OpenIsMarker(other);
    if Open(key) <= Open(other) {
      var rest := Open(other)[|Open(key)|..];
      assert Open(key) + rest == Open(other);
      assert Open(other)[|OPENING|..] == other + [' '] + "-->";
      assert (Open(key) + rest)[|OPENING|..] == key + [' '] + ("-->" + rest);
      SplitUnique(key, other, ' ', "-->" + rest, "-->");
    }
    assert Close(other)[5] == '/' && Open(key)[5] == 'f';
    MarkerInMarker(Open(other), Open(key));
    MarkerInMarker(Close(other), Open(key));
  }

  lemma InnerFree(f: Field, value: string, m: string)
    requires GoodField(f) && Marker(m) && Free(value, m)
    ensures Free(Inner(f, value), m)
  {
    var heading := "\n" + ("## " + f.caption + "\n");
    FreeOfAngle(heading, m);
    FreeLine(value, m);
    FreeAcrossLine(heading, value + "\n", m);
  }

  lemma PieceIsGood(f: Field, value: string)
    requires GoodField(f) && Calm(value)
    ensures GoodPiece(PieceOf(f, value))
  {
    OpenIsMarker(f.key);
    CalmIsFree(value, f.key);
    InnerFree(f, value, Close(f.key));
  }

  /** A section of another field hides no opening marker of this one. */
  lemma PieceHidden(f: Field, value: string, key: string)
    requires GoodField(f) && GoodKey(key) && Calm(value) && f.key != key
    ensures Hidden(PieceOf(f, value), Open(key))
  {
    OpenIsMarker(key);
    MarkersApart(key, f.key);
    CalmIsFree(value, key);
    InnerFree(f, value, Open(key));
  }

  lemma PageIsGood(d: Doc, values: seq<string>)
    requires GoodDoc(d) && |values| == |d.fields| && forall i :: 0 <= i < |values| ==> Calm(values[i])
    ensures GoodPage(Head(d), Pieces(d, values))
  {
    forall i | 0 <= i < |values|
      ensures GoodPiece(Pieces(d, values)[i]) && Free(Head(d), Pieces(d, values)[i].open)
    {
      PieceIsGood(d.fields[i], values[i]);
      OpenIsMarker(d.fields[i].key);
      FreeOfAngle(Head(d), Open(d.fields[i].key));
    }
    forall i, j | 0 <= i < |values| && 0 <= j < |values| && i != j
      ensures Hidden(Pieces(d, values)[i], Pieces(d, values)[j].open)
    {
      PieceHidden(d.fields[i], values[i], d.fields[j].key);
    }
  }

  // ---------------------------------------------------------------------------------------
  // Round trip
  // ---------------------------------------------------------------------------------------

  lemma {:induction false} DropWholeLine(line: string, rest: string)
    requires '\n' !in line
    ensures DropLine(line + "\n" + rest) == rest && DropLine(line) == ""
  {
    if line == "" {
      assert "" + "\n" + rest == "\n" + rest;
    } else {
      assert (line + "\n" + rest)[1..] == line[1..] + "\n" + rest;
      DropWholeLine(line[1..], rest);
    }
  }

  /** Stripping and dropping the heading leaves the value, also when it is empty or starts with `##`. */
  lemma InnerValue(f: Field, value: string)
    requires GoodField(f) && Stripped(value)
    ensures Value(Inner(f, value)) == value
  {
    var heading := "## " + f.caption;
    InnerStripped(f, value);
    DropWholeLine(heading, value);
    StripFixed(value);
  }

  lemma InnerStripped(f: Field, value: string)
    requires GoodField(f) && Stripped(value)
    ensures var heading := "## " + f.caption;
            Strip(Inner(f, value)) == if value == "" then heading else heading + "\n" + value
  {
    var heading := "## " + f.caption;
    assert Stripped(heading);
    if value == "" {
      assert Inner(f, value) == "\n" + heading + "\n\n";
      StripMiddle("\n", heading, "\n\n");
    } else {
      var core := heading + "\n" + value;
      assert Inner(f, value) == "\n" + core + "\n";
      StripMiddle("\n", core, "\n");
    }
  }

  lemma {:induction false} StartsWithHead(head: string, pieces: seq<Piece>, n: nat)
    requires 1 <= n <= |pieces|
    ensures head <= PageText(head, pieces, n)
  {
    if n > 1 { StartsWithHead(head, pieces, n - 1); }
  }

  lemma StripNonBlank(s: string, i: nat)
    requires i < |s| && !IsSpace(s[i])
    ensures Strip(s) != ""
  {
    var l := TrimLeft(s);
    TrimLeftSpec(s);
    TrimRightSpec(l);
    assert l[i - (|s| - |l|)] == s[i];
  }

  lemma NonBlank(s: string) returns (i: nat)
    requires Strip(s) != ""
    ensures i < |s| && !IsSpace(s[i])
  {
    var l := TrimLeft(s);
    TrimLeftSpec(s);
    i := |s| - |l|;
    assert l != "" && s[i] == l[0];
  }

  lemma AllFound(d: Doc, values: seq<string>)
    requires GoodDoc(d) && |values| == |d.fields|
    requires forall i :: 0 <= i < |values| ==> Calm(values[i]) && Stripped(values[i])
    ensures forall i :: 0 <= i < |values| ==> Found(d, Page(d, values))[i] == Some(values[i])
  {
    PageIsGood(d, values);
    forall i | 0 <= i < |values|
      ensures Found(d, Page(d, values))[i] == Some(values[i])
    {
      EveryPieceFound(Head(d), Pieces(d, values), |values|, i);
      InnerValue(d.fields[i], values[i]);
    }
  }

  lemma PageNotBlank(d: Doc, values: seq<string>)
    requires GoodDoc(d) && |values| == |d.fields|
    ensures Strip(Page(d, values)) != ""
  {
    StartsWithHead(Head(d), Pieces(d, values), |values|);
    var i := NonBlank(d.title);
    assert Page(d, values)[i] == Head(d)[i] == d.title[i];
    StripNonBlank(Page(d, values), i);
  }

  /** Parsing a rendered page gives back every stripped value: the renderer's own check never fails. */
  lemma RoundTrip(d: Doc, values: seq<string>)
    requires GoodDoc(d) && |values| == |d.fields|
    requires forall i :: 0 <= i < |values| ==> Calm(values[i]) && Stripped(values[i])
    ensures ParsePage(d, Page(d, values)) == Fields(values)
  {
    AllFound(d, values);
    CollectAll(Found(d, Page(d, values)), values, |values|);
    assert values[..|values|] == values;
    PageNotBlank(d, values);
  }

  // ---------------------------------------------------------------------------------------
  // `render`
  // ---------------------------------------------------------------------------------------

  datatype RenderError = MarkerInValue(key: string) | NoRoundTrip

  function Parts(f: Field, value: string): seq<string> {
    [Open(f.key), "## " + f.caption, value, Close(f.key), ""]
  }

  function AllParts(d: Doc, values: seq<string>, n: nat): seq<string>
    requires n <= |d.fields| == |values|
  {
    if n == 0 then [d.title, ""] else AllParts(d, values, n - 1) + Parts(d.fields[n - 1], values[n - 1])
  }

  lemma SectionLines(f: Field, value: string)
    ensures JoinLines(Parts(f, value)) == Body(PieceOf(f, value))
  {
    var o, h, c := Open(f.key), "## " + f.caption, Close(f.key);
    FiveLines(o, h, value, c);
    assert o + ("\n" + (h + "\n") + (value + "\n")) + c + "\n" == o + "\n" + h + "\n" + value + "\n" + c + "\n" + "";
  }

  lemma FiveLines(a: string, b: string, c: string, e: string)
    ensures JoinLines([a, b, c, e, ""]) == a + "\n" + b + "\n" + c + "\n" + e + "\n" + ""
  {
    assert [e, ""][1..] == [""];
    assert [c, e, ""][1..] == [e, ""];
    assert [b, c, e, ""][1..] == [c, e, ""];
    assert [a, b, c, e, ""][1..] == [b, c, e, ""];
    assert JoinLines([e, ""]) == e + "\n" + "";
    assert JoinLines([c, e, ""]) == c + "\n" + JoinLines([e, ""]);
    assert JoinLines([b, c, e, ""]) == b + "\n" + JoinLines([c, e, ""]);
    assert JoinLines([a, b, c, e, ""]) == a + "\n" + JoinLines([b, c, e, ""]);
  }

  lemma {:induction false} PartsJoined(d: Doc, values: seq<string>, n: nat)
    requires 1 <= n <= |d.fields| == |values|
    ensures JoinLines(AllParts(d, values, n)) == PageText(Head(d), Pieces(d, values), n)
  {
    SectionLines(d.fields[n - 1], values[n - 1]);
    JoinAppend(AllParts(d, values, n - 1), Parts(d.fields[n - 1], values[n - 1]));
    if n == 1 {
      assert [d.title, ""][1..] == [""];
      assert JoinLines([d.title, ""]) == d.title + "\n" + "";
    } else {
      PartsJoined(d, values, n - 1);
    }
  }

  /** A page ends in a closing marker and a newline, so the final trim changes nothing. */
  lemma PageTrimmed(head: string, pieces: seq<Piece>, n: nat)
    requires 1 <= n <= |pieces| && pieces[n - 1].close != "" && !IsSpace(pieces[n - 1].close[|pieces[n - 1].close| - 1])
    ensures TrimRight(PageText(head, pieces, n)) + "\n" == PageText(head, pieces, n)
  {
    var p := pieces[n - 1];
    var body := Above(head, pieces, n) + p.open + p.inner + p.close;
    assert PageText(head, pieces, n) == body + "\n" && body[|body| - 1] == p.close[|p.close| - 1];
    TrimRightSkips(body, "\n");
  }

  /** Which values contain the marker pattern. */
  function Marked(values: seq<string>): (r: seq<bool>)
    ensures |r| == |values|
  {
    seq(|values|, i requires 0 <= i < |values| => HasMarker(values[i]))
  }

  /** One turn of the loop: the stripped value, and whether it is refused. */
  method Checked(d: Doc, form: map<string, string>, i: nat) returns (value: string, refused: bool)
    requires i < |d.fields|
    ensures value == Values(d, form)[i] && refused == Marked(Values(d, form))[i]
  {
    value := if d.fields[i].key in form then Strip(form[d.fields[i].key]) else "";
    refused := HasMarker(value);
  }

  /** The loop of `render`: the stripped values and the parts, or the first field with a marker. */
  method Collected(d: Doc, form: map<string, string>) returns (bad: Option<nat>, parts: seq<string>, outFields: seq<string>)
    ensures bad.None? ==> outFields == Values(d, form) && parts == AllParts(d, Values(d, form), |d.fields|)
    ensures bad.None? ==> forall j :: 0 <= j < |d.fields| ==> !Marked(Values(d, form))[j]
    ensures bad.Some? ==> bad.value < |d.fields| && Marked(Values(d, form))[bad.value]
                          && forall j :: 0 <= j < bad.value ==> !Marked(Values(d, form))[j]
  {
    bad, parts, outFields := None, [d.title, ""], [];
    ghost var values := Values(d, form);
    ghost var marked := Marked(values);
    for i := 0 to |d.fields|
      invariant outFields == values[..i] && parts == AllParts(d, values, i)
      invariant forall j :: 0 <= j < i ==> !marked[j]
    {
      var value, refused := Checked(d, form, i);
      if refused {
        return Some(i), parts, outFields;
      }
      outFields := outFields + [value];
      parts := parts + Parts(d.fields[i], value);
    }
  }

  /**
   `render`: refused exactly when a stripped value contains the marker pattern, and then at the
   first such field; otherwise the page, and it parses back to the stripped values.
   */
  method Render(d: Doc, form: map<string, string>) returns (r: Result<string, RenderError>)
    requires GoodDoc(d)
    ensures r.Ok? <==> forall i :: 0 <= i < |d.fields| ==> !Marked(Values(d, form))[i]
    ensures r.Ok? ==> r.value == Page(d, Values(d, form)) && ParsePage(d, r.value) == Fields(Values(d, form))
    ensures r.Err? ==> exists i :: && 0 <= i < |d.fields| && r.error == MarkerInValue(d.fields[i].key)
                                   && Marked(Values(d, form))[i] && forall j :: 0 <= j < i ==> !Marked(Values(d, form))[j]
  {
    var bad, parts, outFields := Collected(d, form);
    if bad.Some? {
      return Err(MarkerInValue(d.fields[bad.value].key));
    }
    var text := TrimRight(JoinLines(parts)) + "\n";
    PageParses(d, form);
    var back := Parse(d, text);
    if back != Fields(outFields) {
      assert false;
      return Err(NoRoundTrip);
    }
    return Ok(text);
  }

  lemma PageParses(d: Doc, form: map<string, string>)
    requires GoodDoc(d) && forall i :: 0 <= i < |d.fields| ==> !Marked(Values(d, form))[i]
    ensures var page := Page(d, Values(d, form));
            && TrimRight(JoinLines(AllParts(d, Values(d, form), |d.fields|))) + "\n" == page
            && ParsePage(d, page) == Fields(Values(d, form))
  {
    var values := Values(d, form);
    PartsJoined(d, values, |d.fields|);
    PageTrimmed(Head(d), Pieces(d, values), |values|);
    ValuesStripped(d, form);
    forall i | 0 <= i < |values|
      ensures Calm(values[i])
    {
      assert !Marked(values)[i];
      AcceptedIsCalm(values[i]);
    }
    RoundTrip(d, values);
  }

  lemma ValuesStripped(d: Doc, form: map<string, string>)
    ensures forall i :: 0 <= i < |d.fields| ==> Stripped(Values(d, form)[i])
  {
    forall i | 0 <= i < |d.fields|
      ensures Stripped(Values(d, form)[i])
    {
      if d.fields[i].key in form { StripIsStripped(form[d.fields[i].key]); }
    }
  }
}
