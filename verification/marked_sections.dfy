/** Text enclosed between an opening and a closing marker, section after section. */
module MarkedSections {
  import opened Common
  import opened Search

  /** A section: its opening marker, what it encloses, its closing marker. */
  datatype Piece = Piece(open: string, inner: string, close: string)

  function Body(p: Piece): string {
    p.open + p.inner + p.close + "\n"
  }

  /** What stands above the n-th section: a head, then the earlier sections, a blank line apart. */
  function Above(head: string, pieces: seq<Piece>, n: nat): string
    requires 1 <= n <= |pieces|
    decreases n, 0
  {
    if n == 1 then head else PageText(head, pieces, n - 1) + "\n"
  }

  /** The first `n` sections below their head. */
  function PageText(head: string, pieces: seq<Piece>, n: nat): string
    requires 1 <= n <= |pieces|
    decreases n, 1
  {
    Above(head, pieces, n) + Body(pieces[n - 1])
  }

  /** The text between the first opening marker and the first closing marker after it. */
  function Enclosed(text: string, open: string, close: string): Option<string> {
    match Find(text, open, 0)
    case None => None
    case Some(i) =>
      var from := i + |open|;
      match Find(text, close, from)
      case None => None
      case Some(j) => Some(text[from..j])
  }

  predicate EndsLine(s: string) {
    s != "" && s[|s| - 1] == '\n'
  }

  /** A section whose own text cannot be mistaken for its closing marker. */
  predicate GoodPiece(p: Piece) {
    && Marker(p.open) && Marker(p.close)
    && EndsLine(p.inner) && p.inner[0] == '\n' && Free(p.inner, p.close)
  }

  /** No other section, and not the head, hides the opening marker `m`. */
  predicate Hidden(p: Piece, m: string) {
    Free(p.open, m) && Free(p.inner, m) && Free(p.close, m)
  }

  predicate GoodPage(head: string, pieces: seq<Piece>) {
    && EndsLine(head)
    && (forall i :: 0 <= i < |pieces| ==> GoodPiece(pieces[i]) && Free(head, pieces[i].open))
    && forall i, j :: 0 <= i < |pieces| && 0 <= j < |pieces| && i != j ==> Hidden(pieces[i], pieces[j].open)
  }

  lemma BodyFree(p: Piece, m: string)
    requires GoodPiece(p) && Marker(m) && Hidden(p, m)
    ensures Free(Body(p), m)
  {
    var rest := p.inner[1..];
    FreePiece(p.inner, 1, |p.inner|, m);
    assert p.inner[1..|p.inner|] == rest && p.inner == "\n" + rest;
    FreeLine(p.open, m);
    FreeLine(p.close, m);
    FreeAcrossLine(p.open + "\n", rest, m);
    if rest == "" {
      assert Body(p) == (p.open + "\n") + (p.close + "\n");
      FreeAcrossLine(p.open + "\n", p.close + "\n", m);
    } else {
      assert Body(p) == (p.open + "\n" + rest) + (p.close + "\n");
      assert (p.open + "\n" + rest)[|p.open + "\n" + rest| - 1] == '\n';
      FreeAcrossLine(p.open + "\n" + rest, p.close + "\n", m);
    }
  }

  lemma {:induction false} AboveFree(head: string, pieces: seq<Piece>, n: nat, m: string)
    requires GoodPage(head, pieces) && 1 <= n <= |pieces| && Marker(m) && Free(head, m)
    requires forall i :: 0 <= i < n - 1 ==> Hidden(pieces[i], m)
    ensures Free(Above(head, pieces, n), m) && EndsLine(Above(head, pieces, n))
  {
    if n > 1 {
      AboveFree(head, pieces, n - 1, m);
      BodyFree(pieces[n - 2], m);
      FreeAcrossLine(Above(head, pieces, n - 1), Body(pieces[n - 2]), m);
      FreeOfAngle("\n", m);
      FreeAcrossLine(PageText(head, pieces, n - 1), "\n", m);
    }
  }

  lemma Regrouped(a: string, b: string, c: string, e: string, f: string)
    ensures a + (b + c + e + f) == a + b + (c + e + f)
    ensures a + (b + c + e + f) == a + b + c + e + f
  {
  }

  lemma LastOpen(pre: string, p: Piece)
    requires GoodPiece(p) && EndsLine(pre) && Free(pre, p.open)
    ensures Find(pre + Body(p), p.open, 0) == Some(|pre|)
  {
    Regrouped(pre, p.open, p.inner, p.close, "\n");
    assert pre[0..] == pre;
    FoundAfter(pre, p.open, p.inner + p.close + "\n", 0);
  }

  lemma LastClose(pre: string, p: Piece)
    requires GoodPiece(p)
    ensures Find(pre + Body(p), p.close, |pre + p.open|) == Some(|pre + p.open + p.inner|)
  {
    var head := pre + p.open + p.inner;
    Regrouped(pre, p.open, p.inner, p.close, "\n");
    assert head[|pre + p.open|..] == p.inner;
    FoundAfter(head, p.close, "\n", |pre + p.open|);
  }

  /** Below a stretch free of its opening marker, a section's markers enclose exactly its text. */
  lemma LastEnclosed(pre: string, p: Piece)
    requires GoodPiece(p) && EndsLine(pre) && Free(pre, p.open)
    ensures Enclosed(pre + Body(p), p.open, p.close) == Some(p.inner)
  {
    LastOpen(pre, p);
    LastClose(pre, p);
    LastSlice(pre, p);
  }

  lemma LastSlice(pre: string, p: Piece)
    ensures |pre + p.open + p.inner| <= |pre + Body(p)|
    ensures (pre + Body(p))[|pre + p.open|..|pre + p.open + p.inner|] == p.inner
  {
    Regrouped(pre, p.open, p.inner, p.close, "\n");
  }

  /** What was enclosed in a text is enclosed in any longer one. */
  lemma EnclosedStays(text: string, more: string, open: string, close: string)
    requires Enclosed(text, open, close).Some?
    ensures Enclosed(text + more, open, close) == Enclosed(text, open, close)
  {
    var i := Find(text, open, 0).value;
    FoundStays(text, more, open, 0);
    FoundStays(text, more, close, i + |open|);
    var j := Find(text, close, i + |open|).value;
    assert (text + more)[i + |open|..j] == text[i + |open|..j];
  }

  lemma PageGrows(head: string, pieces: seq<Piece>, n: nat)
    requires 2 <= n <= |pieces|
    ensures PageText(head, pieces, n) == PageText(head, pieces, n - 1) + ("\n" + Body(pieces[n - 1]))
  {
    var shorter, body := PageText(head, pieces, n - 1), Body(pieces[n - 1]);
    assert shorter + "\n" + body == shorter + ("\n" + body);
  }

  predicate Holds(text: string, p: Piece) {
    Enclosed(text, p.open, p.close) == Some(p.inner)
  }

  lemma HoldsLonger(shorter: string, more: string, text: string, p: Piece)
    requires Holds(shorter, p) && text == shorter + more
    ensures Holds(text, p)
  {
    EnclosedStays(shorter, more, p.open, p.close);
  }

  lemma HoldsLast(head: string, pieces: seq<Piece>, n: nat)
    requires GoodPage(head, pieces) && 1 <= n <= |pieces|
    ensures Holds(PageText(head, pieces, n), pieces[n - 1])
  {
    AboveFree(head, pieces, n, pieces[n - 1].open);
    LastEnclosed(Above(head, pieces, n), pieces[n - 1]);
  }

  /** Every section of a good page is found again, with exactly its text. */
  lemma {:induction false} EveryPieceFound(head: string, pieces: seq<Piece>, n: nat, k: nat)
    requires GoodPage(head, pieces) && k < n <= |pieces|
    ensures Holds(PageText(head, pieces, n), pieces[k])
  {
    if k == n - 1 {
      HoldsLast(head, pieces, n);
    } else {
      EveryPieceFound(head, pieces, n - 1, k);
      PageGrows(head, pieces, n);
      HoldsLonger(PageText(head, pieces, n - 1), "\n" + Body(pieces[n - 1]), PageText(head, pieces, n), pieces[k]);
    }
  }
}
