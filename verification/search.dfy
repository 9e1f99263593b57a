/** First-occurrence reasoning about text: `str.find`, joined lines, and where a marker cannot occur. */
module Search {
  import opened Common
  import opened Text

  /** `s.find(part, from)`: the first place at or after `from`, if any. */
  function Find(s: string, part: string, from: nat): (r: Option<nat>)
    ensures r.Some? ==> from <= r.value <= |s| - |part|
    decreases |s| - from
  {
    if from > |s| then None
    else if At(s, from, part) then Some(from)
    else if from == |s| then None
    else Find(s, part, from + 1)
  }

  /** The place found is an occurrence, and there is none before it; nothing found means no occurrence. */
  lemma {:induction false} FindSpec(s: string, part: string, from: nat)
    ensures var r := Find(s, part, from);
            && (r.Some? ==> At(s, r.value, part) && forall j: nat :: from <= j < r.value ==> !At(s, j, part))
            && (r.None? ==> forall j: nat :: from <= j ==> !At(s, j, part))
    decreases |s| - from
  {
    if from < |s| && !At(s, from, part) {
      FindSpec(s, part, from + 1);
    }
  }

  lemma {:induction false} FindIs(s: string, part: string, from: nat, i: nat)
    requires from <= i && At(s, i, part)
    requires forall j: nat :: from <= j < i ==> !At(s, j, part)
    ensures Find(s, part, from) == Some(i)
    decreases i - from
  {
    if from < i {
      FindIs(s, part, from + 1, i);
    }
  }

  /** An occurrence, character by character. */
  lemma AtIff(s: string, i: int, part: string)
    ensures At(s, i, part) <==> 0 <= i <= |s| - |part| && forall k :: 0 <= k < |part| ==> s[i + k] == part[k]
  {
    if 0 <= i <= |s| - |part| {
      var piece := s[i..i + |part|];
      assert forall k :: 0 <= k < |part| ==> piece[k] == s[i + k];
      if forall k :: 0 <= k < |part| ==> s[i + k] == part[k] {
        assert piece == part;
      }
    }
  }

  /** `part` occurs nowhere in `s`. */
  predicate Free(s: string, part: string) {
    forall i :: 0 <= i <= |s| ==> !At(s, i, part)
  }

  /** A piece of a text that is free of `part` is free of it. */
  lemma FreePiece(s: string, lo: nat, hi: nat, part: string)
    requires lo <= hi <= |s| && Free(s, part)
    ensures Free(s[lo..hi], part)
  {
    forall i | 0 <= i <= hi - lo
      ensures !At(s[lo..hi], i, part)
    {
      AtIff(s[lo..hi], i, part);
      AtIff(s, lo + i, part);
      assert !At(s, lo + i, part);
    }
  }

  /** A marker: a one-line text that starts with `<` and has no other `<`. */
  predicate Marker(m: string) {
    m != "" && m[0] == '<' && '\n' !in m && forall i :: 0 < i < |m| ==> m[i] != '<'
  }

  /** No marker runs across the end of a line. */
  lemma {:induction false} FreeAcrossLine(a: string, b: string, m: string)
    requires Marker(m) && Free(a, m) && Free(b, m)
    requires a == "" || a[|a| - 1] == '\n'
    ensures Free(a + b, m)
  {
    forall i | 0 <= i <= |a + b|
      ensures !At(a + b, i, m)
    {
      NotAtAcrossLine(a, b, m, i);
    }
  }

  lemma NotAtAcrossLine(a: string, b: string, m: string, i: nat)
    requires Marker(m) && Free(a, m) && Free(b, m) && i <= |a + b|
    requires a == "" || a[|a| - 1] == '\n'
    ensures !At(a + b, i, m)
  {
    AtIff(a + b, i, m);
    if i + |m| <= |a| {
      AtIff(a, i, m);
      assert !At(a, i, m);
    } else if i >= |a| {
      AtIff(b, i - |a|, m);
      assert !At(b, i - |a|, m);
    } else {
      assert (a + b)[i + (|a| - 1 - i)] == '\n';
    }
  }

  /** Text without `<` holds no marker. */
  lemma FreeOfAngle(s: string, m: string)
    requires Marker(m) && '<' !in s
    ensures Free(s, m)
  {
    forall i | 0 <= i <= |s|
      ensures !At(s, i, m)
    {
      AtIff(s, i, m);
    }
  }

  /** A line keeps a text free when the line and the text are. */
  lemma FreeLine(line: string, m: string)
    requires Marker(m) && Free(line, m)
    ensures Free(line + "\n", m)
  {
    forall i | 0 <= i <= |line + "\n"|
      ensures !At(line + "\n", i, m)
    {
      AtIff(line + "\n", i, m);
      AtIff(line, i, m);
      if i + |m| <= |line| {
        assert !At(line, i, m);
      } else {
        assert i + |m| == |line| + 1 ==> (line + "\n")[i + (|m| - 1)] == '\n';
      }
    }
  }

  /** A marker occurs in another marker only as its prefix. */
  lemma MarkerInMarker(big: string, m: string)
    requires Marker(big) && Marker(m) && !(m <= big)
    ensures Free(big, m)
  {
    forall i | 0 <= i <= |big|
      ensures !At(big, i, m)
    {
      AtIff(big, i, m);
    }
  }

  /** After a free stretch that ends a line, a marker is found right at its beginning. */
  lemma FoundAfter(pre: string, m: string, post: string, from: nat)
    requires Marker(m) && from <= |pre| && Free(pre[from..], m)
    requires from == |pre| || pre[|pre| - 1] == '\n'
    ensures Find(pre + m + post, m, from) == Some(|pre|)
  {
    var t := pre + m + post;
    assert t[|pre|..|pre| + |m|] == m;
    forall j: nat | from <= j < |pre|
      ensures !At(t, j, m)
    {
      AtIff(t, j, m);
      AtIff(pre[from..], j - from, m);
      assert !At(pre[from..], j - from, m);
      assert t[j + (|pre| - 1 - j)] == '\n';
    }
    FindIs(t, m, from, |pre|);
  }

  /** What was found in a text is found in any longer one. */
  lemma FoundStays(s: string, more: string, part: string, from: nat)
    requires Find(s, part, from).Some?
    ensures Find(s + more, part, from) == Find(s, part, from)
  {
    var i := Find(s, part, from).value;
    FindSpec(s, part, from);
    assert (s + more)[i..i + |part|] == s[i..i + |part|];
    forall j: nat | from <= j < i
      ensures !At(s + more, j, part)
    {
      AtIff(s + more, j, part);
      AtIff(s, j, part);
      assert !At(s, j, part);
    }
    FindIs(s + more, part, from, i);
  }

  /** `"\n".join(parts)`. */
  function JoinLines(parts: seq<string>): string {
    if parts == [] then "" else if |parts| == 1 then parts[0] else parts[0] + "\n" + JoinLines(parts[1..])
  }

  lemma {:induction false} JoinFree(parts: seq<string>, m: string)
    requires Marker(m) && forall i :: 0 <= i < |parts| ==> Free(parts[i], m)
    ensures Free(JoinLines(parts), m)
  {
    if parts == [] {
      FreeOfAngle("", m);
    } else if |parts| > 1 {
      JoinFree(parts[1..], m);
      FreeLine(parts[0], m);
      FreeAcrossLine(parts[0] + "\n", JoinLines(parts[1..]), m);
    }
  }

  lemma {:induction false} JoinAppend(a: seq<string>, b: seq<string>)
    requires a != [] && b != []
    ensures JoinLines(a + b) == JoinLines(a) + "\n" + JoinLines(b)
  {
    assert (a + b)[1..] == a[1..] + b && (a + b)[0] == a[0];
    if |a| > 1 {
      JoinAppend(a[1..], b);
      assert JoinLines(a) + "\n" + JoinLines(b) == a[0] + "\n" + (JoinLines(a[1..]) + "\n" + JoinLines(b));
    } else {
      assert a[1..] + b == b;
    }
  }
}
