/** The few operations of Python's `str` that the modelled code relies on. */
module PyText {
  /** The characters `str.strip()` removes. */
  predicate IsSpace(c: char) {
    || '\U{9}' <= c <= '\U{D}' || '\U{1C}' <= c <= ' ' || c == '\U{85}' || c == '\U{A0}'
    || c == '\U{1680}' || '\U{2000}' <= c <= '\U{200A}' || c == '\U{2028}' || c == '\U{2029}'
    || c == '\U{202F}' || c == '\U{205F}' || c == '\U{3000}'
  }

  /** The characters `str.splitlines()` breaks at. */
  predicate IsLineBreak(c: char) {
    || '\U{A}' <= c <= '\U{D}' || '\U{1C}' <= c <= '\U{1E}'
    || c == '\U{85}' || c == '\U{2028}' || c == '\U{2029}'
  }

  ghost predicate AllSpace(s: string) {
    forall i :: 0 <= i < |s| ==> IsSpace(s[i])
  }

  function LStrip(s: string): (r: string)
    ensures |r| <= |s| && r == s[|s| - |r|..]
    ensures AllSpace(s[..|s| - |r|])
    ensures r != "" ==> !IsSpace(r[0])
  {
    if s == "" || !IsSpace(s[0]) then s else LStrip(s[1..])
  }

  function RStrip(s: string): (r: string)
    ensures |r| <= |s| && r == s[..|r|]
    ensures AllSpace(s[|r|..])
    ensures r != "" ==> !IsSpace(r[|r| - 1])
  {
    if s == "" || !IsSpace(s[|s| - 1]) then s
    else
      var r := RStrip(s[..|s| - 1]);
      assert s[|r|..] == s[..|s| - 1][|r|..] + [s[|s| - 1]];
      r
  }

  function Strip(s: string): (r: string)
    ensures r != "" ==> !IsSpace(r[0]) && !IsSpace(r[|r| - 1])
  {
    RStrip(LStrip(s))
  }

  /** `str.replace` with a one-character needle. */
  function Replace(s: string, c: char, r: string): string {
    if s == "" then "" else (if s[0] == c then r else [s[0]]) + Replace(s[1..], c, r)
  }

  lemma ReplaceStep(s: string, c: char, r: string)
    ensures Replace("", c, r) == ""
    ensures s != "" ==> Replace(s, c, r) == (if s[0] == c then r else [s[0]]) + Replace(s[1..], c, r)
  {}

  lemma {:induction false} ReplaceConcat(a: string, b: string, c: char, r: string)
    ensures Replace(a + b, c, r) == Replace(a, c, r) + Replace(b, c, r)
  {
    hide Replace;
    ReplaceStep(a, c, r);
    if a == "" {
      assert a + b == b;
    } else {
      ReplaceConcat(a[1..], b, c, r);
      ReplaceStep(a + b, c, r);
      assert (a + b)[1..] == a[1..] + b;
    }
  }

  /** The index of the first line break, or the length of the text. */
  function FirstBreak(s: string): (k: nat)
    ensures k <= |s|
    ensures forall i :: 0 <= i < k ==> !IsLineBreak(s[i])
    ensures k < |s| ==> IsLineBreak(s[k])
  {
    if s == "" || IsLineBreak(s[0]) then 0 else 1 + FirstBreak(s[1..])
  }

  /** `str.splitlines()`: "\r\n" is one break, and a final break opens no further line. */
  function SplitLines(s: string): seq<string>
    decreases |s|
  {
    if s == "" then []
    else
      var k := FirstBreak(s);
      if k == |s| then [s]
      else if s[k] == '\r' && k + 1 < |s| && s[k + 1] == '\n' then [s[..k]] + SplitLines(s[k + 2..])
      else [s[..k]] + SplitLines(s[k + 1..])
  }

  // ---------- What trimming and splitting mean ----------

  /** White space and line breaks, one by one. */
  lemma WhiteSpace(c: char)
    ensures IsSpace(c) <==>
            || c in {'\U{9}', '\U{A}', '\U{B}', '\U{C}', '\U{D}', '\U{1C}', '\U{1D}', '\U{1E}', '\U{1F}', '\U{20}', '\U{85}', '\U{A0}', '\U{1680}'}
            || c in {'\U{2000}', '\U{2001}', '\U{2002}', '\U{2003}', '\U{2004}', '\U{2005}', '\U{2006}', '\U{2007}', '\U{2008}', '\U{2009}', '\U{200A}'}
            || c in {'\U{2028}', '\U{2029}', '\U{202F}', '\U{205F}', '\U{3000}'}
    ensures IsLineBreak(c) <==> c in {'\U{A}', '\U{B}', '\U{C}', '\U{D}', '\U{1C}', '\U{1D}', '\U{1E}', '\U{85}', '\U{2028}', '\U{2029}'}
  {}

  /** Trimming takes off white space only, as much as there is: the white space around it and the result
      make up the text, and the result, if any, neither begins nor ends with white space. */
  lemma StripMeans(s: string) returns (before: string, after: string)
    ensures s == before + Strip(s) + after && AllSpace(before) && AllSpace(after)
    ensures Strip(s) != "" ==> !IsSpace(Strip(s)[0]) && !IsSpace(Strip(s)[|Strip(s)| - 1])
  {
    hide IsSpace, AllSpace, LStrip, RStrip, Strip;
    StripParts(s);
    var t := LStrip(s);
    var n := |s| - |t|;
    before, after := s[..n], t[|Strip(s)|..];
    Halves(s, n);
    Halves(t, |Strip(s)|);
    Three(s, before, t, Strip(s), after);
  }

  lemma Three(s: string, before: string, t: string, r: string, after: string)
    requires s == before + t && t == r + after
    ensures s == before + r + after
  {}

  lemma Halves(s: string, n: nat)
    requires n <= |s|
    ensures s == s[..n] + s[n..]
  {}

  lemma StripEmpty(s: string)
    ensures Strip(s) == "" <==> AllSpace(s)
  {
    hide IsSpace, LStrip, RStrip, Strip;
    var before, after := StripMeans(s);
    if Strip(s) == "" {
      assert s == before + after;
    } else {
      assert s[|before|] == Strip(s)[0];
    }
  }

  lemma StripParts(s: string)
    ensures Strip(s) == RStrip(LStrip(s))
  {}

  /** A line begins at position a: at the start, or behind a break, "\r\n" being one break. */
  ghost predicate LineStart(s: string, a: nat)
    requires a < |s|
  {
    a == 0 || (IsLineBreak(s[a - 1]) && !(s[a - 1] == '\r' && s[a] == '\n'))
  }

  /** The text from a to b is a line: it begins there and goes on to the next break or the end. */
  ghost predicate LineAt(s: string, a: nat, b: nat) {
    && a <= b <= |s| && a < |s| && LineStart(s, a)
    && (forall i :: a <= i < b ==> !IsLineBreak(s[i]))
    && (b < |s| ==> IsLineBreak(s[b]))
  }

  lemma LineShift(s: string, o: nat, a: nat, b: nat)
    requires 0 < o <= |s| && IsLineBreak(s[o - 1]) && !(o < |s| && s[o - 1] == '\r' && s[o] == '\n')
    ensures LineAt(s[o..], a, b) <==> LineAt(s, a + o, b + o)
    ensures LineAt(s[o..], a, b) ==> s[o..][a..b] == s[a + o..b + o]
  {
    hide IsLineBreak;
    var r := s[o..];
    if a < |r| {
      assert r[a] == s[a + o];
      if a > 0 { assert r[a - 1] == s[a + o - 1]; }
      forall i | a <= i < b && i < |r| ensures r[i] == s[i + o] {}
      if a <= b <= |r| {
        assert forall i :: a + o <= i < b + o ==> s[i] == r[i - o];
        assert b < |r| ==> r[b] == s[b + o];
      }
    }
  }

  /** The first line, and where the text goes on behind its break. */
  lemma LineFirst(s: string, k: nat, o: nat, a: nat, b: nat)
    requires s != "" && k == FirstBreak(s) && k < |s|
    requires o == if s[k] == '\r' && k + 1 < |s| && s[k + 1] == '\n' then k + 2 else k + 1
    ensures LineAt(s, 0, k)
    ensures LineAt(s, a, b) && a < o ==> a == 0 && b == k
  {
    hide IsLineBreak;
  }

  ghost predicate IsLine(s: string, t: string) {
    exists a: nat, b: nat :: LineIs(s, a, b, t)
  }

  ghost predicate LineIs(s: string, a: nat, b: nat, t: string) {
    LineAt(s, a, b) && s[a..b] == t
  }

  lemma {:induction false} LineBehind(s: string, k: nat, o: nat, a: nat, b: nat, t: string)
    requires s != "" && k == FirstBreak(s) && k < |s| && LineIs(s, a, b, t)
    requires o == if s[k] == '\r' && k + 1 < |s| && s[k + 1] == '\n' then k + 2 else k + 1
    ensures t == s[..k] || (a >= o && b >= o && o <= |s| && LineIs(s[o..], a - o, b - o, t))
  {
    hide LineAt, IsLineBreak, FirstBreak;
    BreakBefore(s, k, o);
    LineFirst(s, k, o, a, b);
    if a < o {
      assert s[0..k] == s[..k];
    } else {
      LineBack(s, o, a, b, t);
    }
  }

  lemma {:induction false} LineBack(s: string, o: nat, a: nat, b: nat, t: string)
    requires 0 < o <= |s| && IsLineBreak(s[o - 1]) && !(o < |s| && s[o - 1] == '\r' && s[o] == '\n')
    requires LineIs(s, a, b, t) && a >= o
    ensures b >= a && LineIs(s[o..], a - o, b - o, t)
  {
    hide LineAt, IsLineBreak;
    LineBounds(s, a, b);
    LineShift(s, o, a - o, b - o);
  }

  lemma LinesBehind(s: string, k: nat, o: nat, t: string)
    requires s != "" && k == FirstBreak(s) && k < |s|
    requires o == if s[k] == '\r' && k + 1 < |s| && s[k + 1] == '\n' then k + 2 else k + 1
    ensures IsLine(s, t) <==> t == s[..k] || IsLine(s[o..], t)
  {
    hide LineAt, LineIs, IsLineBreak, FirstBreak;
    BreakBefore(s, k, o);
    FirstIsLine(s, k, o);
    if a: nat, b: nat :| LineIs(s, a, b, t) { LineBehind(s, k, o, a, b, t); }
    if a: nat, b: nat :| LineIs(s[o..], a, b, t) { LineOn(s, o, a, b, t); }
  }

  lemma FirstIsLine(s: string, k: nat, o: nat)
    requires s != "" && k == FirstBreak(s) && k < |s|
    requires o == if s[k] == '\r' && k + 1 < |s| && s[k + 1] == '\n' then k + 2 else k + 1
    ensures LineIs(s, 0, k, s[..k])
  {
    LineFirst(s, k, o, 0, k);
    assert s[0..k] == s[..k];
  }

  lemma LineOn(s: string, o: nat, a: nat, b: nat, t: string)
    requires 0 < o <= |s| && IsLineBreak(s[o - 1]) && !(o < |s| && s[o - 1] == '\r' && s[o] == '\n')
    requires LineIs(s[o..], a, b, t)
    ensures LineIs(s, a + o, b + o, t)
  {
    hide LineAt, IsLineBreak;
    LineShift(s, o, a, b);
    LineBounds(s[o..], a, b);
    LineBounds(s, a + o, b + o);
  }

  lemma LineBounds(s: string, a: nat, b: nat)
    requires LineAt(s, a, b)
    ensures a <= b <= |s|
  {}

  lemma BreakBefore(s: string, k: nat, o: nat)
    requires k < |s| && IsLineBreak(s[k])
    requires o == if s[k] == '\r' && k + 1 < |s| && s[k + 1] == '\n' then k + 2 else k + 1
    ensures 0 < o <= |s| && IsLineBreak(s[o - 1]) && !(o < |s| && s[o - 1] == '\r' && s[o] == '\n')
  {}

  lemma OnlyLine(s: string, t: string)
    requires s != "" && FirstBreak(s) == |s|
    ensures IsLine(s, t) <==> t == s
  {
    hide IsLineBreak, FirstBreak;
    assert s[0..|s|] == s;
    if t == s { assert LineIs(s, 0, |s|, s); }
    if a: nat, b: nat :| LineIs(s, a, b, t) { assert a == 0 && b == |s|; }
  }

  lemma NoLine(t: string)
    ensures !IsLine("", t)
  {}

  /** The pieces are the lines. */
  lemma {:induction false} SplitLinesMean(s: string, t: string)
    ensures t in SplitLines(s) <==> IsLine(s, t)
    decreases |s|
  {
    hide IsLineBreak, FirstBreak, IsLine;
    NoLine(t);
    if s != "" {
      var k := FirstBreak(s);
      if k == |s| {
        OnlyLine(s, t);
      } else {
        var o := if s[k] == '\r' && k + 1 < |s| && s[k + 1] == '\n' then k + 2 else k + 1;
        LinesBehind(s, k, o, t);
        SplitLinesMean(s[o..], t);
      }
    }
  }
}
