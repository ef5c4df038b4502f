/** What the SQL splitter is for: the lexical forms of the PostgreSQL documentation, section
    4.1.2, as far as the splitter knows them, stated without a scanning order, and the
    properties of the cut against that reading. */
module SqlReading {
  import opened SqlSplitter

  // ---------- Readings ----------

  /** A quoted body: quotes occur only doubled. */
  predicate Escaped(b: string) {
    b == "" ||
    if b[0] == '\'' then |b| >= 2 && b[1] == '\'' && Escaped(b[2..]) else Escaped(b[1..])
  }

  predicate IsTag(tag: string) {
    && |tag| >= 2 && tag[0] == '$' && tag[|tag| - 1] == '$'
    && forall i :: 1 <= i < |tag| - 1 ==> IsTagLetter(tag[i])
  }

  ghost predicate ClosedQuote(t: string) {
    |t| >= 2 && t[0] == '\'' && t[|t| - 1] == '\'' && Escaped(t[1..|t| - 1])
  }

  ghost predicate OpenQuote(t: string) {
    |t| >= 1 && t[0] == '\'' && Escaped(t[1..])
  }

  /** The tag stands in the text at position k. */
  ghost predicate TagAt(tag: string, t: string, k: nat) {
    k + |tag| <= |t| && forall i :: 0 <= i < |tag| ==> t[k + i] == tag[i]
  }

  lemma OccursIs(tag: string, t: string, k: nat)
    ensures OccursAt(tag, t, k) <==> TagAt(tag, t, k)
  {
    if k + |tag| <= |t| {
      var part := t[k..k + |tag|];
      assert forall i :: 0 <= i < |tag| ==> part[i] == t[k + i];
    }
  }

  /** Letters of a tag are the 52 letters and the underscore. */
  lemma TagLetters(c: char)
    ensures IsTagLetter(c) <==>
            || c in {'A', 'B', 'C', 'D', 'E', 'F', 'G', 'H', 'I', 'J', 'K', 'L', 'M', 'N', 'O', 'P', 'Q', 'R', 'S', 'T', 'U', 'V', 'W', 'X', 'Y', 'Z'}
            || c in {'a', 'b', 'c', 'd', 'e', 'f', 'g', 'h', 'i', 'j', 'k', 'l', 'm', 'n', 'o', 'p', 'q', 'r', 's', 't', 'u', 'v', 'w', 'x', 'y', 'z'}
            || c == '_'
  {}

  /** The tag opens the text and occurs again, for the first time, at its very end. */
  ghost predicate ClosedDollar(tag: string, t: string) {
    && IsTag(tag) && tag <= t && |t| >= 2 * |tag| && OccursAt(tag, t, |t| - |tag|)
    && forall k :: |tag| <= k < |t| - |tag| ==> !OccursAt(tag, t, k)
  }

  ghost predicate OpenDollar(tag: string, t: string) {
    IsTag(tag) && tag <= t && forall k :: |tag| <= k <= |t| ==> !OccursAt(tag, t, k)
  }

  ghost predicate StartsTag(s: string) {
    exists k :: 0 <= k <= |s| && IsTag(s[..k])
  }

  /** When `t` is a lexical element of a text that goes on with `rest`. Only the last element
      of a text may be an unterminated string. */
  ghost predicate Valid(t: Token, rest: string) {
    match t
    case Comment(x) => StartsComment(x) && '\n' !in x && (rest == "" || rest[0] == '\n')
    case Quoted(x) =>
      || (ClosedQuote(x) && (rest == "" || rest[0] != '\''))
      || (OpenQuote(x) && rest == "")
    case Dollar(x) =>
      || (exists tag :: ClosedDollar(tag, x))
      || (rest == "" && exists tag :: OpenDollar(tag, x))
    case Semi => true
    case Plain(c) =>
      c != ';' && c != '\'' && !(c == '-' && rest != "" && rest[0] == '-') && !StartsTag([c] + rest)
  }

  ghost predicate Reads(toks: seq<Token>, s: string) {
    if toks == [] then s == ""
    else toks[0].Text() <= s && Valid(toks[0], s[|toks[0].Text()|..])
         && Reads(toks[1..], s[|toks[0].Text()|..])
  }

  // ---------- The scanner finds a reading ----------

  lemma {:induction false} QuoteTailForm(s: string)
    ensures var k := QuoteTail(s);
            || (k == |s| && Escaped(s))
            || (k > 0 && s[k - 1] == '\'' && Escaped(s[..k - 1]) && (k == |s| || s[k] != '\''))
  {
    if s == "" {
    } else if s[0] != '\'' {
      QuoteTailForm(s[1..]);
      var k := QuoteTail(s);
      if k > 1 { assert s[..k - 1][1..] == s[1..][..k - 2]; }
    } else if |s| >= 2 && s[1] == '\'' {
      QuoteTailForm(s[2..]);
      var k := QuoteTail(s);
      if k > 2 { assert s[..k - 1][2..] == s[2..][..k - 3]; }
    }
  }

  lemma QuotedValid(s: string)
    requires s != "" && s[0] == '\''
    ensures var k := 1 + QuoteTail(s[1..]);
            k <= |s| && Valid(Quoted(s[..k]), s[k..])
  {
    QuoteTailForm(s[1..]);
    var k := 1 + QuoteTail(s[1..]);
    var x := s[..k];
    if k == |s| && Escaped(s[1..]) {
      assert x == s;
    } else {
      assert x[1..|x| - 1] == s[1..][..k - 2];
      assert ClosedQuote(x);
    }
  }

  lemma TagLenForm(s: string)
    ensures TagLen(s) > 0 ==> IsTag(s[..TagLen(s)])
    ensures forall k :: 0 <= k <= |s| && IsTag(s[..k]) ==> k == TagLen(s)
  {
    if s != "" && s[0] == '$' {
      var n := Letters(s[1..]);
      forall k | 0 <= k <= |s| && IsTag(s[..k]) ensures k == n + 2 {
        assert s[..k][k - 1] == s[1..][k - 2];
        assert forall i :: 0 <= i < k - 2 ==> s[1..][i] == s[..k][i + 1];
      }
    }
  }

  lemma OccursInPrefix(tag: string, s: string, n: nat, k: nat)
    requires n <= |s| && k + |tag| <= n
    ensures OccursAt(tag, s, k) <==> OccursAt(tag, s[..n], k)
  {
    assert s[..n][k..k + |tag|] == s[k..k + |tag|];
  }

  lemma DollarValid(s: string)
    requires TagLen(s) > 0
    ensures Valid(Dollar(s[..DollarLen(s)]), s[DollarLen(s)..])
  {
    hide TagLen, IsTag;
    TagLenForm(s);
    var tag := s[..TagLen(s)];
    var j := FindFrom(tag, s, |tag|);
    var n := DollarLen(s);
    var x := s[..n];
    if j == |s| {
      assert x == s;
      assert OpenDollar(tag, x);
    } else {
      OccursInPrefix(tag, s, n, j);
      forall k | |tag| <= k < n - |tag| ensures !OccursAt(tag, x, k) {
        OccursInPrefix(tag, s, n, k);
      }
      assert ClosedDollar(tag, x);
    }
  }

  lemma FirstValid(s: string)
    requires s != ""
    ensures Valid(First(s), s[|First(s).Text()|..])
  {
    hide TagLen, DollarLen, QuoteTail, Escaped, IsTag;
    TagLenForm(s);
    if StartsComment(s) {
    } else if s[0] == '\'' {
      QuotedValid(s);
    } else if TagLen(s) > 0 {
      DollarValid(s);
    } else {
      assert [s[0]] + s[1..] == s;
      NoEmptyTag();
    }
  }

  lemma NoEmptyTag()
    ensures !IsTag("")
  {}

  lemma {:induction false} LexReads(s: string)
    ensures Reads(Lex(s), s)
  {
    hide First, Valid;
    if s != "" {
      var rest := s[|First(s).Text()|..];
      FirstValid(s);
      LexReads(rest);
      assert Lex(s)[1..] == Lex(rest);
    }
  }

  // ---------- It is the only reading ----------

  lemma {:induction false} QuoteTailClosed(b: string, rest: string)
    requires Escaped(b) && (rest == "" || rest[0] != '\'')
    ensures QuoteTail(b + ['\''] + rest) == |b| + 1
  {
    var s := b + ['\''] + rest;
    if b != "" && b[0] == '\'' {
      assert s[2..] == b[2..] + ['\''] + rest;
      QuoteTailClosed(b[2..], rest);
    } else if b != "" {
      assert s[1..] == b[1..] + ['\''] + rest;
      QuoteTailClosed(b[1..], rest);
    }
  }

  lemma {:induction false} QuoteTailOpen(b: string)
    requires Escaped(b)
    ensures QuoteTail(b) == |b|
  {
    if b != "" {
      if b[0] == '\'' { QuoteTailOpen(b[2..]); } else { QuoteTailOpen(b[1..]); }
    }
  }

  lemma {:induction false} NewlineAtEnd(t: string, rest: string)
    requires '\n' !in t && (rest == "" || rest[0] == '\n')
    ensures NewlineAt(t + rest) == |t|
  {
    if t == "" {
      assert t + rest == rest;
    } else {
      assert (t + rest)[1..] == t[1..] + rest;
      NewlineAtEnd(t[1..], rest);
    }
  }

  lemma FirstOfQuoted(x: string, rest: string)
    requires Valid(Quoted(x), rest)
    ensures First(x + rest) == Quoted(x)
  {
    var s := x + rest;
    if ClosedQuote(x) && (rest == "" || rest[0] != '\'') {
      var b := x[1..|x| - 1];
      assert s[1..] == b + ['\''] + rest;
      QuoteTailClosed(b, rest);
    } else {
      assert s == x;
      QuoteTailOpen(x[1..]);
    }
    assert s[..|x|] == x;
  }

  lemma TagLenOf(tag: string, s: string)
    requires IsTag(tag) && tag <= s
    ensures TagLen(s) == |tag|
  {
    TagLenForm(s);
    assert s[..|tag|] == tag;
  }

  /** The closing tag is where the search for it ends. */
  lemma DollarFound(tag: string, x: string, rest: string)
    requires ClosedDollar(tag, x)
    ensures FindFrom(tag, x + rest, |tag|) == |x| - |tag|
  {
    hide IsTag, OccursAt;
    var s := x + rest;
    assert s[..|x|] == x;
    var j := FindFrom(tag, s, |tag|);
    OccursInPrefix(tag, s, |x|, |x| - |tag|);
    if j < |x| - |tag| { OccursInPrefix(tag, s, |x|, j); }
  }

  lemma FirstOfDollar(tag: string, x: string, rest: string)
    requires ClosedDollar(tag, x) || (OpenDollar(tag, x) && rest == "")
    ensures First(x + rest) == Dollar(x)
  {
    hide TagLen, OccursAt, FindFrom;
    var s := x + rest;
    assert s[..|tag|] == tag by { assert tag <= x; }
    TagLenOf(tag, s);
    if ClosedDollar(tag, x) {
      DollarFound(tag, x, rest);
    } else {
      assert s == x;
    }
    assert s[..|x|] == x;
    assert s[0] == '$';
  }

  lemma FirstUnique(t: Token, rest: string)
    requires Valid(t, rest)
    ensures First(t.Text() + rest) == t
  {
    hide TagLen, QuoteTail, Escaped, IsTag;
    var s := t.Text() + rest;
    match t
    case Comment(x) =>
      NewlineAtEnd(x, rest);
      assert s[..|x|] == x;
    case Quoted(x) => FirstOfQuoted(x, rest);
    case Dollar(x) =>
      var tag :| ClosedDollar(tag, x) || (OpenDollar(tag, x) && rest == "");
      FirstOfDollar(tag, x, rest);
    case Semi => TagLenForm(s); NotATag(s);
    case Plain(c) => TagLenForm(s);
  }

  lemma NotATag(s: string)
    requires s != "" && s[0] == ';'
    ensures TagLen(s) == 0
  {}

  /** Every text has exactly one reading, and it is the scanner's. */
  lemma {:induction false} ReadingUnique(toks: seq<Token>, s: string)
    requires Reads(toks, s)
    ensures toks == Lex(s)
  {
    hide First, Valid;
    if toks != [] {
      var t := toks[0];
      var rest := s[|t.Text()|..];
      assert s == t.Text() + rest;
      FirstUnique(t, rest);
      ReadingUnique(toks[1..], rest);
      TextNotEmpty(t, rest);
    }
  }

  lemma TextNotEmpty(t: Token, rest: string)
    requires Valid(t, rest)
    ensures t.Text() != ""
  {}
}
