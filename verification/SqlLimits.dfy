/** Where the splitter and PostgreSQL part ways: the lexical forms of section 4.1.2 that the splitter
    does not know. It reads on inside them, and cuts or does not cut by what it finds there. */
module SqlLimits {
  import opened SqlSplitter
  import opened SqlReading
  import opened SqlStatements

  /** One of the forms the splitter knows begins at position i. */
  predicate FormAt(s: string, i: nat)
    requires i < |s|
  {
    s[i] == '\'' || StartsComment(s[i..]) || TagLen(s[i..]) > 0
  }

  predicate FormlessTo(s: string, n: nat) {
    n <= |s| && forall i :: 0 <= i < n ==> !FormAt(s, i)
  }

  lemma FormlessTail(s: string, n: nat)
    requires FormlessTo(s, n) && n > 0
    ensures !FormAt(s, 0) && FormlessTo(s[1..], n - 1)
  {
    hide TagLen, StartsComment;
    forall i | 0 <= i < n - 1 ensures !FormAt(s[1..], i) {
      assert s[1..][i..] == s[i + 1..] && !FormAt(s, i + 1);
    }
  }

  lemma FirstPlain(s: string)
    requires s != "" && !FormAt(s, 0)
    ensures First(s) == if s[0] == ';' then Semi else Plain(s[0])
  {
    hide TagLen;
    assert s[0..] == s;
  }

  lemma LexStep(s: string)
    ensures Lex(s) == if s == "" then [] else [First(s)] + Lex(s[|First(s).Text()|..])
  {}

  // ---------- Up to the first known form ----------

  lemma {:induction false} SemisOfPlain(s: string, n: nat, at: int, k: int)
    requires FormlessTo(s, n)
    ensures k in Semis(Lex(s), at) <==> (at <= k < at + n && s[k - at] == ';') || k in Semis(Lex(s[n..]), at + n)
    decreases n
  {
    hide First, Lex, Semis, FormAt, FormlessTo;
    WithinText(s, n);
    if n == 0 {
      assert s[0..] == s;
    } else {
      FormlessTail(s, n);
      FirstPlain(s);
      LexStep(s);
      assert Lex(s)[1..] == Lex(s[1..]);
      SemisStep(Lex(s), at, k);
      SemisOfPlain(s[1..], n - 1, at + 1, k);
      assert s[1..][n - 1..] == s[n..];
    }
  }

  lemma WithinText(s: string, n: nat)
    requires FormlessTo(s, n)
    ensures n <= |s|
  {}

  lemma {:induction false} SemisFrom(toks: seq<Token>, at: int, k: int)
    requires k in Semis(toks, at)
    ensures at <= k
  {
    if k in Semis(toks[1..], at + |toks[0].Text()|) { SemisFrom(toks[1..], at + |toks[0].Text()|, k); }
  }

  lemma CutsOf(s: string)
    ensures Cuts(RawPieces(s), 0) == Semis(Lex(s), 0)
  {
    hide Cuts, Semis, Lex, PiecesFrom;
    CutsAreSemis("", Lex(s), 0);
  }

  /** Up to the first form it knows the splitter cuts at every semicolon, whatever PostgreSQL sees
      there: a block comment, a quoted identifier, a dollar quote with a digit in its tag. */
  lemma FormlessCuts(s: string, n: nat, k: nat)
    requires FormlessTo(s, n) && k < n
    ensures k in Cuts(RawPieces(s), 0) <==> s[k] == ';'
  {
    hide FormAt, Lex, Cuts, RawPieces, Semis;
    CutsOf(s);
    SemisOfPlain(s, n, 0, k);
    if k in Semis(Lex(s[n..]), n) { SemisFrom(Lex(s[n..]), n, k); }
  }

  // ---------- Behind an opening quote ----------

  lemma {:induction false} QuoteReaches(e: string, more: string)
    requires Escaped(e)
    ensures QuoteTail(e + more) == |e| + QuoteTail(more)
  {
    if e == "" {
      assert e + more == more;
    } else if e[0] == '\'' {
      assert (e + more)[2..] == e[2..] + more;
      QuoteReaches(e[2..], more);
    } else {
      assert (e + more)[1..] == e[1..] + more;
      QuoteReaches(e[1..], more);
    }
  }

  lemma {:induction false} LexString(q: string, e: string) returns (x: string, u: string)
    requires ['\''] + e <= q && Escaped(e)
    ensures 1 + |e| <= |x| && |x| + |u| == |q| && Lex(q) == [Quoted(x)] + Lex(u)
  {
    hide Escaped, Lex;
    var more := q[1 + |e|..];
    assert q[1..] == e + more;
    QuoteReaches(e, more);
    var w := 1 + QuoteTail(q[1..]);
    x, u := q[..w], q[w..];
    LexStep(q);
  }

  lemma SemisOfString(x: string, more: seq<Token>, at: int, k: int)
    requires k in Semis([Quoted(x)] + more, at)
    ensures k in Semis(more, at + |x|)
  {
    hide Semis;
    SemisStep([Quoted(x)] + more, at, k);
    assert ([Quoted(x)] + more)[1..] == more;
  }

  lemma {:induction false} SemisOfText(u: string, at: int, k: int)
    requires k in Semis(Lex(u), at)
    ensures u != "" && at <= k
  {
    hide First;
    SemisFrom(Lex(u), at, k);
  }

  lemma {:induction false} SemisBehind(q: string, e: string, at: int, k: int)
    requires ['\''] + e <= q && Escaped(e) && k in Semis(Lex(q), at)
    ensures at + 1 + |e| <= k && 1 + |e| < |q|
  {
    hide *;
    var x, u := LexString(q, e);
    SemisOfString(x, Lex(u), at, k);
    SemisOfText(u, at + |x|, k);
  }

  /** Where the splitter sees a string begin it makes no cut while quotes occur only doubled, and none
      at all if the text ends so. */
  lemma {:induction false} HiddenCuts(s: string, n: nat, e: string, k: int)
    requires FormlessTo(s, n) && ['\''] + e <= s[n..] && Escaped(e)
    requires k < n + 1 + |e| || n + 1 + |e| == |s|
    ensures k in Cuts(RawPieces(s), 0) <==> 0 <= k < n && s[k] == ';'
  {
    hide FormAt, Lex, Cuts, RawPieces, Semis, First, Escaped;
    CutsOf(s);
    SemisOfPlain(s, n, 0, k);
    if k in Semis(Lex(s[n..]), n) { SemisBehind(s[n..], e, n, k); }
  }

  lemma LexOpen(q: string)
    requires OpenQuote(q)
    ensures Lex(q) == [Quoted(q)]
  {
    hide First, Lex, Escaped;
    assert q + "" == q && q[|q|..] == "";
    FirstOfQuoted(q, "");
    LexStep(q);
    LexStep("");
  }

  lemma SemisOfQuote(q: string, at: int)
    ensures Semis([Quoted(q)], at) == []
  {
    assert [Quoted(q)][1..] == [];
  }

  lemma {:induction false} NoQuotes(b: string)
    requires '\'' !in b
    ensures Escaped(b)
  {
    if b != "" { NoQuotes(b[1..]); }
  }

  lemma {:induction false} DoubledQuote(b: string, rest: string)
    requires '\'' !in b && '\'' !in rest
    ensures Escaped(b + "''" + rest)
  {
    var s := b + "''" + rest;
    if b == "" {
      assert s[2..] == rest;
      NoQuotes(rest);
    } else {
      assert s[1..] == b[1..] + "''" + rest;
      DoubledQuote(b[1..], rest);
    }
  }

  /** An apostrophe outside the known forms, as in a block comment with "don't": up to the next one, or
      the end, the true separators are missed, and all that is one statement. */
  lemma LoneApostrophe(s: string, n: nat, m: nat, k: int)
    requires n < m <= |s| && FormlessTo(s, n) && s[n] == '\'' && '\'' !in s[n + 1..m]
    requires k < m || m == |s|
    ensures k in Cuts(RawPieces(s), 0) <==> 0 <= k < n && s[k] == ';'
  {
    hide FormAt, Cuts, RawPieces, Escaped;
    assert s[n..][..m - n] == ['\''] + s[n + 1..m];
    NoQuotes(s[n + 1..m]);
    HiddenCuts(s, n, s[n + 1..m], k);
  }

  // ---------- Escape strings ----------

  /** E'b\'c' is one string for PostgreSQL. For the splitter it ends at the escaped quote: what `c`
      holds is read as text, and cut at its semicolons. */
  lemma EscapeStringCut(b: string, c: string, k: int)
    requires '\'' !in b && c != "" && '\'' !in c && FormlessTo(c + "'", |c|)
    ensures var s := "E'" + b + "\\'" + c + "'";
            k in Cuts(RawPieces(s), 0) <==> |b| + 4 <= k < |b| + 4 + |c| && c[k - (|b| + 4)] == ';'
  {
    hide FormAt, Lex, Cuts, RawPieces, Semis, First, Escaped, Reads;
    var s := "E'" + b + "\\'" + c + "'";
    var q := "'" + (b + "\\") + "'";
    var rest := c + "'";
    var at := |b| + 4;
    assert s[1..] == q + rest;
    LetterE(s);
    CutsOf(s);
    SemisOfPlain(s, 1, 0, k);
    LexQuoted(b + "\\", rest);
    SemisStep([Quoted(q)] + Lex(rest), 1, k);
    assert ([Quoted(q)] + Lex(rest))[1..] == Lex(rest);
    SemisOfPlain(rest, |c|, at, k);
    assert rest[|c|..] == "'";
    OpensAlone();
    LexOpen("'");
    SemisOfQuote("'", at + |c|);
  }

  lemma OpensAlone()
    ensures OpenQuote("'")
  {}

  lemma LetterE(s: string)
    requires s != "" && s[0] == 'E'
    ensures FormlessTo(s, 1)
  {}

  lemma LexQuoted(b: string, rest: string)
    requires '\'' !in b && (rest == "" || rest[0] != '\'')
    ensures Lex("'" + b + "'" + rest) == [Quoted("'" + b + "'")] + Lex(rest)
  {
    hide First, Lex, Escaped;
    var q := "'" + b + "'";
    assert q[1..|q| - 1] == b;
    NoQuotes(b);
    FirstOfQuoted(q, rest);
    LexStep(q + rest);
    assert (q + rest)[|q|..] == rest;
  }

  /** An escaped quote before the closing one: E'b\'' does not end for the splitter, which misses
      every separator up to the next apostrophe, or the end. */
  lemma EscapeStringOpen(b: string, c: string, more: string, k: int)
    requires '\'' !in b && '\'' !in c && (k < |b| + 5 + |c| || more == "")
    ensures k !in Cuts(RawPieces("E'" + b + "\\''" + c + more), 0)
  {
    hide FormAt, Cuts, RawPieces, Escaped;
    var s := "E'" + b + "\\''" + c + more;
    var e := (b + "\\") + "''" + c;
    LetterE(s);
    assert s == "E" + (['\''] + e) + more;
    assert s[1..][..1 + |e|] == ['\''] + e;
    DoubledQuote(b + "\\", c);
    HiddenCuts(s, 1, e, k);
  }

  lemma NoneIn(cuts: seq<int>)
    requires forall k :: k !in cuts
    ensures cuts == []
  {
    if cuts != [] { var k := Some(cuts); }
  }

  lemma Some(cuts: seq<int>) returns (k: int)
    requires cuts != []
    ensures k in cuts
  {
    k := cuts[0];
  }

  // ---------- Inputs ----------

  /** Semicolons that are cut although PostgreSQL sees them inside one of those forms. */
  lemma UnknownForms()
    ensures 2 in Cuts(RawPieces("/*;*/"), 0)
    ensures 1 in Cuts(RawPieces("\";\""), 0)
    ensures 4 in Cuts(RawPieces("$a1$;$a1$"), 0)
  {
    hide RawPieces, Cuts;
    FormlessCuts("/*;*/", 5, 2);
    FormlessCuts("\";\"", 3, 1);
    DigitTag();
    FormlessCuts("$a1$;$a1$", 9, 4);
  }

  /** One that is not, because the splitter sees it in a string; and a separator that is missed. */
  lemma MissedSeparator()
    ensures Cuts(RawPieces("/*';'*/"), 0) == []
    ensures Cuts(RawPieces("/*'*/;"), 0) == []
  {
    hide RawPieces, Cuts;
    forall k: int ensures k !in Cuts(RawPieces("/*';'*/"), 0) { QuoteInComment(k); }
    NoneIn(Cuts(RawPieces("/*';'*/"), 0));
    forall k: int ensures k !in Cuts(RawPieces("/*'*/;"), 0) { LoneApostrophe("/*'*/;", 2, 6, k); }
    NoneIn(Cuts(RawPieces("/*'*/;"), 0));
  }

  lemma QuoteInComment(k: int)
    ensures k !in Cuts(RawPieces("/*';'*/"), 0)
  {
    hide Lex, Cuts, RawPieces, Semis, First;
    var s, q, rest := "/*';'*/", "';'", "*/";
    CutsOf(s);
    SemisOfPlain(s, 2, 0, k);
    assert s[2..] == "'" + ";" + "'" + rest && "'" + ";" + "'" == q;
    LexQuoted(";", rest);
    SemisStep([Quoted(q)] + Lex(rest), 2, k);
    assert ([Quoted(q)] + Lex(rest))[1..] == Lex(rest);
    SemisOfPlain(rest, 2, 5, k);
    assert rest[2..] == "";
    LexStep("");
    NoSemis(7, k);
  }

  /** Only letters may stand between the dollars of a tag. */
  lemma NoTagAt(s: string, n: nat)
    requires s != "" && 1 <= n <= |s| && (forall i :: 1 <= i < n ==> IsTagLetter(s[i]))
    requires n < |s| ==> !IsTagLetter(s[n]) && s[n] != '$'
    ensures TagLen(s) == 0
  {
    assert n < |s| ==> s[1..][n - 1] == s[n];
    assert forall i :: 1 <= i < n ==> s[1..][i - 1] == s[i];
  }

  lemma DigitTag()
    ensures FormlessTo("$a1$;$a1$", 9)
  {
    hide TagLen;
    var s := "$a1$;$a1$";
    forall i | 0 <= i < |s| ensures !FormAt(s, i) {
      var t := s[i..];
      if s[i] == '$' { NoTagAt(t, if i == 0 || i == 5 then 2 else 1); } else { NoDollar(t); }
    }
  }

  lemma NoDollar(s: string)
    requires s != "" && s[0] != '$'
    ensures TagLen(s) == 0
  {}
}
