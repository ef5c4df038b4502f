/** The properties of the statement cut, against any reading of the script. */
module SqlStatements {
  import opened PyText
  import opened SqlSplitter
  import opened SqlReading

  // ---------- Nothing is lost ----------

  function Join(pieces: seq<string>): string {
    if pieces == [] then "" else if |pieces| == 1 then pieces[0] else pieces[0] + ";" + Join(pieces[1..])
  }

  lemma {:induction false} JoinPieces(buf: string, toks: seq<Token>)
    ensures PiecesFrom(buf, toks) != []
    ensures Join(PiecesFrom(buf, toks)) == buf + TextOf(toks)
    decreases toks
  {
    if toks != [] {
      if toks[0] == Semi {
        JoinPieces("", toks[1..]);
        assert PiecesFrom(buf, toks)[1..] == PiecesFrom("", toks[1..]);
      } else {
        JoinPieces(buf + toks[0].Text(), toks[1..]);
      }
    }
  }

  lemma {:induction false} ReadsText(toks: seq<Token>, s: string)
    requires Reads(toks, s)
    ensures TextOf(toks) == s
  {
    hide Valid, Reads, TextOf;
    ReadsStep(toks, s);
    TextStep(toks);
    if toks != [] { ReadsText(toks[1..], s[|toks[0].Text()|..]); }
  }

  /** Joining the raw pieces with ';' rebuilds the script. */
  lemma Lossless(sql: string)
    ensures Join(RawPieces(sql)) == sql
  {
    LexReads(sql);
    ReadsText(Lex(sql), sql);
    JoinPieces("", Lex(sql));
  }

  // ---------- The cuts are the semicolons of the reading ----------

  /** Where the separators of a joined list of pieces stand. */
  function Cuts(pieces: seq<string>, at: int): seq<int> {
    if |pieces| <= 1 then [] else [at + |pieces[0]|] + Cuts(pieces[1..], at + |pieces[0]| + 1)
  }

  function Semis(toks: seq<Token>, at: int): seq<int> {
    if toks == [] then []
    else (if toks[0] == Semi then [at] else []) + Semis(toks[1..], at + |toks[0].Text()|)
  }

  lemma CutsCons(p: string, pieces: seq<string>, at: int)
    requires pieces != []
    ensures Cuts([p] + pieces, at) == [at + |p|] + Cuts(pieces, at + |p| + 1)
  {
    assert ([p] + pieces)[1..] == pieces;
  }

  lemma {:induction false} CutsAreSemis(buf: string, toks: seq<Token>, at: int)
    ensures Cuts(PiecesFrom(buf, toks), at - |buf|) == Semis(toks, at)
    decreases toks
  {
    hide Cuts;
    if toks == [] {
      assert Cuts([buf], at - |buf|) == [] by { CutsOne(buf, at - |buf|); }
    } else {
      if toks[0] == Semi {
        CutsAreSemis("", toks[1..], at + 1);
        JoinPieces("", toks[1..]);
        CutsCons(buf, PiecesFrom("", toks[1..]), at - |buf|);
      } else {
        CutsAreSemis(buf + toks[0].Text(), toks[1..], at + |toks[0].Text()|);
      }
    }
  }

  lemma CutsOne(p: string, at: int)
    ensures Cuts([p], at) == []
  {}

  lemma TextStep(toks: seq<Token>)
    ensures TextOf([]) == ""
    ensures toks != [] ==> TextOf(toks) == toks[0].Text() + TextOf(toks[1..])
  {}

  lemma SemisStep(toks: seq<Token>, at: int, k: int)
    requires toks != []
    ensures k in Semis(toks, at) <==> (toks[0] == Semi && at == k) || k in Semis(toks[1..], at + |toks[0].Text()|)
  {}

  ghost predicate SemiAt(toks: seq<Token>, i: int, at: int, k: int) {
    0 <= i < |toks| && toks[i] == Semi && at + |TextOf(toks[..i])| == k
  }

  lemma SemiShift(toks: seq<Token>, i: nat, at: int, k: int)
    requires i < |toks|
    ensures i > 0 ==> (SemiAt(toks, i, at, k) <==> SemiAt(toks[1..], i - 1, at + |toks[0].Text()|, k))
    ensures i == 0 ==> (SemiAt(toks, i, at, k) <==> toks[0] == Semi && at == k)
  {
    hide TextOf;
    TextStep(toks[..i]);
    if i > 0 { assert toks[..i][1..] == toks[1..][..i - 1]; }
  }

  lemma {:induction false} SemisAre(toks: seq<Token>, at: int, k: int)
    ensures k in Semis(toks, at) <==> exists i :: SemiAt(toks, i, at, k)
  {
    hide Semis, SemiAt;
    if toks == [] {
      NoSemis(at, k);
    } else {
      var next := at + |toks[0].Text()|;
      SemisStep(toks, at, k);
      SemisAre(toks[1..], next, k);
      SemiShift(toks, 0, at, k);
      forall i | 0 < i < |toks| ensures SemiAt(toks, i, at, k) <==> SemiAt(toks[1..], i - 1, next, k) {
        SemiShift(toks, i, at, k);
      }
      SemiRange(toks, at, k);
      SemiRange(toks[1..], next, k);
      if i :| SemiAt(toks[1..], i, next, k) {
        assert SemiAt(toks, i + 1, at, k) <==> SemiAt(toks[1..], i + 1 - 1, next, k);
      }
    }
  }

  lemma NoSemis(at: int, k: int)
    ensures k !in Semis([], at) && forall i :: !SemiAt([], i, at, k)
  {}

  lemma SemiRange(toks: seq<Token>, at: int, k: int)
    ensures forall i :: SemiAt(toks, i, at, k) ==> 0 <= i < |toks|
  {}

  /** A cut is made at position k exactly when k is a semicolon outside comments, quoted strings
      and dollar quotes, whichever reading of the script one takes. */
  lemma CutsExactly(sql: string, toks: seq<Token>, k: int)
    requires Reads(toks, sql)
    ensures k in Cuts(RawPieces(sql), 0) <==> exists i :: SemiAt(toks, i, 0, k)
  {
    hide Reads, Lex, TextOf;
    ReadingUnique(toks, sql);
    CutsAreSemis("", toks, 0);
    SemisAre(toks, 0, k);
  }

  // ---------- Reading a piece by itself ----------

  lemma TagGrows(s: string, tail: string)
    requires StartsTag(s)
    ensures StartsTag(s + tail)
  {
    var k :| 0 <= k <= |s| && IsTag(s[..k]);
    assert (s + tail)[..k] == s[..k];
  }

  lemma TagHasNoSemi(s: string, tail: string)
    requires StartsTag(s + tail) && tail != "" && tail[0] == ';'
    ensures StartsTag(s)
  {
    var u := s + tail;
    var k :| 0 <= k <= |u| && IsTag(u[..k]);
    assert forall i :: 0 <= i < k ==> u[..k][i] == u[i] && u[i] != ';';
    assert u[|s|] == ';';
    assert u[..k] == s[..k];
  }

  /** An element stays one when what follows is cut off at a semicolon. */
  lemma ValidCut(t: Token, rest: string, tail: string)
    requires Valid(t, rest + tail) && (tail == "" || tail[0] == ';')
    ensures Valid(t, rest)
  {
    if rest == "" { assert rest + tail == tail; }
    if t.Plain? {
      assert [t.c] + rest + tail == [t.c] + (rest + tail);
      if StartsTag([t.c] + rest) { TagGrows([t.c] + rest, tail); }
    }
  }

  /** A token that may be followed by a semicolon. */
  ghost predicate Closes(t: Token) {
    match t
    case Comment(_) => false
    case Quoted(x) => ClosedQuote(x)
    case Dollar(x) => exists tag :: ClosedDollar(tag, x)
    case Semi => true
    case Plain(_) => true
  }

  lemma ValidExtend(t: Token, rest: string, tail: string)
    requires Valid(t, rest) && tail != "" && tail[0] == ';'
    requires rest == "" ==> Closes(t)
    ensures Valid(t, rest + tail)
  {
    if rest == "" { assert rest + tail == tail; }
    if t.Plain? {
      assert [t.c] + rest + tail == [t.c] + (rest + tail);
      if StartsTag([t.c] + (rest + tail)) { TagHasNoSemi([t.c] + rest, tail); }
    }
  }

  lemma ReadsStep(toks: seq<Token>, s: string)
    ensures toks == [] ==> (Reads(toks, s) <==> s == "")
    ensures toks != [] ==>
              (Reads(toks, s) <==> toks[0].Text() <= s && Valid(toks[0], s[|toks[0].Text()|..])
                                   && Reads(toks[1..], s[|toks[0].Text()|..]))
  {}

  lemma {:induction false} ReadsCut(run: seq<Token>, more: seq<Token>, s: string)
    requires Reads(run + more, s) && (more == [] || more[0] == Semi)
    ensures Reads(run, TextOf(run))
    ensures TextOf(run) <= s && Reads(more, s[|TextOf(run)|..])
  {
    hide Valid, Reads, TextOf;
    ReadsStep(run + more, s);
    TextStep(run);
    if run == [] {
      assert run + more == more;
      ReadsStep(run, "");
      assert s[0..] == s;
    } else {
      var t := run[0];
      var rest := s[|t.Text()|..];
      assert (run + more)[1..] == run[1..] + more;
      ReadsCut(run[1..], more, rest);
      var inner := TextOf(run[1..]);
      CutStep(t, inner, rest, more, s);
      ReadsStep(run, TextOf(run));
      assert TextOf(run)[|t.Text()|..] == inner;
    }
  }

  lemma CutStep(t: Token, inner: string, rest: string, more: seq<Token>, s: string)
    requires t.Text() <= s && rest == s[|t.Text()|..] && Valid(t, rest)
    requires inner <= rest && Reads(more, rest[|inner|..]) && (more == [] || more[0] == Semi)
    ensures Valid(t, inner)
    ensures t.Text() + inner <= s && rest[|inner|..] == s[|t.Text() + inner|..]
  {
    hide Valid, Reads;
    var tail := rest[|inner|..];
    ReadsStep(more, tail);
    TextCut(t.Text(), inner, rest, s);
    ValidCut(t, inner, tail);
  }

  lemma TextCut(text: string, inner: string, rest: string, s: string)
    requires text <= s && rest == s[|text|..] && inner <= rest
    ensures text + inner <= s && rest[|inner|..] == s[|text + inner|..] && rest == inner + rest[|inner|..]
  {
    assert s == text + inner + rest[|inner|..];
  }

  lemma {:induction false} ReadsExtend(a: seq<Token>, s: string, b: seq<Token>, u: string)
    requires Reads(a, s) && Reads(b, u) && b != [] && b[0] == Semi
    requires a != [] ==> Closes(a[|a| - 1])
    ensures Reads(a + b, s + u)
  {
    hide Valid, Closes, Reads;
    ReadsStep(a, s);
    if a == [] {
      assert a + b == b && s + u == u;
    } else {
      var t := a[0];
      var rest := s[|t.Text()|..];
      ReadsExtend(a[1..], rest, b, u);
      ReadsStep(b, u);
      assert u[0] == ';';
      if rest == "" { ReadsNothing(a[1..]); }
      ValidExtend(t, rest, u);
      assert (a + b)[1..] == a[1..] + b;
      assert (s + u)[|t.Text()|..] == rest + u;
      ReadsStep(a + b, s + u);
    }
  }

  lemma ReadsNothing(toks: seq<Token>)
    requires Reads(toks, "")
    ensures toks == []
  {
    if toks != [] { TextNotEmpty(toks[0], ""[|toks[0].Text()|..]); }
  }

  // ---------- What is discarded ----------

  predicate Noise(t: Token) {
    t.Comment? || (t.Plain? && IsSpace(t.c))
  }

  ghost predicate AllNoise(toks: seq<Token>) {
    forall i :: 0 <= i < |toks| ==> Noise(toks[i])
  }

  /** A text of comments and white space only, read from the left. */
  predicate Blank(s: string) {
    s == "" ||
    if StartsComment(s) then Blank(s[NewlineAt(s)..]) else IsSpace(s[0]) && Blank(s[1..])
  }

  lemma AllSpaceCons(c: char, s: string)
    ensures AllSpace([c] + s) <==> IsSpace(c) && AllSpace(s)
  {
    hide IsSpace;
    assert ([c] + s)[0] == c;
    assert forall i :: 0 <= i < |s| ==> ([c] + s)[i + 1] == s[i];
  }

  lemma {:induction false} BlankIffDropped(s: string)
    ensures Blank(s) <==> AllSpace(DropComments(s))
  {
    if s != "" {
      if StartsComment(s) {
        BlankIffDropped(s[NewlineAt(s)..]);
      } else {
        BlankIffDropped(s[1..]);
        var d := DropComments(s[1..]);
        assert DropComments(s) == [s[0]] + d;
        AllSpaceCons(s[0], d);
      }
    }
  }

  lemma {:induction false} BlankPrefix(s: string, k: nat)
    requires k <= |s| && AllSpace(s[..k])
    ensures Blank(s) <==> Blank(s[k..])
  {
    if k > 0 {
      assert s[..k][0] == s[0];
      assert s[1..][..k - 1] == s[..k][1..];
      BlankPrefix(s[1..], k - 1);
      assert s[1..][k - 1..] == s[k..];
    }
  }

  lemma {:induction false} BlankSpaces(s: string)
    requires AllSpace(s)
    ensures Blank(s)
  {
    if s != "" { BlankSpaces(s[1..]); }
  }

  lemma {:induction false} NewlineConcat(s: string, u: string)
    ensures NewlineAt(s + u) == if NewlineAt(s) < |s| then NewlineAt(s) else |s| + NewlineAt(u)
  {
    if s == "" {
      assert s + u == u;
    } else if s[0] != '\n' {
      assert (s + u)[1..] == s[1..] + u;
      NewlineConcat(s[1..], u);
    }
  }

  lemma BlankComment(s: string, k: nat)
    requires StartsComment(s) && NewlineAt(s) == k
    ensures Blank(s) <==> Blank(s[k..])
  {}

  lemma BlankPlain(s: string)
    requires s != "" && !StartsComment(s)
    ensures Blank(s) <==> IsSpace(s[0]) && Blank(s[1..])
  {}

  lemma SuffixComment(s: string, u: string)
    requires StartsComment(s) && AllSpace(u)
    requires NewlineAt(s) < |s| ==> (Blank(s[NewlineAt(s)..] + u) <==> Blank(s[NewlineAt(s)..]))
    ensures Blank(s + u) <==> Blank(s)
  {
    hide Blank, NewlineAt, IsSpace;
    NewlineConcat(s, u);
    var k := NewlineAt(s);
    BlankComment(s, k);
    if k < |s| {
      assert (s + u)[k..] == s[k..] + u;
      BlankComment(s + u, k);
    } else {
      var m := NewlineAt(u);
      assert (s + u)[|s| + m..] == u[m..];
      BlankComment(s + u, |s| + m);
      BlankSpaces(u[m..]);
      BlankSpaces(s[k..]);
    }
  }

  lemma SuffixPlain(s: string, u: string)
    requires s != "" && !StartsComment(s) && AllSpace(u) && (Blank(s[1..] + u) <==> Blank(s[1..]))
    ensures Blank(s + u) <==> Blank(s)
  {
    hide Blank;
    assert (s + u)[1..] == s[1..] + u;
    assert u != "" ==> IsSpace(u[0]) && u[0] != '-';
    BlankPlain(s);
    BlankPlain(s + u);
  }

  lemma {:induction false} BlankSuffix(s: string, u: string)
    requires AllSpace(u)
    ensures Blank(s + u) <==> Blank(s)
  {
    hide Blank, NewlineAt, AllSpace, StartsComment;
    if s == "" {
      assert s + u == u;
      BlankSpaces(u);
      BlankNothing();
    } else if StartsComment(s) {
      if NewlineAt(s) < |s| {
        CommentAdvances(s);
        BlankSuffix(s[NewlineAt(s)..], u);
      }
      SuffixComment(s, u);
    } else {
      BlankSuffix(s[1..], u);
      SuffixPlain(s, u);
    }
  }

  lemma BlankNothing()
    ensures Blank("")
  {}

  lemma CommentAdvances(s: string)
    requires StartsComment(s)
    ensures NewlineAt(s) > 0
  {}

  lemma BlankRight(t: string)
    ensures Blank(RStrip(t)) <==> Blank(t)
  {
    hide Blank, RStrip, AllSpace, IsSpace;
    var r := RStrip(t);
    assert t == r + t[|r|..];
    BlankSuffix(r, t[|r|..]);
  }

  lemma BlankStrip(s: string)
    ensures Blank(Strip(s)) <==> Blank(s)
  {
    hide Blank, Strip, LStrip, RStrip, AllSpace, IsSpace;
    StripParts(s);
    var t := LStrip(s);
    BlankPrefix(s, |s| - |t|);
    BlankRight(t);
  }

  lemma {:induction false} BlankIffNoise(toks: seq<Token>, s: string)
    requires Reads(toks, s)
    ensures Blank(s) <==> AllNoise(toks)
  {
    if toks != [] {
      var t := toks[0];
      var rest := s[|t.Text()|..];
      BlankIffNoise(toks[1..], rest);
      BlankHead(t, s, rest);
      assert AllNoise(toks) <==> Noise(t) && AllNoise(toks[1..]) by {
        assert forall i :: 0 <= i < |toks| - 1 ==> toks[1..][i] == toks[i + 1];
      }
    }
  }

  lemma BlankHead(t: Token, s: string, rest: string)
    requires s == t.Text() + rest && Valid(t, rest)
    ensures Blank(s) <==> Noise(t) && Blank(rest)
  {
    hide Blank, NewlineAt, ClosedDollar, OpenDollar, Escaped, StartsTag;
    match t
    case Comment(x) =>
      NewlineAtEnd(x, rest);
      BlankComment(s, |x|);
      assert s[|x|..] == rest;
    case Plain(c) =>
      assert s[1..] == rest;
      BlankPlain(s);
    case Quoted(x) =>
      assert s[0] == '\'';
      BlankPlain(s);
    case Dollar(x) =>
      DollarStart(x, rest);
      BlankPlain(s);
    case Semi =>
      BlankPlain(s);
  }

  lemma DollarStart(x: string, rest: string)
    requires Valid(Dollar(x), rest)
    ensures x != "" && x[0] == '$'
  {
    hide OccursAt;
    if tag: string :| ClosedDollar(tag, x) {
      assert x[0] == tag[0];
    } else {
      var tag: string :| OpenDollar(tag, x);
      assert x[0] == tag[0];
    }
  }

  /** A piece is kept exactly when its reading holds something besides comments and white space. */
  lemma KeptIff(piece: string, toks: seq<Token>)
    requires Reads(toks, piece)
    ensures Kept(piece) <==> !AllNoise(toks)
  {
    hide Strip, Blank, DropComments, Reads, AllNoise;
    var d := DropComments(Strip(piece));
    StripEmpty(d);
    BlankIffDropped(Strip(piece));
    BlankStrip(piece);
    BlankIffNoise(toks, piece);
  }

  /** The token runs between the semicolons, the first one continuing `run`. */
  function Runs(run: seq<Token>, toks: seq<Token>): seq<seq<Token>>
    decreases toks
  {
    if toks == [] then [run]
    else if toks[0] == Semi then [run] + Runs([], toks[1..])
    else Runs(run + [toks[0]], toks[1..])
  }

  lemma {:induction false} TextConcat(a: seq<Token>, b: seq<Token>)
    ensures TextOf(a + b) == TextOf(a) + TextOf(b)
  {
    hide TextOf;
    TextStep(a);
    if a == [] {
      assert a + b == b;
    } else {
      TextConcat(a[1..], b);
      TextStep(a + b);
      assert (a + b)[1..] == a[1..] + b;
    }
  }

  lemma {:induction false} RunsOf(run: seq<Token>, toks: seq<Token>, s: string, i: nat)
    requires Reads(run + toks, s) && i < |Runs(run, toks)|
    ensures |PiecesFrom(TextOf(run), toks)| == |Runs(run, toks)|
    ensures PiecesFrom(TextOf(run), toks)[i] == TextOf(Runs(run, toks)[i])
    ensures Reads(Runs(run, toks)[i], TextOf(Runs(run, toks)[i]))
    decreases toks
  {
    hide Reads;
    if toks == [] {
      assert run + toks == run + [];
      ReadsCut(run, [], s);
    } else if toks[0] == Semi {
      ReadsCut(run, toks, s);
      ReadsTail(toks, s[|TextOf(run)|..]);
      assert [] + toks[1..] == toks[1..];
      RunsNotEmpty([], toks[1..]);
      assert TextOf([]) == "";
      RunsOf([], toks[1..], s[|TextOf(run)|..][1..], if i == 0 then 0 else i - 1);
    } else {
      assert (run + [toks[0]]) + toks[1..] == run + toks;
      TextConcat(run, [toks[0]]);
      assert TextOf([toks[0]]) == toks[0].Text() + "" == toks[0].Text();
      RunsOf(run + [toks[0]], toks[1..], s, i);
    }
  }

  lemma ReadsTail(toks: seq<Token>, s: string)
    requires Reads(toks, s) && toks != []
    ensures |toks[0].Text()| <= |s| && Reads(toks[1..], s[|toks[0].Text()|..])
  {}

  /** Raw piece i is the text of the i-th run of elements between semicolons, and it is discarded
      exactly when that run is comments and white space. */
  lemma DiscardsExactly(sql: string, toks: seq<Token>, i: nat)
    requires Reads(toks, sql) && i < |RawPieces(sql)|
    ensures |Runs([], toks)| == |RawPieces(sql)|
    ensures RawPieces(sql)[i] == TextOf(Runs([], toks)[i])
    ensures Kept(RawPieces(sql)[i]) <==> !AllNoise(Runs([], toks)[i])
  {
    hide Reads, Kept, AllNoise, Lex;
    ReadingUnique(toks, sql);
    assert [] + toks == toks;
    RunsNotEmpty([], toks);
    RunsOf([], toks, sql, 0);
    RunsOf([], toks, sql, i);
    KeptIff(RawPieces(sql)[i], Runs([], toks)[i]);
  }

  lemma {:induction false} RunsNotEmpty(run: seq<Token>, toks: seq<Token>)
    ensures |Runs(run, toks)| > 0
    decreases toks
  {
    if toks != [] && toks[0] != Semi { RunsNotEmpty(run + [toks[0]], toks[1..]); }
  }

  // ---------- Splitting a join ----------

  /** One statement or comment block that ends outside every comment and string. */
  ghost predicate Closed(s: string) {
    var toks := Lex(s);
    Semi !in toks && (toks != [] ==> Closes(toks[|toks| - 1]))
  }

  lemma {:induction false} PiecesOfRun(buf: string, run: seq<Token>, more: seq<Token>)
    requires Semi !in run
    ensures PiecesFrom(buf, run + more) == PiecesFrom(buf + TextOf(run), more)
    decreases run
  {
    if run == [] {
      assert run + more == more && buf + "" == buf;
    } else {
      assert (run + more)[1..] == run[1..] + more;
      PiecesOfRun(buf + run[0].Text(), run[1..], more);
      assert buf + run[0].Text() + TextOf(run[1..]) == buf + TextOf(run);
    }
  }

  lemma SplitHead(s: string, u: string)
    requires Closed(s)
    ensures RawPieces(s + ";" + u) == [s] + RawPieces(u)
  {
    hide Reads, Lex, Closes;
    var a, b := Lex(s), [Semi] + Lex(u);
    LexReads(s);
    LexReads(u);
    ReadsSemi(Lex(u), u);
    ReadsExtend(a, s, b, ";" + u);
    assert s + ";" + u == s + (";" + u);
    ReadingUnique(a + b, s + ";" + u);
    PiecesOfRun("", a, b);
    ReadsText(a, s);
    assert "" + s == s;
    assert b[1..] == Lex(u);
  }

  lemma ReadsSemi(toks: seq<Token>, u: string)
    requires Reads(toks, u)
    ensures Reads([Semi] + toks, ";" + u)
  {
    assert (";" + u)[1..] == u;
    assert ([Semi] + toks)[1..] == toks;
  }

  lemma {:induction false} SplitOfClosed(parts: seq<string>)
    requires parts != [] && Semi !in Lex(parts[|parts| - 1])
    requires forall i :: 0 <= i < |parts| - 1 ==> Closed(parts[i])
    ensures RawPieces(Join(parts)) == parts
  {
    hide Closed, Lex;
    if |parts| == 1 {
      LexReads(parts[0]);
      ReadsText(Lex(parts[0]), parts[0]);
      PiecesOfRun("", Lex(parts[0]), []);
      assert Lex(parts[0]) + [] == Lex(parts[0]) && "" + parts[0] == parts[0];
    } else {
      SplitOfClosed(parts[1..]);
      SplitHead(parts[0], Join(parts[1..]));
    }
  }

  /** Before a semicolon stands an element that is closed. */
  lemma {:induction false} ClosesBeforeSemi(run: seq<Token>, more: seq<Token>, s: string)
    requires Reads(run + more, s) && run != [] && more != [] && more[0] == Semi
    ensures Closes(run[|run| - 1])
    decreases run
  {
    hide Reads, ClosedQuote, OpenQuote, ClosedDollar, OpenDollar, StartsTag;
    ReadsStep(run + more, s);
    assert (run + more)[0] == run[0] && (run + more)[1..] == run[1..] + more;
    var rest := s[|run[0].Text()|..];
    if |run| == 1 {
      assert run[1..] + more == more;
      ReadsStep(more, rest);
      assert rest[0] == ';';
    } else {
      ClosesBeforeSemi(run[1..], more, rest);
    }
  }

  /** No run holds a semicolon, and all but the last are closed. */
  lemma {:induction false} RunsClosed(run: seq<Token>, toks: seq<Token>, s: string, i: nat)
    requires Reads(run + toks, s) && Semi !in run && i < |Runs(run, toks)|
    ensures Semi !in Runs(run, toks)[i]
    ensures i < |Runs(run, toks)| - 1 && Runs(run, toks)[i] != [] ==>
              Closes(Runs(run, toks)[i][|Runs(run, toks)[i]| - 1])
    decreases toks
  {
    hide Reads, Closes;
    if toks == [] {
    } else if toks[0] == Semi {
      if i == 0 {
        if run != [] { ClosesBeforeSemi(run, toks, s); }
      } else {
        ReadsCut(run, toks, s);
        ReadsTail(toks, s[|TextOf(run)|..]);
        assert [] + toks[1..] == toks[1..];
        RunsClosed([], toks[1..], s[|TextOf(run)|..][1..], i - 1);
      }
    } else {
      assert (run + [toks[0]]) + toks[1..] == run + toks;
      RunsClosed(run + [toks[0]], toks[1..], s, i);
    }
  }

  /** Every piece the splitter makes is without a separator of its own, and all but the last are closed. */
  lemma PiecesClosed(sql: string, i: nat)
    requires i < |RawPieces(sql)|
    ensures Semi !in Lex(RawPieces(sql)[i])
    ensures i < |RawPieces(sql)| - 1 ==> Closed(RawPieces(sql)[i])
  {
    hide Reads, Lex, Closes, Runs, PiecesFrom, RawPieces, TextOf, Kept, AllNoise;
    var toks := Lex(sql);
    LexReads(sql);
    assert [] + toks == toks;
    DiscardsExactly(sql, toks, i);
    RunsClosed([], toks, sql, i);
    RunsOf([], toks, sql, i);
    ReadingUnique(Runs([], toks)[i], RawPieces(sql)[i]);
  }

  /** Splitting the ';'-join of any parts returns the parts exactly when none holds a semicolon that
      the splitter takes for a separator and all but the last end outside every form it knows. */
  lemma SplitOfJoin(parts: seq<string>)
    requires parts != []
    ensures RawPieces(Join(parts)) == parts <==>
            Semi !in Lex(parts[|parts| - 1]) && forall i :: 0 <= i < |parts| - 1 ==> Closed(parts[i])
  {
    hide Closed, Lex, RawPieces, Join;
    if RawPieces(Join(parts)) == parts {
      forall i | 0 <= i < |parts| ensures Semi !in Lex(parts[i]) && (i < |parts| - 1 ==> Closed(parts[i])) {
        PiecesClosed(Join(parts), i);
      }
    } else if Semi !in Lex(parts[|parts| - 1]) && forall i :: 0 <= i < |parts| - 1 ==> Closed(parts[i]) {
      SplitOfClosed(parts);
    }
  }

  /** A statement as a script author writes one: trimmed, and more than a comment. */
  ghost predicate Statement(s: string) {
    Strip(s) == s && !AllNoise(Lex(s))
  }

  lemma {:induction false} StatementsKept(stmts: seq<string>)
    requires forall i :: 0 <= i < |stmts| ==> Statement(stmts[i])
    ensures KeptPieces(stmts) == stmts
    ensures KeptPieces(stmts + [""]) == stmts
  {
    hide AllNoise, Lex, Kept, Strip;
    if stmts == [] {
      assert stmts + [""] == [""];
      BlankNotKept();
    } else {
      LexReads(stmts[0]);
      KeptIff(stmts[0], Lex(stmts[0]));
      StatementsKept(stmts[1..]);
      assert (stmts + [""])[1..] == stmts[1..] + [""];
    }
  }

  lemma BlankNotKept()
    ensures !Kept("")
  {}

  // ---------- Only closed statements come back ----------

  function Size(pieces: seq<string>): nat {
    if pieces == [] then 0 else |pieces[0]| + 1 + Size(pieces[1..])
  }

  lemma {:induction false} JoinSize(pieces: seq<string>)
    requires pieces != []
    ensures |Join(pieces)| + 1 == Size(pieces)
  {
    if |pieces| > 1 { JoinSize(pieces[1..]); }
  }

  /** Trimming and discarding only make texts shorter, unless they change nothing. */
  lemma {:induction false} KeptSize(pieces: seq<string>)
    ensures Size(KeptPieces(pieces)) <= Size(pieces)
    ensures Size(KeptPieces(pieces)) == Size(pieces) ==> KeptPieces(pieces) == pieces
  {
    hide Kept, Strip, KeptPieces, Size;
    KeptNone();
    SizeStep(pieces);
    if pieces != [] {
      var before, after := StripForm(pieces[0]);
      KeptPiecesStep(pieces);
      KeptSize(pieces[1..]);
      if Kept(pieces[0]) {
        SizeStep(KeptPieces(pieces));
        assert KeptPieces(pieces)[1..] == KeptPieces(pieces[1..]);
        assert |Strip(pieces[0])| == |pieces[0]| ==> Strip(pieces[0]) == pieces[0];
      }
    }
  }

  lemma SizeStep(pieces: seq<string>)
    ensures Size(pieces) == if pieces == [] then 0 else |pieces[0]| + 1 + Size(pieces[1..])
  {}

  lemma KeptPiecesStep(pieces: seq<string>)
    requires pieces != []
    ensures Kept(pieces[0]) ==> KeptPieces(pieces) == [Strip(pieces[0])] + KeptPieces(pieces[1..])
    ensures !Kept(pieces[0]) ==> KeptPieces(pieces) == KeptPieces(pieces[1..])
  {}

  lemma StripForm(p: string) returns (before: string, after: string)
    ensures AllSpace(before) && AllSpace(after) && p == before + Strip(p) + after
    ensures Kept(p) ==> Strip(p) != ""
  {
    hide Strip, Kept, AllSpace, IsSpace;
    before, after := StripMeans(p);
    KeptStrips(p);
  }

  lemma KeptStrips(p: string)
    ensures Kept(p) ==> Strip(p) != ""
  {}

  lemma {:induction false} PlainSpaces(before: string, s: string)
    requires AllSpace(before) && s != "" && s[0] == ';'
    ensures Semi in Lex(before + s)
  {
    if before == "" {
      assert before + s == s;
      assert First(s) == Semi;
    } else {
      assert (before + s)[1..] == before[1..] + s;
      assert First(before + s) == Plain(before[0]);
      PlainSpaces(before[1..], s);
      assert Lex(before + s)[1..] == Lex(before[1..] + s);
    }
  }

  /** What is kept of pieces without separators starts with neither white space nor a semicolon. */
  lemma {:induction false} KeptStarts(pieces: seq<string>, i: nat)
    requires forall j :: 0 <= j < |pieces| ==> Semi !in Lex(pieces[j])
    requires i < |KeptPieces(pieces)|
    ensures var t := KeptPieces(pieces)[i]; t != "" && t[0] != ';' && !IsSpace(t[0])
    decreases |pieces|
  {
    hide Kept, Lex, KeptPieces, IsSpace, Strip, AllSpace;
    KeptNone();
    KeptPiecesStep(pieces);
    var p := pieces[0];
    var before, after := StripForm(p);
    if !Kept(p) {
      KeptStarts(pieces[1..], i);
    } else if i > 0 {
      KeptStarts(pieces[1..], i - 1);
    } else if Strip(p)[0] == ';' {
      assert p == before + (Strip(p) + after);
      PlainSpaces(before, Strip(p) + after);
    }
  }

  lemma KeptNone()
    ensures KeptPieces([]) == []
  {}

  lemma JoinStep(pieces: seq<string>)
    requires pieces != []
    ensures Join(pieces) == if |pieces| == 1 then pieces[0] else pieces[0] + ";" + Join(pieces[1..])
  {}

  lemma JoinStart(pieces: seq<string>)
    requires pieces != []
    ensures pieces[0] != "" ==> Join(pieces) != "" && Join(pieces)[0] == pieces[0][0]
    ensures pieces[0] == "" && |pieces| > 1 ==> Join(pieces) != "" && Join(pieces)[0] == ';'
  {}

  lemma JoinEnded(stmts: seq<string>)
    ensures Join(stmts + [""]) == if stmts == [] then "" else stmts[0] + ";" + Join(stmts[1..] + [""])
  {
    if stmts != [] { assert (stmts + [""])[1..] == stmts[1..] + [""]; }
  }

  /** A first piece that is kept is the first statement, to the letter. */
  lemma FirstKept(p: string, stmt: string, more: string, text: string)
    requires stmt != "" && !IsSpace(stmt[0]) && stmt == Strip(p)
    requires p <= text && text == stmt + ";" + more
    ensures p == stmt
  {
    hide IsSpace;
    var before, after := StripForm(p);
    NotSpace();
    assert |before| == 0;
    if after != "" { CharBehind(stmt, after, text); }
  }

  lemma CharBehind(stmt: string, after: string, text: string)
    requires after != "" && stmt + after <= text
    ensures text[|stmt|] == after[0]
  {
    assert (stmt + after)[|stmt|] == after[0];
  }

  lemma NotSpace()
    ensures !IsSpace(';')
  {}

  /** If the kept pieces are the statements that the text ends each with a semicolon, the pieces are
      these statements and the nothing behind the last semicolon. */
  lemma {:induction false} EndedPieces(pieces: seq<string>, stmts: seq<string>)
    requires pieces != [] && KeptPieces(pieces) == stmts && Join(pieces) == Join(stmts + [""])
    requires forall i :: 0 <= i < |stmts| ==> stmts[i] != "" && stmts[i][0] != ';' && !IsSpace(stmts[i][0])
    ensures pieces == stmts + [""]
    decreases |pieces|
  {
    hide Kept, KeptPieces, IsSpace, Join, Strip;
    KeptPiecesStep(pieces);
    KeptNone();
    JoinStep(pieces);
    JoinEnded(stmts);
    if !Kept(pieces[0]) {
      SkippedFirst(pieces, stmts);
    } else {
      FirstKept(pieces[0], stmts[0], Join(stmts[1..] + [""]), Join(pieces));
      assert |pieces| > 1;
      assert Join(pieces)[|stmts[0]| + 1..] == Join(pieces[1..]);
      assert Join(pieces)[|stmts[0]| + 1..] == Join(stmts[1..] + [""]);
      EndedPieces(pieces[1..], stmts[1..]);
    }
  }

  lemma SkippedFirst(pieces: seq<string>, stmts: seq<string>)
    requires pieces != [] && KeptPieces(pieces) == KeptPieces(pieces[1..]) == stmts
    requires Join(pieces) == Join(stmts + [""])
    requires stmts != [] ==> stmts[0] != "" && stmts[0][0] != ';'
    ensures pieces == stmts + [""]
  {
    hide KeptPieces, Join, Size;
    KeptNone();
    JoinStep(pieces);
    JoinEnded(stmts);
    if |pieces| == 1 {
      assert pieces[1..] == [] && pieces == [pieces[0]];
    } else {
      SizeStep(pieces);
      JoinSize(pieces);
      JoinSize(stmts + [""]);
      SizeEnded(stmts);
      KeptSize(pieces[1..]);
      JoinStart(stmts + [""]);
      JoinStart(pieces);
    }
  }

  lemma {:induction false} SizeEnded(stmts: seq<string>)
    ensures Size(stmts + [""]) == Size(stmts) + 1
  {
    if stmts != [] {
      assert (stmts + [""])[1..] == stmts[1..] + [""];
      SizeEnded(stmts[1..]);
    }
  }

  lemma WithoutEnd(stmts: seq<string>)
    requires stmts != [] && KeptPieces(RawPieces(Join(stmts))) == stmts
    ensures RawPieces(Join(stmts)) == stmts
  {
    hide KeptPieces, RawPieces, Join, Size;
    var pieces := RawPieces(Join(stmts));
    Lossless(Join(stmts));
    PiecesExist(Join(stmts));
    JoinSize(stmts);
    JoinSize(pieces);
    KeptSize(pieces);
  }

  lemma PiecesExist(sql: string)
    ensures RawPieces(sql) != []
  {
    JoinPieces("", Lex(sql));
  }

  lemma WithEnd(stmts: seq<string>)
    requires KeptPieces(RawPieces(Join(stmts + [""]))) == stmts
    ensures RawPieces(Join(stmts + [""])) == stmts + [""]
  {
    hide KeptPieces, RawPieces, Join, Lex, IsSpace, Closed;
    var text := Join(stmts + [""]);
    var pieces := RawPieces(text);
    Lossless(text);
    PiecesExist(text);
    forall j | 0 <= j < |pieces| ensures Semi !in Lex(pieces[j]) { PiecesClosed(text, j); }
    forall i | 0 <= i < |stmts| ensures stmts[i] != "" && stmts[i][0] != ';' && !IsSpace(stmts[i][0]) {
      KeptStarts(pieces, i);
    }
    EndedPieces(pieces, stmts);
  }

  /** The script made of any statements is split back into exactly those statements if and only if
      each is closed as the splitter reads it; without a final semicolon the last need only be free
      of separators. */
  lemma RoundTrip(stmts: seq<string>)
    requires stmts != [] && forall i :: 0 <= i < |stmts| ==> Statement(stmts[i])
    ensures KeptPieces(RawPieces(Join(stmts))) == stmts <==>
            Semi !in Lex(stmts[|stmts| - 1]) && forall i :: 0 <= i < |stmts| - 1 ==> Closed(stmts[i])
    ensures KeptPieces(RawPieces(Join(stmts + [""]))) == stmts <==>
            forall i :: 0 <= i < |stmts| ==> Closed(stmts[i])
  {
    hide Join, RawPieces, KeptPieces, Lex, AllNoise, Strip, Closed;
    NothingToCut();
    SplitOfJoin(stmts);
    SplitOfJoin(stmts + [""]);
    StatementsKept(stmts);
    if KeptPieces(RawPieces(Join(stmts))) == stmts { WithoutEnd(stmts); }
    if KeptPieces(RawPieces(Join(stmts + [""]))) == stmts { WithEnd(stmts); }
    assert forall i :: 0 <= i < |stmts| ==> (stmts + [""])[i] == stmts[i];
  }

  lemma NothingToCut()
    ensures Semi !in Lex("")
  {}
}
