/** `_statements` of was/app/rebalance.py: the migration script is cut into statements at its
    semicolons, because sending several statements at once would make them one transaction. */
module SqlSplitter {
  import opened PyText

  datatype Token =
    | Comment(text: string)
    | Quoted(text: string)
    | Dollar(text: string)
    | Semi
    | Plain(c: char)
  {
    function Text(): string {
      match this
      case Comment(t) => t
      case Quoted(t) => t
      case Dollar(t) => t
      case Semi => ";"
      case Plain(c) => [c]
    }
  }

  // ---------- Scanning ----------

  predicate StartsComment(s: string) {
    |s| >= 2 && s[0] == '-' && s[1] == '-'
  }

  /** `find("\n")`, or the length of the text. */
  function NewlineAt(s: string): (k: nat)
    ensures k <= |s| && '\n' !in s[..k] && (k < |s| ==> s[k] == '\n')
  {
    if s == "" || s[0] == '\n' then 0 else 1 + NewlineAt(s[1..])
  }

  /** How much of `s`, the text after an opening quote, belongs to the quoted string. */
  function QuoteTail(s: string): (k: nat)
    ensures k <= |s|
  {
    if s == "" then 0
    else if s[0] != '\'' then 1 + QuoteTail(s[1..])
    else if |s| >= 2 && s[1] == '\'' then 2 + QuoteTail(s[2..])
    else 1
  }

  predicate IsTagLetter(c: char) {
    'A' <= c <= 'Z' || 'a' <= c <= 'z' || c == '_'
  }

  function Letters(s: string): (k: nat)
    ensures k <= |s| && (forall i :: 0 <= i < k ==> IsTagLetter(s[i])) && (k < |s| ==> !IsTagLetter(s[k]))
  {
    if s == "" || !IsTagLetter(s[0]) then 0 else 1 + Letters(s[1..])
  }

  /** The length of a match of \$[A-Za-z_]*\$ at the start of `s`, 0 when there is none. */
  function TagLen(s: string): (k: nat)
    ensures k <= |s|
  {
    if s == "" || s[0] != '$' then 0
    else
      var k := Letters(s[1..]);
      if 1 + k < |s| && s[1 + k] == '$' then k + 2 else 0
  }

  predicate OccursAt(tag: string, s: string, k: nat) {
    k + |tag| <= |s| && s[k..k + |tag|] == tag
  }

  /** `find(tag, k)`, or the length of the text. */
  function FindFrom(tag: string, s: string, k: nat): (j: nat)
    requires k <= |s|
    ensures k <= j <= |s|
    ensures j < |s| ==> OccursAt(tag, s, j)
    ensures forall i :: k <= i < j ==> !OccursAt(tag, s, i)
    decreases |s| - k
  {
    if k == |s| || OccursAt(tag, s, k) then k else FindFrom(tag, s, k + 1)
  }

  function DollarLen(s: string): (n: nat)
    requires TagLen(s) > 0
    ensures TagLen(s) <= n <= |s|
  {
    var tag := s[..TagLen(s)];
    var j := FindFrom(tag, s, |tag|);
    if j == |s| then |s| else j + |tag|
  }

  function First(s: string): (t: Token)
    requires s != ""
    ensures t.Text() != "" && t.Text() <= s
  {
    if StartsComment(s) then Comment(s[..NewlineAt(s)])
    else if s[0] == '\'' then Quoted(s[..1 + QuoteTail(s[1..])])
    else if TagLen(s) > 0 then Dollar(s[..DollarLen(s)])
    else if s[0] == ';' then Semi
    else Plain(s[0])
  }

  function Lex(s: string): seq<Token> {
    if s == "" then [] else [First(s)] + Lex(s[|First(s).Text()|..])
  }

  function TextOf(toks: seq<Token>): string {
    if toks == [] then "" else toks[0].Text() + TextOf(toks[1..])
  }

  /** The text between the semicolons, the first piece continuing `buf`. */
  function PiecesFrom(buf: string, toks: seq<Token>): seq<string>
    decreases toks
  {
    if toks == [] then [buf]
    else if toks[0] == Semi then [buf] + PiecesFrom("", toks[1..])
    else PiecesFrom(buf + toks[0].Text(), toks[1..])
  }

  function RawPieces(sql: string): seq<string> {
    PiecesFrom("", Lex(sql))
  }

  /** `re.sub(r"--[^\n]*", "", s)` */
  function DropComments(s: string): string {
    if s == "" then ""
    else if StartsComment(s) then DropComments(s[NewlineAt(s)..])
    else [s[0]] + DropComments(s[1..])
  }

  predicate Kept(piece: string) {
    Strip(DropComments(Strip(piece))) != ""
  }

  function KeptPiece(piece: string): seq<string> {
    if Kept(piece) then [Strip(piece)] else []
  }

  function KeptPieces(pieces: seq<string>): seq<string>
    decreases |pieces|
  {
    if pieces == [] then [] else KeptPiece(pieces[0]) + KeptPieces(pieces[1..])
  }

  // ---------- The loop ----------

  function Rest(s: string, i: nat): string {
    if i <= |s| then s[i..] else ""
  }

  lemma PiecesStep(buf: string, s: string)
    requires s != ""
    ensures PiecesFrom(buf, Lex(s)) ==
            var t := First(s);
            var rest := Lex(s[|t.Text()|..]);
            if t == Semi then [buf] + PiecesFrom("", rest) else PiecesFrom(buf + t.Text(), rest)
  {
    hide First;
    var rest := Lex(s[|First(s).Text()|..]);
    assert Lex(s)[1..] == rest;
  }

  /** The inner loop: the index just after the quoted string that opens at `i`. */
  method SkipQuoted(sql: string, i: nat) returns (j: nat)
    requires i < |sql| && sql[i] == '\''
    ensures i < j <= |sql| && (if j < |sql| then j + 1 else |sql|) == i + 1 + QuoteTail(sql[i + 1..])
  {
    hide QuoteTail;
    j := i + 1;
    while j < |sql|
      invariant i + 1 <= j <= |sql|
      invariant j + QuoteTail(sql[j..]) == i + 1 + QuoteTail(sql[i + 1..])
    {
      QuoteTailAt(sql, j);
      if sql[j] == '\'' {
        if j + 1 < |sql| && sql[j + 1] == '\'' {
          j := j + 2;
          continue;
        }
        break;
      }
      j := j + 1;
    }
    QuoteTailAt(sql, j);
  }

  lemma QuoteTailAt(sql: string, j: nat)
    requires j <= |sql|
    ensures QuoteTail(sql[j..]) ==
            if j == |sql| then 0
            else if sql[j] != '\'' then 1 + QuoteTail(sql[j + 1..])
            else if j + 1 < |sql| && sql[j + 1] == '\'' then 2 + QuoteTail(sql[j + 2..])
            else 1
  {
    if j < |sql| { assert sql[j..][1..] == sql[j + 1..]; }
    if j + 1 < |sql| { assert sql[j..][2..] == sql[j + 2..]; }
  }

  /** What one round of the loop appends and where it goes on, in the terms of the first token. */
  ghost predicate Consumes(sql: string, i: nat, t: Token, text: string, next: nat) {
    i < next && i < |sql| && t == First(sql[i..]) && text == t.Text() && Rest(sql, next) == sql[i..][|text|..]
  }

  lemma ConsumesComment(sql: string, i: nat)
    requires i < |sql| && StartsComment(sql[i..])
    ensures var j := i + NewlineAt(sql[i..]);
            i < j <= |sql| && Consumes(sql, i, Comment(sql[i..j]), sql[i..j], j)
  {
    var j := i + NewlineAt(sql[i..]);
    assert sql[i..][..j - i] == sql[i..j] && sql[i..][j - i..] == sql[j..];
  }

  lemma ConsumesQuoted(sql: string, i: nat, j: nat)
    requires i < |sql| && sql[i] == '\'' && i < j
    requires (if j < |sql| then j + 1 else |sql|) == i + 1 + QuoteTail(sql[i + 1..])
    ensures var end := if j + 1 < |sql| then j + 1 else |sql|;
            i < end && Consumes(sql, i, Quoted(sql[i..end]), sql[i..end], j + 1)
  {
    var end := if j + 1 < |sql| then j + 1 else |sql|;
    assert !StartsComment(sql[i..]) && sql[i..][1..] == sql[i + 1..];
    assert end == i + 1 + QuoteTail(sql[i + 1..]);
    assert sql[i..][..end - i] == sql[i..end] && sql[i..][end - i..] == sql[end..];
    assert Rest(sql, j + 1) == sql[end..];
  }

  lemma ConsumesDollar(sql: string, i: nat)
    requires i < |sql| && sql[i] == '$' && TagLen(sql[i..]) > 0
    ensures var j := i + DollarLen(sql[i..]);
            i < j <= |sql| && Consumes(sql, i, Dollar(sql[i..j]), sql[i..j], j)
  {
    hide TagLen, DollarLen;
    var j := i + DollarLen(sql[i..]);
    assert sql[i..][..j - i] == sql[i..j] && sql[i..][j - i..] == sql[j..];
  }

  lemma ConsumesOne(sql: string, i: nat)
    requires i < |sql| && !StartsComment(sql[i..]) && sql[i] != '\'' && !(sql[i] == '$' && TagLen(sql[i..]) > 0)
    ensures Consumes(sql, i, if sql[i] == ';' then Semi else Plain(sql[i]), [sql[i]], i + 1)
  {
    assert sql[i..][1..] == sql[i + 1..];
  }

  /** What is cut so far, the piece begun, and the tokens of what is left make up the raw pieces. */
  ghost predicate Progress(sql: string, out: seq<string>, buf: string, i: nat) {
    RawPieces(sql) == out + PiecesFrom(buf, Lex(Rest(sql, i)))
  }

  /** One round of the loop consumes exactly the first token of what is left. */
  lemma Advance(sql: string, i: nat, t: Token, next: nat, out: seq<string>, buf: string)
    requires Progress(sql, out, buf, i) && Consumes(sql, i, t, t.Text(), next)
    ensures if t == Semi then Progress(sql, out + [buf], "", next) else Progress(sql, out, buf + t.Text(), next)
  {
    hide First, Lex, PiecesFrom;
    PiecesStep(buf, sql[i..]);
    assert out + ([buf] + PiecesFrom("", Lex(Rest(sql, next)))) == out + [buf] + PiecesFrom("", Lex(Rest(sql, next)));
  }

  method Statements(sql: string) returns (stmts: seq<string>)
    ensures stmts == KeptPieces(RawPieces(sql))
  {
    hide Consumes, Progress, TagLen, DollarLen, StartsComment, NewlineAt, QuoteTail, KeptPieces, RawPieces;
    var out: seq<string> := [];
    var buf := "";
    var i, n := 0, |sql|;
    NothingYet(sql);
    while i < n
      invariant i <= n + 1 && Progress(sql, out, buf, i)
      decreases n + 1 - i
    {
      if StartsComment(sql[i..]) {
        var j := i + NewlineAt(sql[i..]);
        ConsumesComment(sql, i);
        Advance(sql, i, Comment(sql[i..j]), j, out, buf);
        buf := buf + sql[i..j];
        i := j;
      } else if sql[i] == '\'' {
        var j := SkipQuoted(sql, i);
        var end := if j + 1 < n then j + 1 else n;
        ConsumesQuoted(sql, i, j);
        Advance(sql, i, Quoted(sql[i..end]), j + 1, out, buf);
        buf := buf + sql[i..end];
        i := j + 1;
      } else if sql[i] == '$' && TagLen(sql[i..]) > 0 {
        var j := i + DollarLen(sql[i..]);
        ConsumesDollar(sql, i);
        Advance(sql, i, Dollar(sql[i..j]), j, out, buf);
        buf := buf + sql[i..j];
        i := j;
      } else {
        ConsumesOne(sql, i);
        Advance(sql, i, if sql[i] == ';' then Semi else Plain(sql[i]), i + 1, out, buf);
        if sql[i] == ';' {
          out := out + [buf];
          buf := "";
        } else {
          buf := buf + [sql[i]];
        }
        i := i + 1;
      }
    }
    AllConsumed(sql, out, buf, i);
    out := out + [buf];
    stmts := KeptPieces(out);
  }

  lemma NothingYet(sql: string)
    ensures Progress(sql, [], "", 0)
  {
    assert Rest(sql, 0) == sql;
  }

  lemma AllConsumed(sql: string, out: seq<string>, buf: string, i: nat)
    requires Progress(sql, out, buf, i) && i >= |sql|
    ensures RawPieces(sql) == out + [buf]
  {
    assert Rest(sql, i) == "" && Lex("") == [];
  }
}
