/** `FileTailer` of ftp-daemon/soltrace_daemon.py: polls a growing log file in bounded chunks of
    complete lines, and moves its position only on commit. */
module Tailer {
  import opened Wrappers
  import opened LogEntries

  type Parser = string -> Option<Entry>

  datatype File = File(inode: int, text: string)

  /** The tailer's state file. */
  datatype Saved = Saved(pos: nat, inode: Option<int>)

  const MAX_LINES_PER_POLL: nat := 5000

  // ---------- Lines ----------

  /** The length of the first complete line, newline included; 0 when no line is complete. */
  function NextLine(s: string): (n: nat)
    ensures n <= |s|
  {
    if s == "" then 0
    else if s[0] == '\n' then 1
    else var k := NextLine(s[1..]); if k == 0 then 0 else 1 + k
  }

  lemma {:induction false} NextLineIs(s: string)
    ensures var n := NextLine(s);
            && (n > 0 ==> s[n - 1] == '\n' && forall i :: 0 <= i < n - 1 ==> s[i] != '\n')
            && (n == 0 ==> '\n' !in s)
  {
    if s != "" && s[0] != '\n' {
      NextLineIs(s[1..]);
      var k := NextLine(s[1..]);
      forall i | 1 <= i < |s| && (k == 0 || i < k) ensures s[i] != '\n' {
        assert s[i] == s[1..][i - 1];
      }
    }
  }

  function ParseLine(parser: Parser, line: string): seq<Entry> {
    match parser(line)
    case Some(e) => [e]
    case None => []
  }

  /** The entries of all complete lines of a text, once and in order. */
  function ParseText(parser: Parser, s: string): seq<Entry>
    decreases |s|
  {
    var n := NextLine(s);
    if n == 0 then [] else ParseLine(parser, s[..n]) + ParseText(parser, s[n..])
  }

  /** How far reading at most `max` complete lines goes. */
  function Consumed(s: string, max: nat): (n: nat)
    ensures n <= |s|
    decreases max
  {
    var k := NextLine(s);
    if max == 0 || k == 0 then 0 else k + Consumed(s[k..], max - 1)
  }

  function LineCount(s: string): nat
    decreases |s|
  {
    var n := NextLine(s);
    if n == 0 then 0 else 1 + LineCount(s[n..])
  }

  lemma ConsumedStep(s: string, max: nat)
    ensures var k := NextLine(s);
            Consumed(s, max) == if max == 0 || k == 0 then 0 else k + Consumed(s[k..], max - 1)
  {}

  lemma NothingToRead(parser: Parser)
    ensures ParseText(parser, "") == [] && Consumed("", MAX_LINES_PER_POLL) == 0
  {}

  /** Reading stops just after a newline. */
  lemma {:induction false} ConsumedAtLineEnd(s: string, max: nat)
    ensures Consumed(s, max) > 0 ==> s[Consumed(s, max) - 1] == '\n'
    decreases max
  {
    hide NextLine, Consumed;
    var k := NextLine(s);
    ConsumedStep(s, max);
    if max > 0 && k > 0 {
      NextLineIs(s);
      ConsumedAtLineEnd(s[k..], max - 1);
    }
  }

  lemma CountStep(s: string)
    ensures var k := NextLine(s);
            LineCount(s) == if k == 0 then 0 else 1 + LineCount(s[k..])
  {}

  lemma ParseStep(parser: Parser, s: string)
    ensures var k := NextLine(s);
            ParseText(parser, s) == if k == 0 then [] else ParseLine(parser, s[..k]) + ParseText(parser, s[k..])
  {}

  /** Text without a newline holds no complete line; a complete line in front contributes its own entry,
      if it has one, and leaves the rest to itself. */
  lemma ParseCons(parser: Parser, line: string, rest: string)
    requires '\n' !in line
    ensures ParseText(parser, line) == []
    ensures ParseText(parser, line + "\n" + rest) ==
            match parser(line + "\n") case Some(e) => [e] + ParseText(parser, rest) case None => ParseText(parser, rest)
  {
    hide NextLine, ParseText;
    var s := line + "\n" + rest;
    NextLineIs(line);
    NextLineIs(s);
    ParseStep(parser, line);
    ParseStep(parser, s);
    assert s[|line|] == '\n';
    FirstNewline(s, |line|);
    assert s[..|line| + 1] == line + "\n" && s[|line| + 1..] == rest;
    assert [] + ParseText(parser, rest) == ParseText(parser, rest);
  }

  lemma FirstNewline(s: string, k: nat)
    requires k < |s| && s[k] == '\n' && '\n' !in s[..k]
    ensures NextLine(s) == k + 1
  {
    hide NextLine;
    NextLineIs(s);
    var n := NextLine(s);
    assert n > 0 by { assert s[k] in s; }
    assert forall i :: 0 <= i < k ==> s[..k][i] == s[i];
  }

  // ---------- The class ----------

  class FileTailer {
    const parser: Parser
    var pos: nat
    var inode: Option<int>
    var pending: Option<nat>
    var saved: Option<Saved>

    /** Without a usable state file reading starts at the end of the log. */
    constructor (parser: Parser, saved: Option<Saved>, file: Option<File>)
      ensures this.parser == parser && pending == None && this.saved == saved
      ensures saved.Some? ==> pos == saved.value.pos && inode == saved.value.inode
      ensures saved.None? && file.Some? ==> pos == |file.value.text| && inode == Some(file.value.inode)
      ensures saved.None? && file.None? ==> pos == 0 && inode == None
    {
      this.parser := parser;
      this.saved := saved;
      this.pending := None;
      match saved {
        case Some(s) => pos, inode := s.pos, s.inode;
        case None =>
          match file {
            case Some(f) => pos, inode := |f.text|, Some(f.inode);
            case None => pos, inode := 0, None;
          }
      }
    }

    /** A failure to save is only logged. */
    method SaveState(saveOk: bool)
      modifies this`saved
      ensures saved == if saveOk then Some(Saved(pos, inode)) else old(saved)
    {
      if saveOk { saved := Some(Saved(pos, inode)); }
    }

    method Poll(file: Option<File>, saveOk: bool) returns (entries: seq<Entry>)
      modifies this`pos, this`inode, this`pending, this`saved
      ensures file.None? ==> entries == [] && pos == old(pos) && inode == old(inode)
                             && pending == old(pending) && saved == old(saved)
      ensures file.Some? ==>
                var f := file.value;
                var rotated := old(inode) != Some(f.inode) || |f.text| < old(pos);
                var n := if pos <= |f.text| then Consumed(f.text[pos..], MAX_LINES_PER_POLL) else 0;
                && pos == (if rotated then 0 else old(pos)) && pos <= |f.text|
                && inode == Some(f.inode)
                && saved == (if rotated && saveOk then Some(Saved(0, inode)) else old(saved))
                && entries == ParseText(parser, f.text[pos..pos + n])
                && pending == if pos == |f.text| then old(pending) else Some(pos + n)
    {
      hide Consumed, ParseText;
      entries := [];
      if file.None? { return; }
      var f := file.value;
      if inode != Some(f.inode) || |f.text| < pos {
        pos := 0;
        inode := Some(f.inode);
        SaveState(saveOk);
      }
      if |f.text| <= pos {
        NothingToRead(parser);
        assert f.text[pos..] == f.text[pos..pos] == "";
        return;
      }
      var at: nat;
      entries, at := ReadChunk(parser, f.text, pos);
      pending := Some(at);
    }

    method Commit(saveOk: bool)
      modifies this`pos, this`pending, this`saved
      ensures pending == None
      ensures pos == if old(pending).Some? then old(pending).value else old(pos)
      ensures saved == if old(pending).Some? && saveOk then Some(Saved(pos, inode)) else old(saved)
    {
      if pending.Some? {
        pos := pending.value;
        pending := None;
        SaveState(saveOk);
      }
    }

    method Rollback()
      modifies this`pending
      ensures pending == None
    {
      pending := None;
    }
  }

  /** The reading loop of a poll. A last line without a newline is left for the next poll. */
  method ReadChunk(parser: Parser, text: string, pos: nat) returns (entries: seq<Entry>, at: nat)
    requires pos <= |text|
    ensures at == pos + Consumed(text[pos..], MAX_LINES_PER_POLL)
    ensures entries == ParseText(parser, text[pos..at])
  {
    hide Consumed, ParseText, NextLine;
    entries, at := [], pos;
    ghost var end := pos + Consumed(text[pos..], MAX_LINES_PER_POLL);
    for k := 0 to MAX_LINES_PER_POLL
      invariant pos <= at <= end && end == at + Consumed(text[at..], MAX_LINES_PER_POLL - k)
      invariant entries + ParseText(parser, text[at..end]) == ParseText(parser, text[pos..end])
    {
      var n := NextLine(text[at..]);
      ConsumedStep(text[at..], MAX_LINES_PER_POLL - k);
      if n == 0 { break; }
      PollStep(parser, text, at, end, MAX_LINES_PER_POLL - k);
      entries := entries + ParseLine(parser, text[at..at + n]);
      at := at + n;
    }
    ConsumedStep(text[at..], 0);
    ParseStep(parser, text[at..end]);
  }

  /** One line of a poll: reading on from the next line gives the rest of the same chunk. */
  lemma PollStep(parser: Parser, text: string, at: nat, end: nat, max: nat)
    requires at <= end <= |text| && max > 0 && end == at + Consumed(text[at..], max)
    requires NextLine(text[at..]) > 0
    ensures var n := NextLine(text[at..]);
            && at + n <= end && end == at + n + Consumed(text[at + n..], max - 1)
            && ParseText(parser, text[at..end]) ==
               ParseLine(parser, text[at..at + n]) + ParseText(parser, text[at + n..end])
  {
    hide Consumed, ParseText, NextLine;
    var s := text[at..];
    var n := NextLine(s);
    ConsumedStep(s, max);
    assert s[n..] == text[at + n..];
    var chunk := text[at..end];
    LineOfPrefix(s, end - at);
    SliceOfSuffix(text, at, end);
    assert chunk[..n] == text[at..at + n] && chunk[n..] == text[at + n..end];
    ParseStep(parser, chunk);
  }

  lemma SliceOfSuffix(text: string, at: nat, end: nat)
    requires at <= end <= |text|
    ensures text[at..][..end - at] == text[at..end]
  {}

  lemma LineOfPrefix(s: string, k: nat)
    requires NextLine(s) <= k <= |s|
    ensures NextLine(s) > 0 ==> NextLine(s[..k]) == NextLine(s)
  {
    hide NextLine;
    NextLineIs(s);
    NextLineIs(s[..k]);
    var n, m := NextLine(s), NextLine(s[..k]);
    if n > 0 {
      assert s[..k][n - 1] == '\n';
      assert m > 0 && s[m - 1] == '\n';
    }
  }

  // ---------- Chunked reading refines one-shot reading ----------

  ghost predicate AtLineStart(s: string, k: nat) {
    k <= |s| && (k == 0 || s[k - 1] == '\n')
  }

  /** A text cut just after a newline parses piecewise. */
  lemma {:induction false} ParseConcat(parser: Parser, a: string, b: string)
    requires AtLineStart(a, |a|)
    ensures ParseText(parser, a + b) == ParseText(parser, a) + ParseText(parser, b)
    decreases |a|
  {
    hide ParseText, NextLine;
    if a == "" {
      assert a + b == b;
      ParseStep(parser, a);
    } else {
      var n := NextLine(a);
      assert a[|a| - 1] == '\n';
      NextLineIs(a);
      FirstLineOfConcat(a, b);
      assert (a + b)[..n] == a[..n] && (a + b)[n..] == a[n..] + b;
      ParseStep(parser, a);
      ParseStep(parser, a + b);
      ParseConcat(parser, a[n..], b);
    }
  }

  lemma FirstLineOfConcat(a: string, b: string)
    requires NextLine(a) > 0
    ensures NextLine(a + b) == NextLine(a)
  {
    hide NextLine;
    NextLineIs(a);
    NextLineIs(a + b);
    var n, m := NextLine(a), NextLine(a + b);
    assert (a + b)[n - 1] == '\n';
    assert m > 0 && (m <= |a| ==> a[m - 1] == '\n');
  }

  /** The position after a schedule of committed polls, one per snapshot of the file. */
  function PosAfter(pos: nat, files: seq<string>): nat
    decreases |files|
  {
    if files == [] then pos
    else
      var last := |files| - 1;
      var p := PosAfter(pos, files[..last]);
      if p <= |files[last]| then p + Consumed(files[last][p..], MAX_LINES_PER_POLL) else p
  }

  /** All entries the polls of the schedule return, concatenated. */
  function EntriesOf(parser: Parser, pos: nat, files: seq<string>): seq<Entry>
    decreases |files|
  {
    if files == [] then []
    else
      var last := |files| - 1;
      var p := PosAfter(pos, files[..last]);
      EntriesOf(parser, pos, files[..last])
      + if p <= |files[last]| then ParseText(parser, files[last][p..PosAfter(pos, files)]) else []
  }

  /** Snapshots of a file that is only appended to. */
  ghost predicate Growing(files: seq<string>) {
    forall i, j :: 0 <= i <= j < |files| ==> files[i] <= files[j]
  }

  /** One more committed poll extends the consumed region by whole lines. */
  lemma PollExtends(parser: Parser, f: string, pos: nat, p: nat)
    requires pos <= p <= |f| && (p == pos || f[p - 1] == '\n')
    ensures var p' := p + Consumed(f[p..], MAX_LINES_PER_POLL);
            && p' <= |f| && (p' == pos || f[p' - 1] == '\n')
            && ParseText(parser, f[pos..p']) == ParseText(parser, f[pos..p]) + ParseText(parser, f[p..p'])
  {
    hide ParseText, Consumed;
    var p' := p + Consumed(f[p..], MAX_LINES_PER_POLL);
    ParseConcat(parser, f[pos..p], f[p..p']);
    assert f[pos..p] + f[p..p'] == f[pos..p'];
    ConsumedAtLineEnd(f[p..], MAX_LINES_PER_POLL);
    if p' > p { assert f[p' - 1] == f[p..][p' - p - 1]; }
  }

  lemma ScheduleStep(parser: Parser, pos: nat, files: seq<string>)
    requires files != []
    ensures var f, before := files[|files| - 1], files[..|files| - 1];
            var p := PosAfter(pos, before);
            && PosAfter(pos, files) == (if p <= |f| then p + Consumed(f[p..], MAX_LINES_PER_POLL) else p)
            && EntriesOf(parser, pos, files) ==
               EntriesOf(parser, pos, before) + (if p <= |f| then ParseText(parser, f[p..PosAfter(pos, files)]) else [])
    ensures PosAfter(pos, []) == pos && EntriesOf(parser, pos, []) == []
  {
    hide ParseText, Consumed;
  }

  /** For any schedule of appends and committed polls, the concatenated results are the complete
      lines of the consumed region, once and in order, and the position is the start or just
      after a newline, so no line is ever parsed in part. */
  lemma {:induction false} ChunkingRefines(parser: Parser, pos: nat, files: seq<string>)
    requires files != [] && Growing(files) && pos <= |files[0]|
    ensures var f := files[|files| - 1];
            var p := PosAfter(pos, files);
            && pos <= p <= |f|
            && EntriesOf(parser, pos, files) == ParseText(parser, f[pos..p])
            && (p == pos || f[p - 1] == '\n')
    decreases |files|
  {
    hide Consumed, ParseText, PosAfter, EntriesOf;
    var last := |files| - 1;
    var f := files[last];
    var p := PosAfter(pos, files[..last]);
    ScheduleStep(parser, pos, files);
    if last == 0 {
      assert files[..0] == [];
      assert f[pos..pos] == "";
      ParseStep(parser, "");
    } else {
      ChunkingRefines(parser, pos, files[..last]);
      var g := files[last - 1];
      assert g <= f;
      assert f[pos..p] == g[pos..p];
      assert p > pos ==> f[p - 1] == g[p - 1];
    }
    PollExtends(parser, f, pos, p);
  }

  // ---------- How many polls a backlog takes ----------

  lemma {:induction false} ConsumedAdds(s: string, m: nat, n: nat)
    ensures Consumed(s, m + n) == Consumed(s, m) + Consumed(s[Consumed(s, m)..], n)
    decreases m
  {
    hide Consumed, NextLine;
    var k := NextLine(s);
    ConsumedStep(s, m);
    ConsumedStep(s, m + n);
    if m == 0 || k == 0 {
      assert s[0..] == s;
      ConsumedStep(s, n);
    } else {
      ConsumedAdds(s[k..], m - 1, n);
      assert s[k..][Consumed(s[k..], m - 1)..] == s[Consumed(s, m)..];
    }
  }

  lemma {:induction false} ConsumedLines(s: string, max: nat)
    ensures LineCount(s[Consumed(s, max)..]) == if max < LineCount(s) then LineCount(s) - max else 0
    decreases max
  {
    hide Consumed, NextLine, LineCount;
    var k := NextLine(s);
    ConsumedStep(s, max);
    CountStep(s);
    if max == 0 || k == 0 {
      assert s[0..] == s;
    } else {
      ConsumedLines(s[k..], max - 1);
      assert s[k..][Consumed(s[k..], max - 1)..] == s[Consumed(s, max)..];
    }
  }

  lemma {:induction false} PollsConsume(f: string, pos: nat, n: nat)
    requires pos <= |f|
    ensures PosAfter(pos, seq(n, _ => f)) == pos + Consumed(f[pos..], n * MAX_LINES_PER_POLL)
  {
    hide Consumed;
    if n == 0 {
      ConsumedStep(f[pos..], 0);
    } else {
      PollsConsume(f, pos, n - 1);
      assert seq(n, _ => f)[..n - 1] == seq(n - 1, _ => f);
      var done := Consumed(f[pos..], (n - 1) * MAX_LINES_PER_POLL);
      ConsumedAdds(f[pos..], (n - 1) * MAX_LINES_PER_POLL, MAX_LINES_PER_POLL);
      assert f[pos..][done..] == f[pos + done..];
      assert (n - 1) * MAX_LINES_PER_POLL + MAX_LINES_PER_POLL == n * MAX_LINES_PER_POLL;
    }
  }

  /** A backlog of L complete lines is consumed by n committed polls exactly when n * 5000 >= L,
      that is after ceil(L / 5000) polls and no sooner. */
  lemma PollsNeeded(f: string, pos: nat, n: nat)
    requires pos <= |f|
    ensures var p := PosAfter(pos, seq(n, _ => f));
            pos <= p <= |f| && ('\n' !in f[p..] <==> n * MAX_LINES_PER_POLL >= LineCount(f[pos..]))
  {
    hide Consumed, LineCount, NextLine;
    PollsConsume(f, pos, n);
    var left := f[PosAfter(pos, seq(n, _ => f))..];
    CountStep(left);
    NextLineIs(left);
    ConsumedLines(f[pos..], n * MAX_LINES_PER_POLL);
    var c := Consumed(f[pos..], n * MAX_LINES_PER_POLL);
    assert f[pos..][c..] == left;
    if NextLine(left) > 0 { assert '\n' in left; }
  }
}
