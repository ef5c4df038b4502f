/** `_like_patterns` of was/app/service_monitor.py: the paths and accounts to ignore are written
    one pattern a line with '*' as the only wildcard, and matched by SQL LIKE. */
module LikePatterns {
  import opened PyText

  /** The four chained replacements. */
  function Translate(pat: string): string {
    Replace(Replace(Replace(Replace(pat, '\\', "\\\\"), '%', "\\%"), '_', "\\_"), '*', "%")
  }

  function PatternsOf(lines: seq<string>): seq<string> {
    if lines == [] then [] else LinePattern(lines[0]) + PatternsOf(lines[1..])
  }

  function LinePattern(line: string): seq<string> {
    var pat := Strip(line);
    if pat == "" then [] else [Translate(pat)]
  }

  lemma PatternsStep(lines: seq<string>)
    ensures PatternsOf([]) == []
    ensures lines != [] ==> PatternsOf(lines) == LinePattern(lines[0]) + PatternsOf(lines[1..])
  {}

  lemma {:induction false} PatternsAppend(lines: seq<string>, line: string)
    ensures PatternsOf(lines + [line]) == PatternsOf(lines) + LinePattern(line)
  {
    hide PatternsOf, LinePattern;
    PatternsStep(lines);
    PatternsStep(lines + [line]);
    if lines == [] {
      assert ([line])[1..] == [];
      assert lines + [line] == [line];
    } else {
      PatternsAppend(lines[1..], line);
      assert (lines + [line])[1..] == lines[1..] + [line];
    }
  }

  // ---------- What the two pattern languages mean ----------

  /** No backslash is left without a character to escape. */
  predicate WellFormed(like: string) {
    like == "" || if like[0] == '\\' then |like| >= 2 && WellFormed(like[2..]) else WellFormed(like[1..])
  }

  /** LIKE with the default backslash escape (PostgreSQL documentation, section 9.7.1). */
  predicate LikeMatch(like: string, s: string)
    requires WellFormed(like)
    decreases |like| + |s|
  {
    if like == "" then s == ""
    else if like[0] == '%' then LikeMatch(like[1..], s) || (s != "" && LikeMatch(like, s[1..]))
    else if like[0] == '_' then s != "" && LikeMatch(like[1..], s[1..])
    else if like[0] == '\\' then s != "" && s[0] == like[1] && LikeMatch(like[2..], s[1..])
    else s != "" && s[0] == like[0] && LikeMatch(like[1..], s[1..])
  }

  function Stars(pat: string): nat {
    if pat == "" then 0 else (if pat[0] == '*' then 1 else 0) + Stars(pat[1..])
  }

  /** The pattern with its stars replaced, left to right, by the given strings. */
  function Fill(pat: string, fills: seq<string>): string
    requires |fills| == Stars(pat)
  {
    if pat == "" then ""
    else if pat[0] == '*' then fills[0] + Fill(pat[1..], fills[1..])
    else [pat[0]] + Fill(pat[1..], fills)
  }

  /** What the settings page promises: every '*' stands for any text, all else for itself. */
  ghost predicate GlobMatch(pat: string, s: string) {
    exists fills: seq<string> :: |fills| == Stars(pat) && Fill(pat, fills) == s
  }

  // ---------- The chain is one character-wise map ----------

  function TranslateChar(c: char): string {
    if c == '\\' then "\\\\" else if c == '%' then "\\%" else if c == '_' then "\\_"
    else if c == '*' then "%" else [c]
  }

  function CharWise(pat: string): string {
    if pat == "" then "" else TranslateChar(pat[0]) + CharWise(pat[1..])
  }

  lemma TranslateConcat(a: string, b: string)
    ensures Translate(a + b) == Translate(a) + Translate(b)
  {
    ReplaceConcat(a, b, '\\', "\\\\");
    var a1, b1 := Replace(a, '\\', "\\\\"), Replace(b, '\\', "\\\\");
    ReplaceConcat(a1, b1, '%', "\\%");
    var a2, b2 := Replace(a1, '%', "\\%"), Replace(b1, '%', "\\%");
    ReplaceConcat(a2, b2, '_', "\\_");
    ReplaceConcat(Replace(a2, '_', "\\_"), Replace(b2, '_', "\\_"), '*', "%");
  }

  lemma ReplaceOne(x: char, c: char, r: string)
    ensures Replace([x], c, r) == if x == c then r else [x]
  {
    assert Replace([x][1..], c, r) == "";
  }

  lemma ReplacePair(x: char, y: char, c: char, r: string)
    ensures Replace([x, y], c, r) == (if x == c then r else [x]) + (if y == c then r else [y])
  {
    ReplaceOne(y, c, r);
    assert [x, y][1..] == [y];
  }

  lemma TranslateOne(c: char)
    ensures Translate([c]) == TranslateChar(c)
  {
    ReplaceOne(c, '\\', "\\\\");
    ReplaceOne(c, '%', "\\%");
    ReplaceOne(c, '_', "\\_");
    ReplaceOne(c, '*', "%");
    ReplacePair('\\', c, '%', "\\%");
    ReplacePair('\\', c, '_', "\\_");
    ReplacePair('\\', c, '*', "%");
  }

  lemma {:induction false} TranslateIsCharWise(pat: string)
    ensures Translate(pat) == CharWise(pat)
  {
    if pat != "" {
      assert pat == [pat[0]] + pat[1..];
      TranslateConcat([pat[0]], pat[1..]);
      TranslateOne(pat[0]);
      TranslateIsCharWise(pat[1..]);
    }
  }

  lemma {:induction false} CharWiseWellFormed(pat: string)
    ensures WellFormed(CharWise(pat))
  {
    if pat != "" {
      CharWiseWellFormed(pat[1..]);
      var t := TranslateChar(pat[0]);
      assert CharWise(pat)[|t|..] == CharWise(pat[1..]);
    }
  }

  /** The output never ends in a dangling escape, so LIKE never rejects it. */
  lemma TranslateWellFormed(pat: string)
    ensures WellFormed(Translate(pat))
  {
    TranslateIsCharWise(pat);
    CharWiseWellFormed(pat);
  }

  // ---------- Meaning is preserved ----------

  lemma LikeHead(c: char, rest: string, s: string)
    requires WellFormed(rest)
    ensures WellFormed(TranslateChar(c) + rest)
    ensures LikeMatch(TranslateChar(c) + rest, s) <==>
            if c == '*' then LikeMatch(rest, s) || (s != "" && LikeMatch(TranslateChar(c) + rest, s[1..]))
            else s != "" && s[0] == c && LikeMatch(rest, s[1..])
  {
    var like := TranslateChar(c) + rest;
    if |TranslateChar(c)| == 1 {
      assert like[0] == TranslateChar(c)[0] && like[1..] == rest;
    } else {
      assert like[0] == '\\' && like[1] == c && like[2..] == rest;
    }
  }

  /** How LIKE reads the translation of a pattern, one pattern character at a time. */
  lemma LikeOfCharWise(pat: string, s: string)
    requires pat != ""
    ensures WellFormed(CharWise(pat)) && WellFormed(CharWise(pat[1..]))
    ensures LikeMatch(CharWise(pat), s) <==>
            if pat[0] == '*' then
              LikeMatch(CharWise(pat[1..]), s) || (s != "" && LikeMatch(CharWise(pat), s[1..]))
            else s != "" && s[0] == pat[0] && LikeMatch(CharWise(pat[1..]), s[1..])
  {
    hide LikeMatch, TranslateChar, WellFormed;
    CharWiseWellFormed(pat[1..]);
    LikeHead(pat[0], CharWise(pat[1..]), s);
  }

  lemma {:induction false} LikeToGlob(pat: string, s: string) returns (fills: seq<string>)
    requires WellFormed(CharWise(pat)) && LikeMatch(CharWise(pat), s)
    ensures |fills| == Stars(pat) && Fill(pat, fills) == s
    decreases |pat| + |s|
  {
    if pat == "" {
      fills := [];
    } else {
      LikeOfCharWise(pat, s);
      if pat[0] != '*' {
        fills := LikeToGlob(pat[1..], s[1..]);
      } else if LikeMatch(CharWise(pat[1..]), s) {
        var rest := LikeToGlob(pat[1..], s);
        fills := [""] + rest;
        assert fills[1..] == rest;
      } else {
        var rest := LikeToGlob(pat, s[1..]);
        fills := [[s[0]] + rest[0]] + rest[1..];
        assert fills[1..] == rest[1..];
      }
    }
  }

  lemma FillStep(pat: string, fills: seq<string>)
    requires |fills| == Stars(pat) && pat != ""
    ensures pat[0] == '*' ==> fills != [] && |fills[1..]| == Stars(pat[1..])
                              && Fill(pat, fills) == fills[0] + Fill(pat[1..], fills[1..])
    ensures pat[0] != '*' ==> |fills| == Stars(pat[1..]) && Fill(pat, fills) == [pat[0]] + Fill(pat[1..], fills)
  {}

  /** A first star that stands for a longer text stands for the rest of it behind one character. */
  lemma FillShorter(pat: string, fills: seq<string>)
    requires |fills| == Stars(pat) && pat != "" && pat[0] == '*' && fills != [] && fills[0] != ""
    ensures var shorter := [fills[0][1..]] + fills[1..];
            && |shorter| == Stars(pat) && Fill(pat, fills) != "" && Fill(pat, shorter) == Fill(pat, fills)[1..]
  {
    hide Stars, Fill;
    var shorter := [fills[0][1..]] + fills[1..];
    assert shorter[1..] == fills[1..];
    FillStep(pat, fills);
    FillStep(pat, shorter);
    assert fills[0] == [fills[0][0]] + fills[0][1..];
  }

  lemma {:induction false} GlobToLike(pat: string, fills: seq<string>, s: string)
    requires |fills| == Stars(pat) && Fill(pat, fills) == s
    ensures WellFormed(CharWise(pat)) && LikeMatch(CharWise(pat), s)
    decreases |pat| + |s|
  {
    hide LikeMatch, WellFormed, CharWise, Fill, Stars;
    if pat == "" {
      EmptyToLike(fills);
    } else {
      LikeOfCharWise(pat, s);
      FillStep(pat, fills);
      if pat[0] != '*' {
        assert s[1..] == Fill(pat[1..], fills);
        GlobToLike(pat[1..], fills, s[1..]);
      } else if fills[0] == "" {
        assert s == Fill(pat[1..], fills[1..]);
        GlobToLike(pat[1..], fills[1..], s);
      } else {
        FillShorter(pat, fills);
        GlobToLike(pat, [fills[0][1..]] + fills[1..], s[1..]);
      }
    }
  }

  lemma EmptyToLike(fills: seq<string>)
    requires |fills| == Stars("")
    ensures Fill("", fills) == "" && WellFormed(CharWise("")) && LikeMatch(CharWise(""), "")
  {}

  /** LIKE accepts exactly the texts the '*' pattern stands for. */
  lemma TranslatePreservesMeaning(pat: string, s: string)
    ensures WellFormed(Translate(pat))
    ensures LikeMatch(Translate(pat), s) <==> GlobMatch(pat, s)
  {
    TranslateIsCharWise(pat);
    CharWiseWellFormed(pat);
    if LikeMatch(CharWise(pat), s) {
      var fills := LikeToGlob(pat, s);
    }
    if GlobMatch(pat, s) {
      var fills: seq<string> :| |fills| == Stars(pat) && Fill(pat, fills) == s;
      GlobToLike(pat, fills, s);
    }
  }

  /** `s LIKE ANY(patterns)`, the condition of cwd_not_ignored_sql and xfer_not_ignored_sql. */
  ghost predicate LikeAny(patterns: seq<string>, s: string) {
    exists i :: 0 <= i < |patterns| && WellFormed(patterns[i]) && LikeMatch(patterns[i], s)
  }

  /** An unescaped underscore stands for any one character. */
  lemma Underscore(s: string)
    ensures LikeMatch("_", s) <==> |s| == 1
  {
    assert "_"[1..] == "";
  }

  ghost predicate LineMatches(line: string, s: string) {
    Strip(line) != "" && GlobMatch(Strip(line), s)
  }

  ghost predicate AnyLineMatches(lines: seq<string>, s: string) {
    exists i :: 0 <= i < |lines| && LineMatches(lines[i], s)
  }

  lemma LikeAnyConcat(a: seq<string>, b: seq<string>, s: string)
    ensures LikeAny(a + b, s) <==> LikeAny(a, s) || LikeAny(b, s)
  {
    if LikeAny(a, s) {
      var i :| 0 <= i < |a| && WellFormed(a[i]) && LikeMatch(a[i], s);
      assert (a + b)[i] == a[i];
    }
    if LikeAny(b, s) {
      var i :| 0 <= i < |b| && WellFormed(b[i]) && LikeMatch(b[i], s);
      assert (a + b)[|a| + i] == b[i];
    }
  }

  lemma AnyLineCons(lines: seq<string>, s: string)
    requires lines != []
    ensures AnyLineMatches(lines, s) <==> LineMatches(lines[0], s) || AnyLineMatches(lines[1..], s)
  {
    hide LineMatches;
    if i :| 0 <= i < |lines| && LineMatches(lines[i], s) {
      assert i == 0 || lines[1..][i - 1] == lines[i];
    }
    if i :| 0 <= i < |lines[1..]| && LineMatches(lines[1..][i], s) {
      assert lines[i + 1] == lines[1..][i];
    }
  }

  lemma LineMeaning(line: string, s: string)
    ensures LikeAny(LinePattern(line), s) <==> LineMatches(line, s)
  {
    hide LikeMatch, WellFormed, GlobMatch, Translate, Strip;
    var pat := Strip(line);
    TranslatePreservesMeaning(pat, s);
    if pat != "" { assert LinePattern(line)[0] == Translate(pat); }
  }

  lemma {:induction false} PatternsMeaning(lines: seq<string>, s: string)
    ensures LikeAny(PatternsOf(lines), s) <==> AnyLineMatches(lines, s)
  {
    hide LikeAny, LineMatches, LinePattern, PatternsOf;
    PatternsStep(lines);
    if lines == [] {
      NoPatterns(s);
    } else {
      AnyLineCons(lines, s);
      LineMeaning(lines[0], s);
      LikeAnyConcat(LinePattern(lines[0]), PatternsOf(lines[1..]), s);
      PatternsMeaning(lines[1..], s);
    }
  }

  lemma NoPatterns(s: string)
    ensures !LikeAny([], s)
  {}

  /** The whole setting: a text is ignored exactly when some non-blank line's pattern stands for it. */
  method LikePatterns(raw: string) returns (out: seq<string>)
    ensures forall i :: 0 <= i < |out| ==> WellFormed(out[i])
    ensures forall s :: LikeAny(out, s) <==> AnyLineMatches(SplitLines(raw), s)
  {
    hide SplitLines, Strip, Translate, LikeAny, AnyLineMatches, PatternsOf;
    PatternsStep([]);
    var lines := SplitLines(raw);
    out := [];
    for k := 0 to |lines|
      invariant out == PatternsOf(lines[..k])
      invariant forall i :: 0 <= i < |out| ==> WellFormed(out[i])
    {
      assert lines[..k + 1] == lines[..k] + [lines[k]];
      PatternsAppend(lines[..k], lines[k]);
      var pat := Strip(lines[k]);
      if pat != "" {
        TranslateWellFormed(pat);
        out := out + [Translate(pat)];
      }
    }
    assert lines[..|lines|] == lines;
    forall s ensures LikeAny(out, s) <==> AnyLineMatches(lines, s) {
      PatternsMeaning(lines, s);
    }
  }

  /** ... where the lines are the texts between the line breaks of the setting. */
  lemma LinesOfSetting(raw: string, s: string)
    ensures AnyLineMatches(SplitLines(raw), s) <==> exists line :: IsLine(raw, line) && LineMatches(line, s)
  {
    hide SplitLines, LineMatches, IsLine;
    forall line ensures line in SplitLines(raw) <==> IsLine(raw, line) { SplitLinesMean(raw, line); }
    if line :| IsLine(raw, line) && LineMatches(line, s) {
      assert line in SplitLines(raw);
    }
  }
}
