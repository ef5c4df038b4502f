/** Month arithmetic and partition names, as in was/app/main.py and was/app/disk_guard.py. */
module Calendar {
  datatype YearMonth = YearMonth(year: int, month: int)

  /** A month a four-digit year can name. */
  predicate Proper(m: YearMonth) {
    0 <= m.year <= 9999 && 1 <= m.month <= 12
  }

  /** Months counted from January of year 0. */
  function Index(m: YearMonth): int {
    m.year * 12 + m.month - 1
  }

  function Shift(now: YearMonth, offset: int): YearMonth {
    var total := now.month - 1 + offset;
    YearMonth(now.year + total / 12, total % 12 + 1)
  }

  /** Shifting a month moves its index, and always yields one of twelve months. */
  lemma ShiftIndex(now: YearMonth, offset: int)
    ensures Index(Shift(now, offset)) == Index(now) + offset && 1 <= Shift(now, offset).month <= 12
  {}

  // ---------- Ranges ----------

  /** The months [start, end) of one partition. */
  datatype Range = Range(start: YearMonth, end: YearMonth)

  function RangeAt(now: YearMonth, offset: int): Range {
    Range(Shift(now, offset), Shift(now, offset + 1))
  }

  predicate Covers(r: Range, m: YearMonth) {
    Index(r.start) <= Index(m) < Index(r.end)
  }

  /** The ranges of consecutive offsets are consecutive and disjoint, and together they are
      exactly the months from the first offset to the last. */
  lemma RangesTile(now: YearMonth, lo: int, hi: int, m: YearMonth)
    requires lo <= hi
    ensures (exists offset :: lo <= offset <= hi && Covers(RangeAt(now, offset), m))
       <==> Index(now) + lo <= Index(m) < Index(now) + hi + 1
    ensures forall i, j :: Covers(RangeAt(now, i), m) && Covers(RangeAt(now, j), m) ==> i == j
    ensures forall i :: RangeAt(now, i).end == RangeAt(now, i + 1).start
  {
    hide Index, Shift;
    forall i ensures Index(RangeAt(now, i).start) == Index(now) + i && Index(RangeAt(now, i).end) == Index(now) + i + 1 {
      ShiftIndex(now, i);
      ShiftIndex(now, i + 1);
    }
    if Index(now) + lo <= Index(m) < Index(now) + hi + 1 {
      var offset := Index(m) - Index(now);
      assert Covers(RangeAt(now, offset), m);
    }
  }

  // ---------- Names ----------

  function Pow10(width: nat): nat {
    if width == 0 then 1 else 10 * Pow10(width - 1)
  }

  function Digit(d: nat): char
    requires d < 10
  {
    '0' + d as char
  }

  /** `{n:0<width>d}` for a number of at most that many digits. */
  function Padded(n: nat, width: nat): (s: string)
    ensures |s| == width
  {
    if width == 0 then "" else Padded(n / 10, width - 1) + [Digit(n % 10)]
  }

  function Name(m: YearMonth): string
    requires Proper(m)
  {
    "ftp_logs_" + Padded(m.year, 4) + "_" + Padded(m.month, 2)
  }

  /** The order of strings. */
  predicate Less(a: string, b: string) {
    b != [] && (a == [] || a[0] < b[0] || (a[0] == b[0] && Less(a[1..], b[1..])))
  }

  lemma {:induction false} LessConcat(a: string, b: string, c: string, d: string)
    requires |a| == |b|
    ensures Less(a + c, b + d) <==> Less(a, b) || (a == b && Less(c, d))
  {
    if a == [] {
      assert a + c == c && b + d == d;
    } else {
      LessConcat(a[1..], b[1..], c, d);
      assert (a + c)[1..] == a[1..] + c && (b + d)[1..] == b[1..] + d;
      assert a == [a[0]] + a[1..] && b == [b[0]] + b[1..];
    }
  }

  lemma DigitOrder(i: nat, j: nat)
    requires i < 10 && j < 10
    ensures Less([Digit(i)], [Digit(j)]) <==> i < j
    ensures Digit(i) == Digit(j) <==> i == j
  {}

  /** Padded numbers are ordered as the numbers are. */
  lemma {:induction false} PaddedOrder(i: nat, j: nat, width: nat)
    requires i < Pow10(width) && j < Pow10(width)
    ensures Less(Padded(i, width), Padded(j, width)) <==> i < j
    ensures Padded(i, width) == Padded(j, width) <==> i == j
  {
    hide Digit;
    if width > 0 {
      PaddedOrder(i / 10, j / 10, width - 1);
      DigitOrder(i % 10, j % 10);
      LessConcat(Padded(i / 10, width - 1), Padded(j / 10, width - 1), [Digit(i % 10)], [Digit(j % 10)]);
      var s, t := Padded(i, width), Padded(j, width);
      assert s == t ==> s[..width - 1] == t[..width - 1] && s[width - 1] == t[width - 1];
    }
  }

  /** In four-digit years the order of partition names is the order of months. */
  lemma NameOrder(a: YearMonth, b: YearMonth)
    requires Proper(a) && Proper(b)
    ensures Less(Name(a), Name(b)) <==> Index(a) < Index(b)
    ensures Name(a) == Name(b) <==> a == b
  {
    hide Less, Padded;
    assert Pow10(4) == 10000 && Pow10(2) == 100;
    PaddedOrder(a.year, b.year, 4);
    PaddedOrder(a.month, b.month, 2);
    var p, y, z := "ftp_logs_", Padded(a.year, 4), Padded(b.year, 4);
    var m, n := Padded(a.month, 2), Padded(b.month, 2);
    LessConcat("_", "_", m, n);
    NotLess("_");
    LessConcat(y, z, "_" + m, "_" + n);
    NotLess(p);
    LessConcat(p, p, y + ("_" + m), z + ("_" + n));
    assert Name(a) == p + (y + ("_" + m)) && Name(b) == p + (z + ("_" + n));
    if Name(a) == Name(b) {
      assert y == Name(a)[9..13] && z == Name(b)[9..13];
      assert m == Name(a)[14..] && n == Name(b)[14..];
    }
  }

  lemma {:induction false} NotLess(a: string)
    ensures !Less(a, a)
  {
    if a != [] { NotLess(a[1..]); }
  }
}
