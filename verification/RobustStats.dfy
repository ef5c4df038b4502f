/** The robust statistics of was/app/service_monitor.py: median, median absolute deviation
    and rank percentile, over reals. */
module RobustStats {
  import opened Wrappers

  ghost predicate Ascending(s: seq<real>) {
    forall i, j :: 0 <= i < j < |s| ==> s[i] <= s[j]
  }

  function Insert(x: real, s: seq<real>): (r: seq<real>)
    ensures multiset(r) == multiset(s) + multiset{x} && |r| == |s| + 1
  {
    if s == [] || x <= s[0] then [x] + s
    else
      assert s == [s[0]] + s[1..];
      [s[0]] + Insert(x, s[1..])
  }

  lemma {:induction false} InsertAscending(x: real, s: seq<real>)
    requires Ascending(s)
    ensures Ascending(Insert(x, s))
  {
    if s != [] && x > s[0] {
      InsertAscending(x, s[1..]);
      InsertKeeps(x, s[1..], s[0]);
    }
  }

  /** A lower bound of the list and the new element is one of the list with it. */
  lemma InsertKeeps(x: real, s: seq<real>, low: real)
    requires low <= x && forall i :: 0 <= i < |s| ==> low <= s[i]
    ensures forall i :: 0 <= i < |Insert(x, s)| ==> low <= Insert(x, s)[i]
  {
    hide Insert;
    var t := Insert(x, s);
    forall i | 0 <= i < |t| ensures low <= t[i] {
      assert t[i] in multiset(t);
      assert t[i] == x || t[i] in s;
    }
  }

  /** Python's `sorted`. */
  function Sorted(xs: seq<real>): (s: seq<real>)
    ensures Ascending(s) && multiset(s) == multiset(xs) && |s| == |xs|
  {
    if xs == [] then []
    else
      assert xs == [xs[0]] + xs[1..];
      var s := Sorted(xs[1..]);
      InsertAscending(xs[0], s);
      Insert(xs[0], s)
  }

  function Median(xs: seq<real>): Option<real> {
    var s := Sorted(xs);
    var n := |s|;
    var m := n / 2;
    if n == 0 then None
    else if n % 2 != 0 then Some(s[m])
    else Some((s[m - 1] + s[m]) / 2.0)
  }

  function Abs(x: real): real {
    if x < 0.0 then -x else x
  }

  function Deviations(xs: seq<real>, med: real): (ds: seq<real>)
    ensures |ds| == |xs| && forall i :: 0 <= i < |xs| ==> ds[i] == Abs(xs[i] - med)
  {
    seq(|xs|, i requires 0 <= i < |xs| => Abs(xs[i] - med))
  }

  /** Median absolute deviation; an empty input has deviation 0. */
  function Mad(xs: seq<real>, med: real): real {
    match Median(Deviations(xs, med))
    case None => 0.0
    case Some(m) => m
  }

  function PercentileRank(n: nat, p: real): (k: nat)
    requires n > 0 && p >= 0.0
    ensures k < n
  {
    var k := (n as real * p).Floor;
    if k < n - 1 then k else n - 1
  }

  /** The lower p-quantile, chosen by rank without interpolation. */
  function Percentile(xs: seq<real>, p: real): Option<real>
    requires p >= 0.0
  {
    if xs == [] then None else Some(Sorted(xs)[PercentileRank(|xs|, p)])
  }

  // ---------- Counting ----------

  function Within(a: real, b: real): real -> bool { x => a <= x <= b }

  function AtMost(v: real): real -> bool { x => x <= v }

  function Count(xs: seq<real>, p: real -> bool): (n: nat)
    ensures n <= |xs|
  {
    if xs == [] then 0 else (if p(xs[0]) then 1 else 0) + Count(xs[1..], p)
  }

  lemma {:induction false} CountSplit(xs: seq<real>, k: nat, p: real -> bool)
    requires k <= |xs|
    ensures Count(xs, p) == Count(xs[..k], p) + Count(xs[k..], p)
  {
    if k == 0 {
      assert xs[..k] == [] && xs[k..] == xs;
    } else {
      CountSplit(xs[1..], k - 1, p);
      assert xs[..k][1..] == xs[1..][..k - 1];
      assert xs[k..] == xs[1..][k - 1..];
    }
  }

  lemma {:induction false} CountNone(xs: seq<real>, p: real -> bool)
    requires forall i :: 0 <= i < |xs| ==> !p(xs[i])
    ensures Count(xs, p) == 0
  {
    if xs != [] { CountNone(xs[1..], p); }
  }

  lemma {:induction false} CountInsert(x: real, s: seq<real>, p: real -> bool)
    ensures Count(Insert(x, s), p) == (if p(x) then 1 else 0) + Count(s, p)
  {
    if s == [] || x <= s[0] {
      assert ([x] + s)[1..] == s;
    } else {
      CountInsert(x, s[1..], p);
      assert ([s[0]] + Insert(x, s[1..]))[1..] == Insert(x, s[1..]);
    }
  }

  /** Sorting changes no count. */
  lemma {:induction false} CountSorted(xs: seq<real>, p: real -> bool)
    ensures Count(Sorted(xs), p) == Count(xs, p)
  {
    if xs != [] {
      CountSorted(xs[1..], p);
      CountInsert(xs[0], Sorted(xs[1..]), p);
    }
  }

  lemma {:induction false} CountMap(xs: seq<real>, ys: seq<real>, p: real -> bool, q: real -> bool)
    requires |xs| == |ys|
    requires forall i :: 0 <= i < |xs| && p(xs[i]) ==> q(ys[i])
    ensures Count(xs, p) <= Count(ys, q)
  {
    if xs != [] { CountMap(xs[1..], ys[1..], p, q); }
  }

  // ---------- Robustness ----------

  ghost predicate Majority(xs: seq<real>, a: real, b: real) {
    2 * Count(xs, Within(a, b)) > |xs|
  }

  /** A sorted sequence with a majority in [a, b] has every element of rank at least n/2 at
      least a, and every element of rank below (n+1)/2 at most b. */
  lemma MajorityOrder(s: seq<real>, a: real, b: real, k: nat)
    requires Ascending(s) && k < |s| && Majority(s, a, b)
    ensures 2 * k + 2 >= |s| ==> a <= s[k]
    ensures 2 * k <= |s| ==> s[k] <= b
  {
    var p := Within(a, b);
    if 2 * k + 2 >= |s| && s[k] < a {
      CountSplit(s, k + 1, p);
      CountNone(s[..k + 1], p);
      assert false;
    }
    if 2 * k <= |s| && s[k] > b {
      CountSplit(s, k, p);
      CountNone(s[k..], p);
      assert false;
    }
  }

  /** If strictly more than half of the values lie in [a, b], so does the median. */
  lemma MedianWithin(xs: seq<real>, a: real, b: real)
    requires Majority(xs, a, b)
    ensures Median(xs).Some? && a <= Median(xs).value <= b
  {
    var s := Sorted(xs);
    CountSorted(xs, Within(a, b));
    var m := |s| / 2;
    MajorityOrder(s, a, b, m);
    if |s| % 2 == 0 { MajorityOrder(s, a, b, m - 1); }
  }

  /** ... and the median absolute deviation around any centre of [a, b] is at most b - a. */
  lemma MadWithin(xs: seq<real>, med: real, a: real, b: real)
    requires Majority(xs, a, b) && a <= med <= b
    ensures 0.0 <= Mad(xs, med) <= b - a
  {
    var ds := Deviations(xs, med);
    CountMap(xs, ds, Within(a, b), Within(0.0, b - a));
    MedianWithin(ds, 0.0, b - a);
  }

  lemma MadNonNegative(xs: seq<real>, med: real)
    ensures Mad(xs, med) >= 0.0
  {
    var s := Sorted(Deviations(xs, med));
    forall i | 0 <= i < |s| ensures s[i] >= 0.0 {
      assert s[i] in multiset(s);
      assert s[i] in Deviations(xs, med);
    }
  }

  /** The percentile is always an observed value. */
  lemma PercentileObserved(xs: seq<real>, p: real)
    requires xs != [] && p >= 0.0
    ensures Percentile(xs, p).Some? && Percentile(xs, p).value in xs
  {
    var s := Sorted(xs);
    assert s[PercentileRank(|xs|, p)] in multiset(s);
  }

  lemma RankMonotone(n: nat, p: real, q: real)
    requires n > 0 && 0.0 <= p <= q
    ensures PercentileRank(n, p) <= PercentileRank(n, q)
  {
    Scaled(n as real, p, q);
    FloorMonotone(n as real * p, n as real * q);
  }

  lemma Scaled(n: real, p: real, q: real)
    requires n >= 0.0 && p <= q
    ensures n * p <= n * q
  {
    assert n * (q - p) >= 0.0;
  }

  lemma FloorMonotone(x: real, y: real)
    requires x <= y
    ensures x.Floor <= y.Floor
  {}

  lemma PercentileMonotone(xs: seq<real>, p: real, q: real)
    requires xs != [] && 0.0 <= p <= q
    ensures Percentile(xs, p).value <= Percentile(xs, q).value
  {
    RankMonotone(|xs|, p, q);
  }

  lemma BelowRank(s: seq<real>, k: nat, v: real)
    requires Ascending(s) && k < |s| && v < s[k]
    ensures Count(s, AtMost(v)) <= k
  {
    CountSplit(s, k, AtMost(v));
    forall i | 0 <= i < |s[k..]| ensures !AtMost(v)(s[k..][i]) {
      assert s[k..][i] == s[k + i];
    }
    CountNone(s[k..], AtMost(v));
  }

  /** Fewer values than the percentile's rank are at or below anything under the percentile. */
  lemma BelowPercentile(xs: seq<real>, p: real, v: real)
    requires xs != [] && p >= 0.0 && v < Percentile(xs, p).value
    ensures Count(xs, AtMost(v)) <= PercentileRank(|xs|, p)
  {
    hide PercentileRank, Count;
    CountSorted(xs, AtMost(v));
    BelowRank(Sorted(xs), PercentileRank(|xs|, p), v);
  }

  // ---------- The median without sorting ----------

  function Below(v: real): real -> bool { x => x < v }

  /** `v` is the value of rank k, counted from 0: it occurs, at most k values are smaller, and more than k
      are not larger. */
  ghost predicate OfRank(xs: seq<real>, k: nat, v: real) {
    v in xs && Count(xs, Below(v)) <= k < Count(xs, AtMost(v))
  }

  lemma {:induction false} CountAll(xs: seq<real>, p: real -> bool)
    requires forall i :: 0 <= i < |xs| ==> p(xs[i])
    ensures Count(xs, p) == |xs|
  {
    if xs != [] { CountAll(xs[1..], p); }
  }

  /** In a sorted list more than k values are at most as large as the k-th. */
  lemma UpToRank(s: seq<real>, k: nat, p: real -> bool)
    requires Ascending(s) && k < |s| && forall x :: x <= s[k] ==> p(x)
    ensures Count(s, p) > k
  {
    CountSplit(s, k + 1, p);
    CountAll(s[..k + 1], p);
  }

  lemma UnderRank(s: seq<real>, k: nat, v: real)
    requires Ascending(s) && k < |s| && v <= s[k]
    ensures Count(s, Below(v)) <= k
  {
    CountSplit(s, k, Below(v));
    CountNone(s[k..], Below(v));
  }

  lemma RankExactly(xs: seq<real>, k: nat, v: real)
    requires k < |xs|
    ensures OfRank(xs, k, v) <==> v == Sorted(xs)[k]
  {
    hide Count, Sorted;
    var s := Sorted(xs);
    CountSorted(xs, Below(v));
    CountSorted(xs, AtMost(v));
    if v == s[k] {
      assert v in multiset(s);
      UnderRank(s, k, v);
      UpToRank(s, k, AtMost(v));
    } else if v < s[k] {
      BelowRank(s, k, v);
    } else {
      UpToRank(s, k, Below(v));
    }
  }

  ghost predicate Midpoint(xs: seq<real>, k: nat, k': nat, m: real) {
    exists lo, hi :: OfRank(xs, k, lo) && OfRank(xs, k', hi) && m == (lo + hi) / 2.0
  }

  lemma MidpointExactly(xs: seq<real>, k: nat, k': nat, m: real)
    requires k < |xs| && k' < |xs|
    ensures Midpoint(xs, k, k', m) <==> m == (Sorted(xs)[k] + Sorted(xs)[k']) / 2.0
  {
    hide OfRank, Sorted;
    var s := Sorted(xs);
    RankExactly(xs, k, s[k]);
    RankExactly(xs, k', s[k']);
    if lo, hi :| OfRank(xs, k, lo) && OfRank(xs, k', hi) && m == (lo + hi) / 2.0 {
      RankExactly(xs, k, lo);
      RankExactly(xs, k', hi);
    }
  }

  /** The middle value, or the midpoint of the two middle values. */
  ghost predicate IsMedian(xs: seq<real>, m: real) {
    var n := |xs|;
    && n > 0
    && if n % 2 == 1 then OfRank(xs, n / 2, m)
       else Midpoint(xs, n / 2 - 1, n / 2, m)
  }

  /** Every list with elements has one median and only one; it is what is computed. */
  lemma MedianExactly(xs: seq<real>, m: real)
    ensures Median(xs) == Some(m) <==> IsMedian(xs, m)
    ensures Median(xs) == None <==> xs == []
  {
    hide OfRank, Midpoint, Sorted;
    var n := |xs|;
    if n > 0 {
      if n % 2 == 1 { RankExactly(xs, n / 2, m); } else { MidpointExactly(xs, n / 2 - 1, n / 2, m); }
    }
  }

  /** At most half of the values lie below the median, and at most half above it. */
  lemma MedianHalves(xs: seq<real>, m: real)
    requires IsMedian(xs, m)
    ensures 2 * Count(xs, Below(m)) <= |xs| && 2 * (|xs| - Count(xs, AtMost(m))) <= |xs|
  {
    hide Count, Sorted;
    var s := Sorted(xs);
    MedianExactly(xs, m);
    CountSorted(xs, Below(m));
    CountSorted(xs, AtMost(m));
    var k := |xs| / 2;
    MiddleOf(xs, m);
    UnderRank(s, k, m);
    UpToRank(s, (|xs| - 1) / 2, AtMost(m));
  }

  lemma MiddleOf(xs: seq<real>, m: real)
    requires Median(xs) == Some(m)
    ensures xs != [] && Sorted(xs)[(|xs| - 1) / 2] <= m <= Sorted(xs)[|xs| / 2]
  {
    hide Sorted, Median;
    var s, n := Sorted(xs), |xs|;
    MedianStep(xs, n / 2);
    if n > 0 {
      assert (n - 1) / 2 == if n % 2 == 1 then n / 2 else n / 2 - 1;
      if n % 2 == 0 { MidBetween(s[n / 2 - 1], s[n / 2]); }
    }
  }

  lemma MedianStep(xs: seq<real>, k: nat)
    requires k == |xs| / 2
    ensures xs == [] <==> Median(xs) == None
    ensures xs != [] && |xs| % 2 == 1 ==> Median(xs) == Some(Sorted(xs)[k])
    ensures xs != [] && |xs| % 2 == 0 ==> k > 0 && Median(xs) == Some((Sorted(xs)[k - 1] + Sorted(xs)[k]) / 2.0)
  {
    hide Sorted;
  }

  lemma MidBetween(x: real, y: real)
    requires x <= y
    ensures x <= (x + y) / 2.0 <= y
  {}

  lemma PercentileExactly(xs: seq<real>, p: real, q: real)
    requires xs != [] && p >= 0.0
    ensures Percentile(xs, p) == Some(q) <==>
            OfRank(xs, if (|xs| as real * p).Floor < |xs| - 1 then (|xs| as real * p).Floor else |xs| - 1, q)
  {
    hide OfRank, Sorted;
    RankExactly(xs, PercentileRank(|xs|, p), q);
  }
}
