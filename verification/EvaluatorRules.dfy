/** What the four rules of `_eval_bucket` decide, exactly: which alert a bucket raises, in the terms of
    the baseline buckets themselves, with a median that is defined by counting. */
module EvaluatorRules {
  import opened Wrappers
  import opened RobustStats
  import opened Evaluator

  // ---------- Medians over buckets ----------

  type Test = Bucket -> bool
  type Measure = Bucket -> real

  function Number(rows: seq<Bucket>, p: Test): nat {
    if rows == [] then 0 else (if p(rows[0]) then 1 else 0) + Number(rows[1..], p)
  }

  function Under(e: Test, f: Measure, v: real): Test { (r: Bucket) => e(r) && f(r) < v }

  function UpTo(e: Test, f: Measure, v: real): Test { (r: Bucket) => e(r) && f(r) <= v }

  /** `v` is the measure of rank k among the eligible buckets: one has it, at most k have less, and more
      than k no more. */
  ghost predicate Ranked(rows: seq<Bucket>, e: Test, f: Measure, k: nat, v: real) {
    && (exists r :: r in rows && e(r) && f(r) == v)
    && Number(rows, Under(e, f, v)) <= k < Number(rows, UpTo(e, f, v))
  }

  ghost predicate Middle(rows: seq<Bucket>, e: Test, f: Measure, k: nat, k': nat, m: real) {
    exists lo, hi :: Ranked(rows, e, f, k, lo) && Ranked(rows, e, f, k', hi) && m == (lo + hi) / 2.0
  }

  /** `m` is the median of the measure over the eligible buckets. */
  ghost predicate MedianOf(rows: seq<Bucket>, e: Test, f: Measure, m: real) {
    var n := Number(rows, e);
    n > 0 && if n % 2 == 1 then Ranked(rows, e, f, n / 2, m) else Middle(rows, e, f, n / 2 - 1, n / 2, m)
  }

  ghost predicate NoneEligible(rows: seq<Bucket>, e: Test) {
    forall r :: r in rows ==> !e(r)
  }

  function Distance(f: Measure, m: real): Measure {
    (r: Bucket) => if f(r) >= m then f(r) - m else m - f(r)
  }

  /** The measures of the eligible buckets. */
  function Samples(rows: seq<Bucket>, e: Test, f: Measure): seq<real> {
    if rows == [] then [] else (if e(rows[0]) then [f(rows[0])] else []) + Samples(rows[1..], e, f)
  }

  lemma CountCons(x: real, xs: seq<real>, p: real -> bool)
    ensures Count([x] + xs, p) == (if p(x) then 1 else 0) + Count(xs, p)
  {
    assert ([x] + xs)[1..] == xs;
  }

  lemma {:induction false} SamplesCount(rows: seq<Bucket>, e: Test, f: Measure, p: real -> bool, q: Test)
    requires forall r :: q(r) <==> e(r) && p(f(r))
    ensures Count(Samples(rows, e, f), p) == Number(rows, q)
  {
    hide Count;
    if rows == [] {
      CountNone([], p);
    } else {
      SamplesCount(rows[1..], e, f, p, q);
      var rest := Samples(rows[1..], e, f);
      if e(rows[0]) { CountCons(f(rows[0]), rest, p); } else { assert Samples(rows, e, f) == rest; }
    }
  }

  lemma {:induction false} SamplesHold(rows: seq<Bucket>, e: Test, f: Measure, v: real)
    ensures v in Samples(rows, e, f) <==> exists r :: r in rows && e(r) && f(r) == v
    ensures |Samples(rows, e, f)| == Number(rows, e)
  {
    if rows != [] {
      SamplesHold(rows[1..], e, f, v);
      assert rows == [rows[0]] + rows[1..];
    }
  }

  lemma RankedIs(rows: seq<Bucket>, e: Test, f: Measure, k: nat, v: real)
    ensures Ranked(rows, e, f, k, v) <==> OfRank(Samples(rows, e, f), k, v)
  {
    hide Count, Number, Samples;
    SamplesHold(rows, e, f, v);
    SamplesCount(rows, e, f, Below(v), Under(e, f, v));
    SamplesCount(rows, e, f, AtMost(v), UpTo(e, f, v));
  }

  lemma MiddleIs(rows: seq<Bucket>, e: Test, f: Measure, k: nat, k': nat, m: real)
    ensures Middle(rows, e, f, k, k', m) <==> Midpoint(Samples(rows, e, f), k, k', m)
  {
    hide Ranked, OfRank;
    forall v ensures Ranked(rows, e, f, k, v) <==> OfRank(Samples(rows, e, f), k, v) { RankedIs(rows, e, f, k, v); }
    forall v ensures Ranked(rows, e, f, k', v) <==> OfRank(Samples(rows, e, f), k', v) { RankedIs(rows, e, f, k', v); }
  }

  lemma MedianOfIs(rows: seq<Bucket>, e: Test, f: Measure, m: real)
    ensures MedianOf(rows, e, f, m) <==> Median(Samples(rows, e, f)) == Some(m)
  {
    hide Ranked, OfRank, Middle, Midpoint, Samples, Median;
    var xs := Samples(rows, e, f);
    SamplesHold(rows, e, f, m);
    MedianExactly(xs, m);
    var n := |xs|;
    if n > 0 {
      if n % 2 == 1 { RankedIs(rows, e, f, n / 2, m); } else { MiddleIs(rows, e, f, n / 2 - 1, n / 2, m); }
    }
  }

  /** Eligible buckets have one median, and only one. */
  lemma MedianOfUnique(rows: seq<Bucket>, e: Test, f: Measure, m: real, m': real)
    requires MedianOf(rows, e, f, m) && MedianOf(rows, e, f, m')
    ensures m == m'
  {
    hide MedianOf, Median;
    MedianOfIs(rows, e, f, m);
    MedianOfIs(rows, e, f, m');
  }

  lemma {:induction false} SampleDistances(rows: seq<Bucket>, e: Test, f: Measure, m: real)
    ensures Samples(rows, e, Distance(f, m)) == Deviations(Samples(rows, e, f), m)
  {
    hide Deviations;
    NoDeviations(m);
    if rows != [] {
      var rest := Samples(rows[1..], e, f);
      SampleDistances(rows[1..], e, f, m);
      if e(rows[0]) { DeviationsCons(f(rows[0]), rest, m); } else { SamplesSkip(rows, e, f); SamplesSkip(rows, e, Distance(f, m)); }
    }
  }

  lemma SamplesSkip(rows: seq<Bucket>, e: Test, f: Measure)
    requires rows != [] && !e(rows[0])
    ensures Samples(rows, e, f) == Samples(rows[1..], e, f)
  {}

  lemma NoDeviations(m: real)
    ensures Deviations([], m) == []
  {}

  lemma DeviationsCons(x: real, xs: seq<real>, m: real)
    ensures Deviations([x] + xs, m) == [if x >= m then x - m else m - x] + Deviations(xs, m)
  {}

  lemma NoneSampled(rows: seq<Bucket>, e: Test, f: Measure)
    requires NoneEligible(rows, e)
    ensures Samples(rows, e, f) == []
  {
    if |Samples(rows, e, f)| > 0 { SamplesHold(rows, e, f, Samples(rows, e, f)[0]); }
  }

  /** Median and deviation of a rule's samples. */
  lemma SpreadIs(rows: seq<Bucket>, e: Test, f: Measure, m: real, d: real)
    requires MedianOf(rows, e, f, m) && MedianOf(rows, e, Distance(f, m), d)
    ensures Median(Samples(rows, e, f)) == Some(m) && Mad(Samples(rows, e, f), m) == d
  {
    hide MedianOf, Median, Samples;
    MedianOfIs(rows, e, f, m);
    MedianOfIs(rows, e, Distance(f, m), d);
    SampleDistances(rows, e, f, m);
  }

  // ---------- Which buckets count, and what they contribute ----------

  function Transferring(min: nat): Test { (r: Bucket) => r.transfers >= min }

  function FailShare(): Measure {
    (r: Bucket) => if r.transfers > 0 then r.transferFails as real / r.transfers as real else 0.0
  }

  function LoggingIn(min: nat): Test { (r: Bucket) => r.loginAttempts >= min }

  function LoginFailShare(): Measure {
    (r: Bucket) => if r.loginAttempts > 0 then r.loginFails as real / r.loginAttempts as real else 0.0
  }

  function Refused(min: nat): Test { (r: Bucket) => r.cwdFails >= min }

  function Refusals(): Measure { (r: Bucket) => r.cwdFails as real }

  function Loaded(min: nat): Test { (r: Bucket) => r.xfersBig >= min && r.secsBig > 0.0 }

  function Speed(): Measure { (r: Bucket) => if r.secsBig > 0.0 then r.bytesBig as real / r.secsBig else 0.0 }

  function MeanSize(): Measure { (r: Bucket) => if r.xfersBig > 0 then r.bytesBig as real / r.xfersBig as real else 0.0 }

  lemma {:induction false} TransferSamples(rows: seq<Bucket>, min: nat)
    requires min >= 1
    ensures TransferRates(rows, min) == Samples(rows, Transferring(min), FailShare())
  {
    if rows != [] { TransferSamples(rows[1..], min); }
  }

  lemma {:induction false} LoginSamples(rows: seq<Bucket>, min: nat)
    requires min >= 1
    ensures LoginRates(rows, min) == Samples(rows, LoggingIn(min), LoginFailShare())
  {
    if rows != [] { LoginSamples(rows[1..], min); }
  }

  lemma {:induction false} CwdSamples(rows: seq<Bucket>, min: nat)
    ensures CwdCounts(rows, min) == Samples(rows, Refused(min), Refusals())
  {
    if rows != [] { CwdSamples(rows[1..], min); }
  }

  lemma {:induction false} SpeedSamples(rows: seq<Bucket>, min: nat)
    ensures Speeds(rows, min) == Samples(rows, Loaded(min), Speed())
  {
    if rows != [] { SpeedSamples(rows[1..], min); }
  }

  lemma {:induction false} SizeSamples(rows: seq<Bucket>, min: nat)
    requires min >= 1
    ensures Sizes(rows, min) == Samples(rows, Loaded(min), MeanSize())
  {
    if rows != [] { SizeSamples(rows[1..], min); }
  }

  // ---------- The alert list ----------

  /** The list holds at most one alert of a metric. */
  lemma OnePerMetric(cand: Bucket, baseline: seq<Bucket>, cfg: Config, i: nat, j: nat)
    requires cfg.Valid() && i < j < |EvalBucket(cand, baseline, cfg)|
    ensures EvalBucket(cand, baseline, cfg)[i].metric != EvalBucket(cand, baseline, cfg)[j].metric
  {
    hide Median, UpperThreshold, LowThreshold, MixedSizes, TransferRates, LoginRates, CwdCounts, Speeds;
    SingleRate(cand, baseline, cfg);
    SingleSpeed(cand, baseline, cfg);
    hide FailRateRule, ThroughputRule, LoginRule, CwdRule;
    var f, t, l, c := FailRateRule(cand, baseline, cfg), ThroughputRule(cand, baseline, cfg),
                      LoginRule(cand, baseline, cfg), CwdRule(cand, baseline, cfg);
    assert EvalBucket(cand, baseline, cfg) == f + t + l + c;
  }

  lemma SingleRate(cand: Bucket, baseline: seq<Bucket>, cfg: Config)
    requires cfg.Valid()
    ensures var r := FailRateRule(cand, baseline, cfg); |r| <= 1 && Only(r, FailRate)
    ensures var r := LoginRule(cand, baseline, cfg); |r| <= 1 && Only(r, LoginFailRate)
    ensures var r := CwdRule(cand, baseline, cfg); |r| <= 1 && Only(r, CwdFailSpike)
  {
    hide Median, UpperThreshold, TransferRates, LoginRates, CwdCounts;
  }

  lemma SingleSpeed(cand: Bucket, baseline: seq<Bucket>, cfg: Config)
    requires cfg.Valid()
    ensures var r := ThroughputRule(cand, baseline, cfg); |r| <= 1 && Only(r, Throughput)
  {
    hide Median, LowThreshold, MixedSizes, Speeds;
  }

  /** An alert of the list comes from the rule of its metric. */
  lemma InRule(cand: Bucket, baseline: seq<Bucket>, cfg: Config, a: Alert)
    requires cfg.Valid()
    ensures a in EvalBucket(cand, baseline, cfg) <==> a in RuleOf(a.metric, cand, baseline, cfg)
  {
    SingleRate(cand, baseline, cfg);
    SingleSpeed(cand, baseline, cfg);
    hide FailRateRule, ThroughputRule, LoginRule, CwdRule;
    assert a in FailRateRule(cand, baseline, cfg) ==> a.metric == FailRate;
    assert a in ThroughputRule(cand, baseline, cfg) ==> a.metric == Throughput;
    assert a in LoginRule(cand, baseline, cfg) ==> a.metric == LoginFailRate;
    assert a in CwdRule(cand, baseline, cfg) ==> a.metric == CwdFailSpike;
  }

  // ---------- The failure rules ----------

  /** The larger one. */
  ghost predicate Larger(t: real, x: real, y: real) {
    t >= x && t >= y && (t == x || t == y)
  }

  /** An alert whose value is positive and exceeds both the bound and the floor; it is critical from
      twice both of them on, if that is `serious`. */
  ghost predicate Exceeds(a: Alert, start: int, value: real, n: nat, baseline: Option<real>, bound: real, floor: real, serious: real) {
    && value > 0.0 && value > bound && value > floor
    && a.start == start && a.value == value && a.sampleCount == n && a.baseline == baseline
    && Larger(a.threshold, bound, floor)
    && (a.severity == Critical <==> value >= 2.0 * bound && value >= 2.0 * floor && value >= serious)
  }

  lemma RateRuleIs(metric: Metric, start: int, fails: nat, attempts: nat, base: seq<real>, k: real, floor: real, serious: real,
                   m: real, d: real, bound: real, a: Alert)
    requires attempts >= 1 && Median(base) == Some(m) && Mad(base, m) == d && bound == m + k * d
    ensures a in RateRule(metric, start, fails, attempts, base, k, floor, serious) <==>
            a.metric == metric && Exceeds(a, start, fails as real / attempts as real, attempts, Some(m), bound, floor, serious)
  {
    hide Median, Mad;
    UpperIs(m, d, k, floor, bound);
    assert UpperThreshold(base, k, floor) == if bound >= floor then bound else floor;
  }

  lemma UpperIs(m: real, d: real, k: real, floor: real, bound: real)
    requires bound == m + k * d
    ensures Upper(m, d, k, floor) == if bound >= floor then bound else floor
  {}

  lemma RateRuleAlone(metric: Metric, start: int, fails: nat, attempts: nat, base: seq<real>, k: real, floor: real, serious: real, a: Alert)
    requires attempts >= 1 && base == []
    ensures a in RateRule(metric, start, fails, attempts, base, k, floor, serious) <==>
            a.metric == metric && Exceeds(a, start, fails as real / attempts as real, attempts, None, floor, floor, serious)
  {
    hide Median;
    MedianExactly(base, 0.0);
  }

  /** The transfer failure rule. `m` is the median failure share of the baseline buckets with enough
      transfers, `d` the median distance from it. */
  lemma FailRateExactly(cand: Bucket, baseline: seq<Bucket>, cfg: Config, m: real, d: real, a: Alert)
    requires cfg.Valid() && a.metric == FailRate
    requires MedianOf(baseline, Transferring(cfg.minSamples), FailShare(), m)
    requires MedianOf(baseline, Transferring(cfg.minSamples), Distance(FailShare(), m), d)
    ensures a in EvalBucket(cand, baseline, cfg) <==>
            cand.transfers >= cfg.minSamples
            && Exceeds(a, cand.start, cand.transferFails as real / cand.transfers as real, cand.transfers,
                       Some(m), m + cfg.madK * d, cfg.failRateFloor, 0.5)
  {
    hide EvalBucket, MedianOf, Median, Mad, TransferRates, RateRule, Exceeds, Samples;
    InRule(cand, baseline, cfg, a);
    var bound := m + cfg.madK * d;
    SpreadIs(baseline, Transferring(cfg.minSamples), FailShare(), m, d);
    TransferSamples(baseline, cfg.minSamples);
    if cand.transfers >= cfg.minSamples {
      RateRuleIs(FailRate, cand.start, cand.transferFails, cand.transfers, TransferRates(baseline, cfg.minSamples),
                 cfg.madK, cfg.failRateFloor, SERIOUS_FAIL_RATE, m, d, bound, a);
    }
  }

  /** Without such buckets the floor decides alone. */
  lemma FailRateAlone(cand: Bucket, baseline: seq<Bucket>, cfg: Config, a: Alert)
    requires cfg.Valid() && a.metric == FailRate && NoneEligible(baseline, Transferring(cfg.minSamples))
    ensures a in EvalBucket(cand, baseline, cfg) <==>
            cand.transfers >= cfg.minSamples
            && Exceeds(a, cand.start, cand.transferFails as real / cand.transfers as real, cand.transfers,
                       None, cfg.failRateFloor, cfg.failRateFloor, 0.5)
  {
    hide EvalBucket, TransferRates, RateRule, Samples;
    InRule(cand, baseline, cfg, a);
    NoneSampled(baseline, Transferring(cfg.minSamples), FailShare());
    TransferSamples(baseline, cfg.minSamples);
    if cand.transfers >= cfg.minSamples {
      RateRuleAlone(FailRate, cand.start, cand.transferFails, cand.transfers, TransferRates(baseline, cfg.minSamples),
                    cfg.madK, cfg.failRateFloor, SERIOUS_FAIL_RATE, a);
    }
  }

  /** The login failure rule. */
  lemma LoginExactly(cand: Bucket, baseline: seq<Bucket>, cfg: Config, m: real, d: real, a: Alert)
    requires cfg.Valid() && a.metric == LoginFailRate
    requires MedianOf(baseline, LoggingIn(cfg.minLoginSamples), LoginFailShare(), m)
    requires MedianOf(baseline, LoggingIn(cfg.minLoginSamples), Distance(LoginFailShare(), m), d)
    ensures a in EvalBucket(cand, baseline, cfg) <==>
            cand.loginAttempts >= cfg.minLoginSamples
            && Exceeds(a, cand.start, cand.loginFails as real / cand.loginAttempts as real, cand.loginAttempts,
                       Some(m), m + cfg.madK * d, cfg.loginFailRateFloor, 0.7)
  {
    hide EvalBucket, MedianOf, Median, Mad, LoginRates, RateRule, Exceeds, Samples;
    InRule(cand, baseline, cfg, a);
    var bound := m + cfg.madK * d;
    SpreadIs(baseline, LoggingIn(cfg.minLoginSamples), LoginFailShare(), m, d);
    LoginSamples(baseline, cfg.minLoginSamples);
    if cand.loginAttempts >= cfg.minLoginSamples {
      RateRuleIs(LoginFailRate, cand.start, cand.loginFails, cand.loginAttempts, LoginRates(baseline, cfg.minLoginSamples),
                 cfg.madK, cfg.loginFailRateFloor, SERIOUS_LOGIN_RATE, m, d, bound, a);
    }
  }

  lemma LoginAlone(cand: Bucket, baseline: seq<Bucket>, cfg: Config, a: Alert)
    requires cfg.Valid() && a.metric == LoginFailRate && NoneEligible(baseline, LoggingIn(cfg.minLoginSamples))
    ensures a in EvalBucket(cand, baseline, cfg) <==>
            cand.loginAttempts >= cfg.minLoginSamples
            && Exceeds(a, cand.start, cand.loginFails as real / cand.loginAttempts as real, cand.loginAttempts,
                       None, cfg.loginFailRateFloor, cfg.loginFailRateFloor, 0.7)
  {
    hide EvalBucket, LoginRates, RateRule, Samples;
    InRule(cand, baseline, cfg, a);
    NoneSampled(baseline, LoggingIn(cfg.minLoginSamples), LoginFailShare());
    LoginSamples(baseline, cfg.minLoginSamples);
    if cand.loginAttempts >= cfg.minLoginSamples {
      RateRuleAlone(LoginFailRate, cand.start, cand.loginFails, cand.loginAttempts, LoginRates(baseline, cfg.minLoginSamples),
                    cfg.madK, cfg.loginFailRateFloor, SERIOUS_LOGIN_RATE, a);
    }
  }

  /** An alert whose count exceeds both the bound and the floor, critical from twice both of them on. */
  ghost predicate Spikes(a: Alert, start: int, count: nat, baseline: Option<real>, bound: real, floor: real) {
    var value := count as real;
    && value > bound && value > floor
    && a.start == start && a.value == value && a.sampleCount == count && a.baseline == baseline
    && Larger(a.threshold, bound, floor)
    && (a.severity == Critical <==> value >= 2.0 * bound && value >= 2.0 * floor)
  }

  lemma CwdRuleIs(cand: Bucket, baseline: seq<Bucket>, cfg: Config, m: real, d: real, bound: real, a: Alert)
    requires var base := CwdCounts(baseline, cfg.minCwdSamples); Median(base) == Some(m) && Mad(base, m) == d
    requires bound == m + cfg.madK * d && a.metric == CwdFailSpike
    ensures a in CwdRule(cand, baseline, cfg) <==>
            cand.cwdFails >= cfg.minCwdSamples && Spikes(a, cand.start, cand.cwdFails, Some(m), bound, cfg.cwdFailFloor as real)
  {
    hide Median, Mad, CwdCounts;
    var floor := cfg.cwdFailFloor as real;
    UpperIs(m, d, cfg.madK, floor, bound);
    assert UpperThreshold(CwdCounts(baseline, cfg.minCwdSamples), cfg.madK, floor) == if bound >= floor then bound else floor;
  }

  /** The rule of refused directory changes. */
  lemma CwdExactly(cand: Bucket, baseline: seq<Bucket>, cfg: Config, m: real, d: real, a: Alert)
    requires cfg.Valid() && a.metric == CwdFailSpike
    requires MedianOf(baseline, Refused(cfg.minCwdSamples), Refusals(), m)
    requires MedianOf(baseline, Refused(cfg.minCwdSamples), Distance(Refusals(), m), d)
    ensures a in EvalBucket(cand, baseline, cfg) <==>
            cand.cwdFails >= cfg.minCwdSamples
            && Spikes(a, cand.start, cand.cwdFails, Some(m), m + cfg.madK * d, cfg.cwdFailFloor as real)
  {
    hide EvalBucket, MedianOf, Median, Mad, CwdCounts, CwdRule, Spikes, Samples;
    InRule(cand, baseline, cfg, a);
    SpreadIs(baseline, Refused(cfg.minCwdSamples), Refusals(), m, d);
    CwdSamples(baseline, cfg.minCwdSamples);
    CwdRuleIs(cand, baseline, cfg, m, d, m + cfg.madK * d, a);
  }

  lemma CwdAlone(cand: Bucket, baseline: seq<Bucket>, cfg: Config, a: Alert)
    requires cfg.Valid() && a.metric == CwdFailSpike && NoneEligible(baseline, Refused(cfg.minCwdSamples))
    ensures a in EvalBucket(cand, baseline, cfg) <==>
            cand.cwdFails >= cfg.minCwdSamples
            && Spikes(a, cand.start, cand.cwdFails, None, cfg.cwdFailFloor as real, cfg.cwdFailFloor as real)
  {
    hide EvalBucket, CwdCounts, Samples, Median;
    InRule(cand, baseline, cfg, a);
    NoneSampled(baseline, Refused(cfg.minCwdSamples), Refusals());
    CwdSamples(baseline, cfg.minCwdSamples);
    MedianExactly([], 0.0);
  }

  // ---------- The speed rule ----------

  /** The mean size of the large files is comparable: within a factor of four of its median `s`, or that
      median is zero. */
  ghost predicate ComparableSize(cand: Bucket, s: real)
    requires cand.xfersBig > 0
  {
    var avg := cand.bytesBig as real / cand.xfersBig as real;
    s == 0.0 || (s / 4.0 <= avg && avg <= s * 4.0)
  }

  /** `q` is the speed of the rank that the slow percentile picks. */
  ghost predicate SlowPick(rows: seq<Bucket>, min: nat, p: real, q: real)
    requires p >= 0.0
  {
    var n := Number(rows, Loaded(min));
    n > 0 && Ranked(rows, Loaded(min), Speed(), if (n as real * p).Floor < n - 1 then (n as real * p).Floor else n - 1, q)
  }

  /** An alert whose value is under all three bounds, the last one with at least 20 buckets only; critical
      when under half of them. */
  ghost predicate Slow(a: Alert, start: int, value: real, n: nat, m: real, x: real, y: real, q: real, many: bool) {
    && value < x && value < y && (many ==> value < q)
    && a.start == start && a.value == value && a.sampleCount == n && a.baseline == Some(m)
    && a.threshold <= x && a.threshold <= y && (many ==> a.threshold <= q)
    && (a.threshold == x || a.threshold == y || (many && a.threshold == q))
    && (a.severity == Critical <==> value < x * 0.5 && value < y * 0.5 && (many ==> value < q * 0.5))
  }

  lemma LowIs(speeds: seq<real>, m: real, d: real, q: real, cfg: Config, x: real, y: real)
    requires cfg.Valid() && Median(speeds) == Some(m) && Mad(speeds, m) == d && speeds != []
    requires Percentile(speeds, cfg.throughputSlowPct) == Some(q)
    requires x == m - cfg.madK * d && y == m * (1.0 - cfg.throughputDrop)
    ensures LowThreshold(speeds, m, cfg) ==
            var low := if x <= y then x else y; if |speeds| >= 20 && q < low then q else low
  {
    hide Median, Mad, Percentile;
    LowerIs(m, d, cfg.madK, cfg.throughputDrop, x, y);
  }

  lemma LowerIs(m: real, d: real, k: real, drop: real, x: real, y: real)
    requires x == m - k * d && y == m * (1.0 - drop)
    ensures Lower(m, d, k, drop) == if x <= y then x else y
  {}

  lemma SizesCompare(cand: Bucket, baseline: seq<Bucket>, min: nat, s: real)
    requires min >= 1 && cand.xfersBig >= min && MedianOf(baseline, Loaded(min), MeanSize(), s)
    ensures MixedSizes(cand, baseline, min) <==> !ComparableSize(cand, s)
  {
    hide MedianOf, Median, Sizes, Samples;
    MedianOfIs(baseline, Loaded(min), MeanSize(), s);
    SizeSamples(baseline, min);
  }

  lemma PickRank(rows: seq<Bucket>, min: nat, p: real, q: real)
    requires p >= 0.0 && SlowPick(rows, min, p, q)
    ensures var n := Number(rows, Loaded(min)); n > 0 && Ranked(rows, Loaded(min), Speed(), PercentileRank(n, p), q)
  {
    hide Ranked, Number;
    var n := Number(rows, Loaded(min));
    RankIs(n, p, (n as real * p).Floor);
  }

  lemma RankIs(n: nat, p: real, k: int)
    requires n > 0 && p >= 0.0 && k == (n as real * p).Floor
    ensures PercentileRank(n, p) == if k < n - 1 then k else n - 1
  {}

  lemma PercentileAt(xs: seq<real>, p: real, q: real)
    requires p >= 0.0 && xs != [] && OfRank(xs, PercentileRank(|xs|, p), q)
    ensures Percentile(xs, p) == Some(q)
  {
    hide OfRank, PercentileRank, Sorted;
    RankExactly(xs, PercentileRank(|xs|, p), q);
  }

  lemma PickIs(baseline: seq<Bucket>, cfg: Config, q: real)
    requires cfg.Valid() && SlowPick(baseline, cfg.minLargeSamples, cfg.throughputSlowPct, q)
    ensures Speeds(baseline, cfg.minLargeSamples) != []
    ensures Percentile(Speeds(baseline, cfg.minLargeSamples), cfg.throughputSlowPct) == Some(q)
    ensures |Speeds(baseline, cfg.minLargeSamples)| == Number(baseline, Loaded(cfg.minLargeSamples))
  {
    hide Ranked, OfRank, Speeds, Samples, Percentile, Number, SlowPick, PercentileRank;
    var min, p := cfg.minLargeSamples, cfg.throughputSlowPct;
    SpeedSamples(baseline, min);
    SamplesHold(baseline, Loaded(min), Speed(), q);
    PickRank(baseline, min, p, q);
    RankedIs(baseline, Loaded(min), Speed(), PercentileRank(Number(baseline, Loaded(min)), p), q);
    assert |Speeds(baseline, min)| == Number(baseline, Loaded(min));
    PercentileAt(Speeds(baseline, min), p, q);
  }

  lemma ThroughputRuleIs(cand: Bucket, baseline: seq<Bucket>, cfg: Config, m: real, low: real, a: Alert)
    requires cfg.Valid() && a.metric == Throughput && Median(Speeds(baseline, cfg.minLargeSamples)) == Some(m)
    requires low == LowThreshold(Speeds(baseline, cfg.minLargeSamples), m, cfg)
    ensures a in ThroughputRule(cand, baseline, cfg) <==>
            cand.xfersBig >= cfg.minLargeSamples && cand.secsBig > 0.0 && m > 0.0
            && !MixedSizes(cand, baseline, cfg.minLargeSamples)
            && var value := cand.bytesBig as real / cand.secsBig;
               && value < low && a.start == cand.start && a.value == value && a.sampleCount == cand.xfersBig
               && a.baseline == Some(m) && a.threshold == low && (a.severity == Critical <==> value < low * 0.5)
  {
    hide Median, Speeds, LowThreshold, MixedSizes;
  }

  lemma SlowIs(value: real, t: real, x: real, y: real, q: real, many: bool, low: real)
    requires low == var l := if x <= y then x else y; if many && q < l then q else l
    ensures value < low <==> value < x && value < y && (many ==> value < q)
    ensures value < low * 0.5 <==> value < x * 0.5 && value < y * 0.5 && (many ==> value < q * 0.5)
    ensures t == low <==> t <= x && t <= y && (many ==> t <= q) && (t == x || t == y || (many && t == q))
  {}

  /** The speed rule. Over the baseline buckets with enough large files and some time, `m` is the median
      speed, `d` the median distance from it, `s` the median mean size, `q` the slow percentile. */
  lemma ThroughputExactly(cand: Bucket, baseline: seq<Bucket>, cfg: Config, m: real, d: real, s: real, q: real, a: Alert)
    requires cfg.Valid() && a.metric == Throughput
    requires MedianOf(baseline, Loaded(cfg.minLargeSamples), Speed(), m)
    requires MedianOf(baseline, Loaded(cfg.minLargeSamples), Distance(Speed(), m), d)
    requires MedianOf(baseline, Loaded(cfg.minLargeSamples), MeanSize(), s)
    requires SlowPick(baseline, cfg.minLargeSamples, cfg.throughputSlowPct, q)
    ensures a in EvalBucket(cand, baseline, cfg) <==>
            cand.xfersBig >= cfg.minLargeSamples && cand.secsBig > 0.0 && m > 0.0 && ComparableSize(cand, s)
            && Slow(a, cand.start, cand.bytesBig as real / cand.secsBig, cand.xfersBig, m,
                    m - cfg.madK * d, m * (1.0 - cfg.throughputDrop), q, Number(baseline, Loaded(cfg.minLargeSamples)) >= 20)
  {
    hide EvalBucket, MedianOf, Median, Mad, Speeds, Samples, Percentile, LowThreshold, SlowPick, ThroughputRule, Number, MixedSizes,
         ComparableSize;
    var min := cfg.minLargeSamples;
    var speeds, n := Speeds(baseline, min), Number(baseline, Loaded(min));
    var x, y := m - cfg.madK * d, m * (1.0 - cfg.throughputDrop);
    InRule(cand, baseline, cfg, a);
    SpreadIs(baseline, Loaded(min), Speed(), m, d);
    SpeedSamples(baseline, min);
    PickIs(baseline, cfg, q);
    LowIs(speeds, m, d, q, cfg, x, y);
    var low := LowThreshold(speeds, m, cfg);
    ThroughputRuleIs(cand, baseline, cfg, m, low, a);
    if cand.xfersBig >= min && cand.secsBig > 0.0 {
      SizesCompare(cand, baseline, min, s);
      SlowIs(cand.bytesBig as real / cand.secsBig, a.threshold, x, y, q, n >= 20, low);
    }
  }

  /** Without such buckets no speed is judged. */
  lemma ThroughputAlone(cand: Bucket, baseline: seq<Bucket>, cfg: Config, a: Alert)
    requires cfg.Valid() && a.metric == Throughput && NoneEligible(baseline, Loaded(cfg.minLargeSamples))
    ensures a !in EvalBucket(cand, baseline, cfg)
  {
    hide EvalBucket, Speeds, Samples, Median;
    InRule(cand, baseline, cfg, a);
    NoneSampled(baseline, Loaded(cfg.minLargeSamples), Speed());
    SpeedSamples(baseline, cfg.minLargeSamples);
    MedianExactly([], 0.0);
  }
}
