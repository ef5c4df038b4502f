/** `_eval_bucket` of was/app/service_monitor.py: the four rules that judge one closed bucket
    of a device against its baseline buckets. */
module Evaluator {
  import opened Wrappers
  import opened RobustStats

  datatype Metric = FailRate | Throughput | LoginFailRate | CwdFailSpike

  datatype Severity = Warning | Critical

  /** One service_metrics row of a device. */
  datatype Bucket = Bucket(
    start: int, transfers: nat, transferFails: nat, xfersBig: nat, bytesBig: nat, secsBig: real,
    loginAttempts: nat, loginFails: nat, cwdFails: nat)

  datatype Config = Config(
    madK: real, failRateFloor: real, loginFailRateFloor: real, throughputDrop: real,
    throughputSlowPct: real, cwdFailFloor: int,
    minSamples: nat, minLoginSamples: nat, minCwdSamples: nat, minLargeSamples: nat)
  {
    /** What the settings page enforces on the fields the evaluator divides by or ranks with. */
    ghost predicate Valid() {
      && minSamples >= 1 && minLoginSamples >= 1 && minCwdSamples >= 1 && minLargeSamples >= 1
      && throughputSlowPct >= 0.0
    }
  }

  datatype Alert = Alert(
    metric: Metric, start: int, severity: Severity, value: real, baseline: Option<real>,
    threshold: real, sampleCount: nat)

  const SIZE_MIX_TOLERANCE := 4.0
  const SLOW_PCT_MIN_BUCKETS := 20
  const CRITICAL_RATIO := 0.5
  /** Failure rates that are critical whatever the threshold. */
  const SERIOUS_FAIL_RATE := 0.5
  const SERIOUS_LOGIN_RATE := 0.7

  function Max(x: real, y: real): real { if x >= y then x else y }

  function Min(x: real, y: real): real { if x <= y then x else y }

  function Ratio(x: nat, y: nat): real
    requires y > 0
  {
    x as real / y as real
  }

  // ---------- Baseline samples ----------

  function TransferRates(rows: seq<Bucket>, min: nat): seq<real>
    requires min >= 1
  {
    if rows == [] then []
    else (if rows[0].transfers >= min then [Ratio(rows[0].transferFails, rows[0].transfers)] else [])
         + TransferRates(rows[1..], min)
  }

  function LoginRates(rows: seq<Bucket>, min: nat): seq<real>
    requires min >= 1
  {
    if rows == [] then []
    else (if rows[0].loginAttempts >= min then [Ratio(rows[0].loginFails, rows[0].loginAttempts)] else [])
         + LoginRates(rows[1..], min)
  }

  function CwdCounts(rows: seq<Bucket>, min: nat): seq<real> {
    if rows == [] then []
    else (if rows[0].cwdFails >= min then [rows[0].cwdFails as real] else []) + CwdCounts(rows[1..], min)
  }

  predicate HasSpeed(r: Bucket, min: nat) {
    r.xfersBig >= min && r.secsBig > 0.0
  }

  function Speeds(rows: seq<Bucket>, min: nat): seq<real> {
    if rows == [] then []
    else (if HasSpeed(rows[0], min) then [rows[0].bytesBig as real / rows[0].secsBig] else [])
         + Speeds(rows[1..], min)
  }

  function Sizes(rows: seq<Bucket>, min: nat): seq<real>
    requires min >= 1
  {
    if rows == [] then []
    else (if HasSpeed(rows[0], min) then [Ratio(rows[0].bytesBig, rows[0].xfersBig)] else [])
         + Sizes(rows[1..], min)
  }

  // ---------- Rules ----------

  function Upper(med: real, mad: real, k: real, floor: real): real {
    Max(med + k * mad, floor)
  }

  /** median + k * MAD, but never under the floor; the floor alone without a baseline. */
  function UpperThreshold(base: seq<real>, k: real, floor: real): real {
    match Median(base)
    case None => floor
    case Some(med) => Upper(med, Mad(base, med), k, floor)
  }

  /** The failure-rate rules: `serious` is the rate that is always critical. */
  function RateRule(metric: Metric, start: int, fails: nat, attempts: nat, base: seq<real>,
                    k: real, floor: real, serious: real): seq<Alert>
    requires attempts >= 1
  {
    var value := Ratio(fails, attempts);
    var thr := UpperThreshold(base, k, floor);
    if value > thr && value > 0.0 then
      [Alert(metric, start, if value >= Max(2.0 * thr, serious) then Critical else Warning,
             value, Median(base), thr, attempts)]
    else []
  }

  function FailRateRule(cand: Bucket, baseline: seq<Bucket>, cfg: Config): seq<Alert>
    requires cfg.Valid()
  {
    if cand.transfers >= cfg.minSamples then
      RateRule(FailRate, cand.start, cand.transferFails, cand.transfers,
               TransferRates(baseline, cfg.minSamples), cfg.madK, cfg.failRateFloor, SERIOUS_FAIL_RATE)
    else []
  }

  function LoginRule(cand: Bucket, baseline: seq<Bucket>, cfg: Config): seq<Alert>
    requires cfg.Valid()
  {
    if cand.loginAttempts >= cfg.minLoginSamples then
      RateRule(LoginFailRate, cand.start, cand.loginFails, cand.loginAttempts,
               LoginRates(baseline, cfg.minLoginSamples), cfg.madK, cfg.loginFailRateFloor, SERIOUS_LOGIN_RATE)
    else []
  }

  function CwdRule(cand: Bucket, baseline: seq<Bucket>, cfg: Config): seq<Alert> {
    if cand.cwdFails >= cfg.minCwdSamples then
      var value := cand.cwdFails as real;
      var base := CwdCounts(baseline, cfg.minCwdSamples);
      var thr := UpperThreshold(base, cfg.madK, cfg.cwdFailFloor as real);
      if value > thr then
        [Alert(CwdFailSpike, cand.start, if value >= 2.0 * thr then Critical else Warning,
               value, Median(base), thr, cand.cwdFails)]
      else []
    else []
  }

  /** Whether the mean size of large files differs too much from the baseline to compare speeds. */
  predicate MixedSizes(cand: Bucket, baseline: seq<Bucket>, min: nat)
    requires min >= 1 && cand.xfersBig >= min
  {
    match Median(Sizes(baseline, min))
    case None => false
    case Some(base) =>
      var avg := Ratio(cand.bytesBig, cand.xfersBig);
      base != 0.0 && !(base / SIZE_MIX_TOLERANCE <= avg <= base * SIZE_MIX_TOLERANCE)
  }

  function Lower(med: real, mad: real, k: real, drop: real): real {
    Min(med - k * mad, med * (1.0 - drop))
  }

  /** The speed under which a bucket is slow, for a device of positive median speed. */
  function LowThreshold(speeds: seq<real>, med: real, cfg: Config): real
    requires cfg.Valid() && Median(speeds) == Some(med)
  {
    var low := Lower(med, Mad(speeds, med), cfg.madK, cfg.throughputDrop);
    if |speeds| >= SLOW_PCT_MIN_BUCKETS
    then Min(low, Percentile(speeds, cfg.throughputSlowPct).value)
    else low
  }

  function ThroughputRule(cand: Bucket, baseline: seq<Bucket>, cfg: Config): seq<Alert>
    requires cfg.Valid()
  {
    if HasSpeed(cand, cfg.minLargeSamples) then
      var value := cand.bytesBig as real / cand.secsBig;
      var speeds := Speeds(baseline, cfg.minLargeSamples);
      match Median(speeds)
      case None => []
      case Some(med) =>
        if med > 0.0 && !MixedSizes(cand, baseline, cfg.minLargeSamples) then
          var low := LowThreshold(speeds, med, cfg);
          if value < low then
            [Alert(Throughput, cand.start, if value < low * CRITICAL_RATIO then Critical else Warning,
                   value, Some(med), low, cand.xfersBig)]
          else []
        else []
    else []
  }

  function EvalBucket(cand: Bucket, baseline: seq<Bucket>, cfg: Config): seq<Alert>
    requires cfg.Valid()
  {
    FailRateRule(cand, baseline, cfg) + ThroughputRule(cand, baseline, cfg)
    + LoginRule(cand, baseline, cfg) + CwdRule(cand, baseline, cfg)
  }

  // ---------- Reading an alert list ----------

  function Rank(s: Severity): nat {
    match s case Warning => 1 case Critical => 2
  }

  /** 0 when the metric raised no alert, else the rank of its worst alert. */
  function Level(alerts: seq<Alert>, m: Metric): nat {
    if alerts == [] then 0
    else
      var rest := Level(alerts[1..], m);
      if alerts[0].metric == m && Rank(alerts[0].severity) > rest then Rank(alerts[0].severity) else rest
  }

  lemma {:induction false} LevelConcat(a: seq<Alert>, b: seq<Alert>, m: Metric)
    ensures Level(a + b, m) == if Level(a, m) >= Level(b, m) then Level(a, m) else Level(b, m)
  {
    if a == [] {
      assert a + b == b;
    } else {
      LevelConcat(a[1..], b, m);
      assert (a + b)[1..] == a[1..] + b;
    }
  }

  ghost predicate Only(alerts: seq<Alert>, m: Metric) {
    forall i :: 0 <= i < |alerts| ==> alerts[i].metric == m
  }

  lemma {:induction false} LevelOfOthers(alerts: seq<Alert>, own: Metric, m: Metric)
    requires Only(alerts, own) && m != own
    ensures Level(alerts, m) == 0
  {
    if alerts != [] { LevelOfOthers(alerts[1..], own, m); }
  }

  function RuleOf(m: Metric, cand: Bucket, baseline: seq<Bucket>, cfg: Config): (r: seq<Alert>)
    requires cfg.Valid()
    ensures Only(r, m)
  {
    match m
    case FailRate => FailRateRule(cand, baseline, cfg)
    case Throughput => ThroughputRule(cand, baseline, cfg)
    case LoginFailRate => LoginRule(cand, baseline, cfg)
    case CwdFailSpike => CwdRule(cand, baseline, cfg)
  }

  lemma LevelOfFour(f: seq<Alert>, t: seq<Alert>, l: seq<Alert>, c: seq<Alert>, m: Metric)
    requires Only(f, FailRate) && Only(t, Throughput) && Only(l, LoginFailRate) && Only(c, CwdFailSpike)
    ensures Level(f + t + l + c, m) ==
            match m case FailRate => Level(f, m) case Throughput => Level(t, m)
                    case LoginFailRate => Level(l, m) case CwdFailSpike => Level(c, m)
  {
    LevelConcat(f, t, m);
    LevelConcat(f + t, l, m);
    LevelConcat(f + t + l, c, m);
    if m != FailRate { LevelOfOthers(f, FailRate, m); }
    if m != Throughput { LevelOfOthers(t, Throughput, m); }
    if m != LoginFailRate { LevelOfOthers(l, LoginFailRate, m); }
    if m != CwdFailSpike { LevelOfOthers(c, CwdFailSpike, m); }
  }

  /** Each metric's level is decided by its own rule. */
  lemma LevelOfEval(cand: Bucket, baseline: seq<Bucket>, cfg: Config, m: Metric)
    requires cfg.Valid()
    ensures Level(EvalBucket(cand, baseline, cfg), m) == Level(RuleOf(m, cand, baseline, cfg), m)
  {
    LevelOfFour(RuleOf(FailRate, cand, baseline, cfg), RuleOf(Throughput, cand, baseline, cfg),
                RuleOf(LoginFailRate, cand, baseline, cfg), RuleOf(CwdFailSpike, cand, baseline, cfg), m);
  }

  lemma RateRuleLevel(metric: Metric, start: int, fails: nat, attempts: nat, base: seq<real>,
                      k: real, floor: real, serious: real)
    requires attempts >= 1
    ensures Level(RateRule(metric, start, fails, attempts, base, k, floor, serious), metric)
         == LevelAt(Ratio(fails, attempts), UpperThreshold(base, k, floor), serious)
  {}

  /** The level of a value against a threshold; `serious` values are critical in any case. */
  function LevelAt(v: real, thr: real, serious: real): nat {
    if v > thr && v > 0.0 then if v >= Max(2.0 * thr, serious) then 2 else 1 else 0
  }

  // ---------- Robustness against a poisoned minority of the baseline ----------

  /** The highest an upper threshold can be when the baseline majority lies in [a, b]. */
  function Ceiling(a: real, b: real, k: real, floor: real): real {
    Max(b + k * (b - a), floor)
  }

  /** The highest a speed threshold can be then. */
  function SlowCeiling(b: real, drop: real): real {
    b * (1.0 - drop)
  }

  /** The lowest a speed threshold can be then, but for the percentile. */
  function SureSlow(a: real, b: real, k: real, drop: real): real {
    Min(a - k * (b - a), a * (1.0 - drop))
  }

  lemma MulMonotone(k: real, x: real, y: real)
    requires k >= 0.0 && x <= y
    ensures k * x <= k * y
  {}

  lemma UpperRange(med: real, mad: real, k: real, floor: real, a: real, b: real)
    requires a <= med <= b && 0.0 <= mad <= b - a && k >= 0.0
    ensures Max(a, floor) <= Upper(med, mad, k, floor) <= Ceiling(a, b, k, floor)
  {
    var w := b - a;
    MulMonotone(k, 0.0, mad);
    MulMonotone(k, mad, w);
    assert med + k * mad <= b + k * w;
  }

  lemma SpreadRange(med: real, mad: real, k: real, a: real, b: real)
    requires a <= med <= b && 0.0 <= mad <= b - a && k >= 0.0
    ensures a - k * (b - a) <= med - k * mad
  {
    var w := b - a;
    MulMonotone(k, mad, w);
    assert a - k * w <= med - k * mad;
  }

  lemma KeepRange(med: real, keep: real, a: real, b: real)
    requires a <= med <= b && keep >= 0.0
    ensures a * keep <= med * keep <= b * keep
  {
    MulMonotone(keep, a, med);
    MulMonotone(keep, med, b);
  }

  lemma LowerRange(med: real, mad: real, k: real, drop: real, a: real, b: real)
    requires a <= med <= b && 0.0 <= mad <= b - a && k >= 0.0 && drop <= 1.0
    ensures SureSlow(a, b, k, drop) <= Lower(med, mad, k, drop) <= SlowCeiling(b, drop)
  {
    hide Min;
    SpreadRange(med, mad, k, a, b);
    KeepRange(med, 1.0 - drop, a, b);
    MinMonotone(a - k * (b - a), med - k * mad, a * (1.0 - drop), med * (1.0 - drop));
    MinBelow(med - k * mad, med * (1.0 - drop));
  }

  lemma MinBelow(x: real, y: real)
    ensures Min(x, y) <= x && Min(x, y) <= y
  {}

  /** With a majority of the baseline in [a, b] the threshold stays in
      [max(a, floor), max(b + k(b-a), floor)], whatever the other samples are. */
  lemma UpperThresholdRobust(base: seq<real>, k: real, floor: real, a: real, b: real)
    requires Majority(base, a, b) && k >= 0.0
    ensures Max(a, floor) <= UpperThreshold(base, k, floor) <= Ceiling(a, b, k, floor)
  {
    MedianWithin(base, a, b);
    var med := Median(base).value;
    MadWithin(base, med, a, b);
    UpperRange(med, Mad(base, med), k, floor, a, b);
  }

  /** What a threshold known only to lie in [lo, hi] says of a value's level. */
  ghost predicate LevelWithin(level: nat, v: real, lo: real, hi: real, serious: real) {
    && (v <= lo ==> level == 0)
    && (v > hi && v > 0.0 ==> level > 0)
    && (v < Max(2.0 * lo, serious) ==> level <= 1)
    && (v > hi && v > 0.0 && v >= Max(2.0 * hi, serious) ==> level == 2)
  }

  lemma LevelAtWithin(v: real, thr: real, serious: real, lo: real, hi: real)
    requires lo <= thr <= hi
    ensures LevelWithin(LevelAt(v, thr, serious), v, lo, hi, serious)
  {}

  lemma RateRuleRobust(metric: Metric, start: int, fails: nat, attempts: nat, base: seq<real>,
                       k: real, floor: real, serious: real, a: real, b: real)
    requires attempts >= 1 && k >= 0.0 && Majority(base, a, b)
    ensures LevelWithin(Level(RateRule(metric, start, fails, attempts, base, k, floor, serious), metric),
                        Ratio(fails, attempts), Max(a, floor), Ceiling(a, b, k, floor), serious)
  {
    hide *;
    UpperThresholdRobust(base, k, floor, a, b);
    RateRuleLevel(metric, start, fails, attempts, base, k, floor, serious);
    LevelAtWithin(Ratio(fails, attempts), UpperThreshold(base, k, floor), serious,
                  Max(a, floor), Ceiling(a, b, k, floor));
  }

  /** A failure rate over the clean bound always alerts, and from twice that bound on (and 50%) is
      critical; one within the clean range never alerts, and one under twice its lower end (or
      under 50%) is never critical. */
  lemma FailRateRobust(cand: Bucket, baseline: seq<Bucket>, cfg: Config, a: real, b: real)
    requires cfg.Valid() && cfg.madK >= 0.0 && cand.transfers >= cfg.minSamples
    requires Majority(TransferRates(baseline, cfg.minSamples), a, b)
    ensures LevelWithin(Level(EvalBucket(cand, baseline, cfg), FailRate), Ratio(cand.transferFails, cand.transfers),
                        Max(a, cfg.failRateFloor), Ceiling(a, b, cfg.madK, cfg.failRateFloor), SERIOUS_FAIL_RATE)
  {
    hide TransferRates, Majority, Ratio, UpperThreshold, Level, RateRule, EvalBucket, Max, Ceiling, LevelWithin;
    RateRuleRobust(FailRate, cand.start, cand.transferFails, cand.transfers,
                   TransferRates(baseline, cfg.minSamples), cfg.madK, cfg.failRateFloor, SERIOUS_FAIL_RATE, a, b);
    LevelOfEval(cand, baseline, cfg, FailRate);
  }

  lemma LoginRobust(cand: Bucket, baseline: seq<Bucket>, cfg: Config, a: real, b: real)
    requires cfg.Valid() && cfg.madK >= 0.0 && cand.loginAttempts >= cfg.minLoginSamples
    requires Majority(LoginRates(baseline, cfg.minLoginSamples), a, b)
    ensures LevelWithin(Level(EvalBucket(cand, baseline, cfg), LoginFailRate), Ratio(cand.loginFails, cand.loginAttempts),
                        Max(a, cfg.loginFailRateFloor), Ceiling(a, b, cfg.madK, cfg.loginFailRateFloor), SERIOUS_LOGIN_RATE)
  {
    hide LoginRates, Majority, Ratio, UpperThreshold, Level, RateRule, EvalBucket, Max, Ceiling, LevelWithin;
    RateRuleRobust(LoginFailRate, cand.start, cand.loginFails, cand.loginAttempts,
                   LoginRates(baseline, cfg.minLoginSamples), cfg.madK, cfg.loginFailRateFloor, SERIOUS_LOGIN_RATE, a, b);
    LevelOfEval(cand, baseline, cfg, LoginFailRate);
  }

  lemma CwdRuleLevel(cand: Bucket, baseline: seq<Bucket>, cfg: Config)
    requires cand.cwdFails >= cfg.minCwdSamples
    ensures var v := cand.cwdFails as real;
            var thr := UpperThreshold(CwdCounts(baseline, cfg.minCwdSamples), cfg.madK, cfg.cwdFailFloor as real);
            Level(CwdRule(cand, baseline, cfg), CwdFailSpike) == if v > thr then if v >= 2.0 * thr then 2 else 1 else 0
  {
    hide CwdCounts, Mad;
  }

  lemma CwdRobust(cand: Bucket, baseline: seq<Bucket>, cfg: Config, a: real, b: real)
    requires cfg.Valid() && cfg.madK >= 0.0 && cand.cwdFails >= cfg.minCwdSamples
    requires Majority(CwdCounts(baseline, cfg.minCwdSamples), a, b)
    ensures var v, floor := cand.cwdFails as real, cfg.cwdFailFloor as real;
            var lo, hi := Max(a, floor), Ceiling(a, b, cfg.madK, floor);
            var level := Level(EvalBucket(cand, baseline, cfg), CwdFailSpike);
            && (v <= lo ==> level == 0) && (v > hi ==> level > 0)
            && (v < 2.0 * lo ==> level <= 1) && (v > hi && v >= 2.0 * hi ==> level == 2)
  {
    hide CwdCounts, Majority, Median, UpperThreshold, EvalBucket, Max, Level, CwdRule, Ceiling;
    UpperThresholdRobust(CwdCounts(baseline, cfg.minCwdSamples), cfg.madK, cfg.cwdFailFloor as real, a, b);
    CwdRuleLevel(cand, baseline, cfg);
    LevelOfEval(cand, baseline, cfg, CwdFailSpike);
  }

  lemma LowThresholdRobust(speeds: seq<real>, cfg: Config, a: real, b: real)
    requires cfg.Valid() && cfg.madK >= 0.0 && cfg.throughputDrop <= 1.0 && Majority(speeds, a, b)
    ensures Median(speeds).Some? && a <= Median(speeds).value
    ensures var low := LowThreshold(speeds, Median(speeds).value, cfg);
            && low <= SlowCeiling(b, cfg.throughputDrop)
            && (|speeds| < SLOW_PCT_MIN_BUCKETS
                ==> SureSlow(a, b, cfg.madK, cfg.throughputDrop) <= low)
  {
    hide Majority, Median, Mad, LowThreshold, Lower, SureSlow, SlowCeiling;
    MedianWithin(speeds, a, b);
    var med := Median(speeds).value;
    MadWithin(speeds, med, a, b);
    LowerRange(med, Mad(speeds, med), cfg.madK, cfg.throughputDrop, a, b);
    PercentileStep(speeds, med, cfg);
  }

  /** The percentile only lowers the threshold, and only for enough buckets. */
  lemma PercentileStep(speeds: seq<real>, med: real, cfg: Config)
    requires cfg.Valid() && Median(speeds) == Some(med)
    ensures var lower := Lower(med, Mad(speeds, med), cfg.madK, cfg.throughputDrop);
            && LowThreshold(speeds, med, cfg) <= lower
            && (|speeds| < SLOW_PCT_MIN_BUCKETS ==> LowThreshold(speeds, med, cfg) == lower)
            && (|speeds| >= SLOW_PCT_MIN_BUCKETS ==>
                  LowThreshold(speeds, med, cfg) <= Percentile(speeds, cfg.throughputSlowPct).value)
  {
    hide Median, Mad, Lower, Percentile;
  }

  function SpeedOf(cand: Bucket): real
    requires cand.secsBig > 0.0
  {
    cand.bytesBig as real / cand.secsBig
  }

  /** When the throughput rule applies. */
  predicate Comparable(cand: Bucket, baseline: seq<Bucket>, cfg: Config)
    requires cfg.Valid()
  {
    && HasSpeed(cand, cfg.minLargeSamples) && Median(Speeds(baseline, cfg.minLargeSamples)).Some?
    && Median(Speeds(baseline, cfg.minLargeSamples)).value > 0.0
    && !MixedSizes(cand, baseline, cfg.minLargeSamples)
  }

  lemma ThroughputLevel(cand: Bucket, baseline: seq<Bucket>, cfg: Config)
    requires cfg.Valid()
    ensures var speeds := Speeds(baseline, cfg.minLargeSamples);
            Level(RuleOf(Throughput, cand, baseline, cfg), Throughput)
              == if Comparable(cand, baseline, cfg) && SpeedOf(cand) < LowThreshold(speeds, Median(speeds).value, cfg)
                 then if SpeedOf(cand) < LowThreshold(speeds, Median(speeds).value, cfg) * CRITICAL_RATIO then 2 else 1
                 else 0
  {
    hide Median, Speeds, MixedSizes, LowThreshold;
  }

  /** A speed of at least b(1-drop) never alerts, and one of half of it never is critical. With too
      few buckets for the percentile, a comparable candidate slower than both a - k(b-a) and
      a(1-drop) always alerts, and one slower than half of both is critical. */
  lemma ThroughputRobust(cand: Bucket, baseline: seq<Bucket>, cfg: Config, a: real, b: real)
    requires cfg.Valid() && cfg.madK >= 0.0 && cfg.throughputDrop <= 1.0
    requires HasSpeed(cand, cfg.minLargeSamples)
    requires Majority(Speeds(baseline, cfg.minLargeSamples), a, b)
    ensures var level := Level(EvalBucket(cand, baseline, cfg), Throughput);
            && (SpeedOf(cand) >= SlowCeiling(b, cfg.throughputDrop) ==> level == 0)
            && (SpeedOf(cand) >= SlowCeiling(b, cfg.throughputDrop) * CRITICAL_RATIO ==> level <= 1)
    ensures a > 0.0 && !MixedSizes(cand, baseline, cfg.minLargeSamples)
            && |Speeds(baseline, cfg.minLargeSamples)| < SLOW_PCT_MIN_BUCKETS ==>
              var level := Level(EvalBucket(cand, baseline, cfg), Throughput);
              var sure := SureSlow(a, b, cfg.madK, cfg.throughputDrop);
              && (SpeedOf(cand) < sure ==> level > 0)
              && (SpeedOf(cand) < sure && SpeedOf(cand) < sure * CRITICAL_RATIO ==> level == 2)
  {
    hide Speeds, Median, MixedSizes, LowThreshold, EvalBucket, Level, RuleOf, Majority, SpeedOf, Min, SureSlow, SlowCeiling;
    LowThresholdRobust(Speeds(baseline, cfg.minLargeSamples), cfg, a, b);
    ThroughputLevel(cand, baseline, cfg);
    LevelOfEval(cand, baseline, cfg, Throughput);
  }

  // ---------- Slow-percentile guard ----------

  /** With 20 eligible baseline buckets or more, a throughput alert means that at most
      min(floor(n*p), n-1) of them were as slow as the candidate. */
  lemma SlowPercentileGuard(cand: Bucket, baseline: seq<Bucket>, cfg: Config)
    requires cfg.Valid()
    ensures var speeds := Speeds(baseline, cfg.minLargeSamples);
            Level(EvalBucket(cand, baseline, cfg), Throughput) > 0 && |speeds| >= SLOW_PCT_MIN_BUCKETS ==>
              && cand.secsBig > 0.0
              && Count(speeds, AtMost(SpeedOf(cand))) <= (|speeds| as real * cfg.throughputSlowPct).Floor
              && Count(speeds, AtMost(SpeedOf(cand))) <= |speeds| - 1
  {
    hide Level, EvalBucket, Median, Speeds, MixedSizes, Percentile, Count, Mad, Lower, SpeedOf, RuleOf, LowThreshold;
    LevelOfEval(cand, baseline, cfg, Throughput);
    ThroughputLevel(cand, baseline, cfg);
    var speeds := Speeds(baseline, cfg.minLargeSamples);
    if Level(EvalBucket(cand, baseline, cfg), Throughput) > 0 && |speeds| >= SLOW_PCT_MIN_BUCKETS {
      PercentileStep(speeds, Median(speeds).value, cfg);
      BelowPercentile(speeds, cfg.throughputSlowPct, SpeedOf(cand));
    }
  }

  // ---------- Sensitivity ----------

  /** `blunt` differs from `keen` only by knobs turned towards fewer alerts. */
  ghost predicate Blunter(blunt: Config, keen: Config) {
    && blunt.madK >= keen.madK
    && blunt.failRateFloor >= keen.failRateFloor
    && blunt.loginFailRateFloor >= keen.loginFailRateFloor
    && blunt.cwdFailFloor >= keen.cwdFailFloor
    && blunt.throughputDrop >= keen.throughputDrop
    && blunt.throughputSlowPct <= keen.throughputSlowPct
    && blunt.minSamples == keen.minSamples && blunt.minLoginSamples == keen.minLoginSamples
    && blunt.minCwdSamples == keen.minCwdSamples && blunt.minLargeSamples == keen.minLargeSamples
  }

  lemma UpperMonotone(med: real, mad: real, k: real, k': real, floor: real, floor': real)
    requires mad >= 0.0 && k <= k' && floor <= floor'
    ensures Upper(med, mad, k, floor) <= Upper(med, mad, k', floor')
  {
    MulMonotone(mad, k, k');
  }

  lemma UpperThresholdMonotone(base: seq<real>, k: real, k': real, floor: real, floor': real)
    requires k <= k' && floor <= floor'
    ensures UpperThreshold(base, k, floor) <= UpperThreshold(base, k', floor')
  {
    if Median(base).Some? {
      var med := Median(base).value;
      MadNonNegative(base, med);
      UpperMonotone(med, Mad(base, med), k, k', floor, floor');
    }
  }

  lemma KeepAntitone(med: real, drop: real, drop': real)
    requires med > 0.0 && drop <= drop'
    ensures med * (1.0 - drop') <= med * (1.0 - drop)
  {}

  lemma SpreadMonotone(mad: real, k: real, k': real)
    requires mad >= 0.0 && k <= k'
    ensures k * mad <= k' * mad
  {
    assert (k' - k) * mad >= 0.0;
  }

  lemma MinMonotone(x: real, x': real, y: real, y': real)
    requires x <= x' && y <= y'
    ensures Min(x, y) <= Min(x', y')
  {}

  lemma LowerAntitone(med: real, mad: real, k: real, k': real, drop: real, drop': real)
    requires med > 0.0 && mad >= 0.0 && k <= k' && drop <= drop'
    ensures Lower(med, mad, k', drop') <= Lower(med, mad, k, drop)
  {
    var wide, narrow := k' * mad, k * mad;
    var keep, keep' := med * (1.0 - drop), med * (1.0 - drop');
    SpreadMonotone(mad, k, k');
    assert keep' <= keep by { KeepAntitone(med, drop, drop'); }
    MinMonotone(med - wide, med - narrow, keep', keep);
  }

  lemma LowThresholdAntitone(speeds: seq<real>, med: real, blunt: Config, keen: Config)
    requires blunt.Valid() && keen.Valid() && Blunter(blunt, keen)
    requires Median(speeds) == Some(med) && med > 0.0
    ensures LowThreshold(speeds, med, blunt) <= LowThreshold(speeds, med, keen)
  {
    MadNonNegative(speeds, med);
    LowerAntitone(med, Mad(speeds, med), keen.madK, blunt.madK, keen.throughputDrop, blunt.throughputDrop);
    if |speeds| >= SLOW_PCT_MIN_BUCKETS {
      PercentileMonotone(speeds, blunt.throughputSlowPct, keen.throughputSlowPct);
    }
  }

  lemma RateRuleAntitone(metric: Metric, start: int, fails: nat, attempts: nat, base: seq<real>,
                         k: real, k': real, floor: real, floor': real, serious: real)
    requires attempts >= 1 && k <= k' && floor <= floor'
    ensures Level(RateRule(metric, start, fails, attempts, base, k', floor', serious), metric)
         <= Level(RateRule(metric, start, fails, attempts, base, k, floor, serious), metric)
  {
    UpperThresholdMonotone(base, k, k', floor, floor');
  }

  lemma ThroughputRuleAntitone(cand: Bucket, baseline: seq<Bucket>, blunt: Config, keen: Config)
    requires blunt.Valid() && keen.Valid() && Blunter(blunt, keen)
    ensures Level(ThroughputRule(cand, baseline, blunt), Throughput)
         <= Level(ThroughputRule(cand, baseline, keen), Throughput)
  {
    hide Speeds, Median, MixedSizes, LowThreshold, Level, ThroughputRule;
    var speeds := Speeds(baseline, keen.minLargeSamples);
    ThroughputLevel(cand, baseline, blunt);
    ThroughputLevel(cand, baseline, keen);
    RuleIsThroughput(cand, baseline, blunt);
    RuleIsThroughput(cand, baseline, keen);
    if Median(speeds).Some? && Median(speeds).value > 0.0 {
      LowThresholdAntitone(speeds, Median(speeds).value, blunt, keen);
    }
  }

  lemma RuleIsThroughput(cand: Bucket, baseline: seq<Bucket>, cfg: Config)
    requires cfg.Valid()
    ensures RuleOf(Throughput, cand, baseline, cfg) == ThroughputRule(cand, baseline, cfg)
  {}

  lemma RuleAntitone(cand: Bucket, baseline: seq<Bucket>, blunt: Config, keen: Config, m: Metric)
    requires blunt.Valid() && keen.Valid() && Blunter(blunt, keen)
    ensures Level(RuleOf(m, cand, baseline, blunt), m) <= Level(RuleOf(m, cand, baseline, keen), m)
  {
    hide TransferRates, LoginRates, CwdCounts, UpperThreshold, RateRule, ThroughputRule, Median;
    match m
    case FailRate =>
      if cand.transfers >= keen.minSamples {
        RateRuleAntitone(FailRate, cand.start, cand.transferFails, cand.transfers,
                         TransferRates(baseline, keen.minSamples), keen.madK, blunt.madK,
                         keen.failRateFloor, blunt.failRateFloor, SERIOUS_FAIL_RATE);
      }
    case LoginFailRate =>
      if cand.loginAttempts >= keen.minLoginSamples {
        RateRuleAntitone(LoginFailRate, cand.start, cand.loginFails, cand.loginAttempts,
                         LoginRates(baseline, keen.minLoginSamples), keen.madK, blunt.madK,
                         keen.loginFailRateFloor, blunt.loginFailRateFloor, SERIOUS_LOGIN_RATE);
      }
    case CwdFailSpike =>
      UpperThresholdMonotone(CwdCounts(baseline, keen.minCwdSamples), keen.madK, blunt.madK,
                             keen.cwdFailFloor as real, blunt.cwdFailFloor as real);
    case Throughput =>
      ThroughputRuleAntitone(cand, baseline, blunt, keen);
  }

  /** Turning any knob towards fewer alerts only removes metrics from the alert list, and
      never raises the severity of one that stays. */
  lemma KnobsAntitone(cand: Bucket, baseline: seq<Bucket>, blunt: Config, keen: Config, m: Metric)
    requires blunt.Valid() && keen.Valid() && Blunter(blunt, keen)
    ensures Level(EvalBucket(cand, baseline, blunt), m) <= Level(EvalBucket(cand, baseline, keen), m)
  {
    hide *;
    LevelOfEval(cand, baseline, blunt, m);
    LevelOfEval(cand, baseline, keen, m);
    RuleAntitone(cand, baseline, blunt, keen, m);
  }
}
