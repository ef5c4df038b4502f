/** The buckets of successive openings: with one worker and a clock that never runs back, openings
    of a device and metric cover disjoint increasing buckets exactly when the rollup interval is at
    most two buckets. */
module EpisodeRanges {
  import opened Wrappers
  import opened Evaluator
  import opened Episodes
  import opened EpisodeRecovery
  import opened EpisodeCounts

  /** Bucket size and rollup interval, in one unit of time. */
  datatype Timing = Timing(bucket: int, interval: int)

  datatype Clocked = Clocked(now: int, db: Db)

  datatype TimedStep = Tick(to: int) | Act(step: Step)

  /** A bucket `_detect` judges at `now`: aligned, closed, and not older than its window. */
  predicate Candidate(t: Timing, now: int, bucket: int)
    requires t.bucket > 0
  {
    bucket % t.bucket == 0 && now - t.interval - 2 * t.bucket <= bucket <= now - t.bucket
  }

  ghost predicate EnabledAt(t: Timing, s: Clocked, step: TimedStep)
    requires t.bucket > 0
  {
    match step
    case Tick(to) => s.now <= to
    case Act(act) =>
      && Enabled(s.db, act)
      && (act.Record? ==> Candidate(t, s.now, act.bucket))
      && (act.Resolve? ==> act.cutoff == s.now - t.bucket * RECOVERY_QUIET_BUCKETS)
  }

  function NextAt(t: Timing, s: Clocked, step: TimedStep): Clocked
    requires t.bucket > 0 && EnabledAt(t, s, step)
  {
    match step
    case Tick(to) => s.(now := to)
    case Act(act) => s.(db := Next(s.db, act))
  }

  ghost predicate LegalAt(t: Timing, s: Clocked, steps: seq<TimedStep>)
    requires t.bucket > 0
    decreases steps
  {
    steps == [] || (EnabledAt(t, s, steps[0]) && LegalAt(t, NextAt(t, s, steps[0]), steps[1..]))
  }

  function RunAt(t: Timing, s: Clocked, steps: seq<TimedStep>): Clocked
    requires t.bucket > 0 && LegalAt(t, s, steps)
    decreases steps
  {
    if steps == [] then s else RunAt(t, NextAt(t, s, steps[0]), steps[1..])
  }

  /** All buckets recorded in an opening are later than the last bucket of the opening before. */
  ghost predicate Later(h: History) {
    h.previous.Some? ==> forall i :: 0 <= i < |h.recorded| ==> h.recorded[i].bucket > h.previous.value
  }

  ghost predicate Increasing(db: Db) {
    forall k :: k in db.history ==> Later(db.history[k])
  }

  // ---------- Short intervals ----------

  /** The bucket ended an opening: it was recorded, and it is quiet for long enough. */
  ghost predicate Ended(t: Timing, s: Clocked, k: Subject, bucket: int)
    requires t.bucket > 0
  {
    AlertKey(k, bucket) in s.db.alerts && bucket % t.bucket == 0 && bucket < s.now - t.bucket * RECOVERY_QUIET_BUCKETS
  }

  ghost predicate Timely(t: Timing, s: Clocked, k: Subject)
    requires t.bucket > 0
  {
    k in s.db.episodes && k in s.db.history &&
    var e, h := s.db.episodes[k], s.db.history[k];
    && AlertKey(k, e.lastBucket) in s.db.alerts && e.lastBucket % t.bucket == 0
    && (e.resolved ==> Ended(t, s, k, e.lastBucket))
    && (h.previous.Some? ==> Ended(t, s, k, h.previous.value))
    && Later(h)
  }

  ghost predicate InvAt(t: Timing, s: Clocked)
    requires t.bucket > 0
  {
    s.db.history.Keys == s.db.episodes.Keys && forall k :: k in s.db.episodes ==> Timely(t, s, k)
  }

  lemma Multiples(size: int, a: int, b: int)
    requires size > 0 && a % size == 0 && b % size == 0 && a < b
    ensures a + size <= b
  {
    var i, j := a / size, b / size;
    Whole(size, a);
    Whole(size, b);
    Scaled(size, i, j);
  }

  lemma Whole(size: int, a: int)
    requires size > 0 && a % size == 0
    ensures a == (a / size) * size
  {}

  lemma Scaled(size: int, i: int, j: int)
    requires size > 0 && i * size < j * size
    ensures i * size + size <= j * size
  {
    if j <= i { Ordered(size, j, i); }
    else { Ordered(size, i + 1, j); }
  }

  lemma Ordered(size: int, i: int, j: int)
    requires size > 0 && i <= j
    ensures i * size <= j * size
  {}

  /** A bucket judged after an opening ended, and not recorded before, is later than its end. */
  lemma JudgedLater(t: Timing, s: Clocked, k: Subject, ended: int, bucket: int)
    requires t.bucket > 0 && t.interval <= 2 * t.bucket
    requires Ended(t, s, k, ended) && Candidate(t, s.now, bucket) && AlertKey(k, bucket) !in s.db.alerts
    ensures bucket > ended
  {
    if bucket < ended { Multiples(t.bucket, bucket, ended); }
  }

  lemma RecordTimely(t: Timing, s: Clocked, k: Subject, bucket: int, severity: Severity, m: int)
    requires t.bucket > 0 && t.interval <= 2 * t.bucket && Candidate(t, s.now, bucket)
    requires AlertKey(k, bucket) !in s.db.alerts && k in s.db.episodes ==> Timely(t, s, k)
    requires s.db.history.Keys == s.db.episodes.Keys && AlertKey(k, bucket) !in s.db.alerts
    ensures Timely(t, s.(db := AlertRecorded(s.db, k, bucket, severity, m)), k)
  {
    hide SendNow, Candidate;
    if k in s.db.episodes {
      var e, h := s.db.episodes[k], s.db.history[k];
      if e.resolved { JudgedLater(t, s, k, e.lastBucket, bucket); }
      if h.previous.Some? { JudgedLater(t, s, k, h.previous.value, bucket); }
    }
    assert bucket % t.bucket == 0 by { AlignedOf(t, s.now, bucket); }
  }

  lemma AlignedOf(t: Timing, now: int, bucket: int)
    requires t.bucket > 0 && Candidate(t, now, bucket)
    ensures bucket % t.bucket == 0
  {}

  lemma RecordOthers(t: Timing, s: Clocked, k: Subject, bucket: int, severity: Severity, m: int, x: Subject)
    requires t.bucket > 0 && Timely(t, s, x) && x != k
    ensures Timely(t, s.(db := AlertRecorded(s.db, k, bucket, severity, m)), x)
  {
    hide SendNow, Upserted, HistoryAfter, Later;
  }

  lemma StepAt(t: Timing, s: Clocked, step: TimedStep)
    requires t.bucket > 0 && t.interval <= 2 * t.bucket && InvAt(t, s) && EnabledAt(t, s, step)
    ensures InvAt(t, NextAt(t, s, step))
  {
    hide Candidate, Timely, AlertRecorded, Quieted, AlertsSent, RecoveriesSent, Sendable, Recoverable;
    match step
    case Tick(to) =>
      forall k | k in s.db.episodes ensures Timely(t, s.(now := to), k) { TickTimely(t, s, to, k); }
    case Act(act) =>
      match act {
        case Record(k, bucket, severity, m) => RecordAt(t, s, k, bucket, severity, m);
        case Resolve(cutoff) => ResolveAt(t, s, cutoff);
        case Notify(picked, d) => NotifyAt(t, s, picked, d);
        case Recover(picked, d) => RecoverAt(t, s, picked, d);
      }
  }

  lemma TickTimely(t: Timing, s: Clocked, to: int, k: Subject)
    requires t.bucket > 0 && s.now <= to && Timely(t, s, k)
    ensures Timely(t, s.(now := to), k)
  {
    hide Later;
  }

  lemma RecordAt(t: Timing, s: Clocked, k: Subject, bucket: int, severity: Severity, m: int)
    requires t.bucket > 0 && t.interval <= 2 * t.bucket && InvAt(t, s) && Candidate(t, s.now, bucket)
    ensures InvAt(t, s.(db := AlertRecorded(s.db, k, bucket, severity, m)))
  {
    hide Candidate, Timely, SendNow, Upserted, HistoryAfter;
    if AlertKey(k, bucket) !in s.db.alerts {
      RecordTimely(t, s, k, bucket, severity, m);
      forall x | x in s.db.episodes && x != k
        ensures Timely(t, s.(db := AlertRecorded(s.db, k, bucket, severity, m)), x)
      {
        RecordOthers(t, s, k, bucket, severity, m, x);
      }
    }
  }

  lemma ResolveAt(t: Timing, s: Clocked, cutoff: int)
    requires t.bucket > 0 && InvAt(t, s) && cutoff == s.now - t.bucket * RECOVERY_QUIET_BUCKETS
    ensures InvAt(t, s.(db := Quieted(s.db, cutoff)))
  {
    hide Later;
    assert forall k :: k in s.db.episodes ==> Timely(t, s, k);
  }

  lemma NotifyAt(t: Timing, s: Clocked, picked: seq<AlertKey>, d: Dispatch)
    requires t.bucket > 0 && InvAt(t, s) && Sendable(s.db, picked)
    ensures InvAt(t, s.(db := AlertsSent(s.db, picked, d)))
  {
    hide Later, Concerns, Sendable;
    assert forall k :: k in s.db.episodes ==> Timely(t, s, k);
  }

  lemma RecoverAt(t: Timing, s: Clocked, picked: seq<Subject>, d: Dispatch)
    requires t.bucket > 0 && InvAt(t, s) && Recoverable(s.db, picked)
    ensures InvAt(t, s.(db := RecoveriesSent(s.db, picked, d)))
  {
    hide Later;
    assert forall k :: k in s.db.episodes ==> Timely(t, s, k);
  }

  lemma {:induction false} RunInvAt(t: Timing, s: Clocked, steps: seq<TimedStep>)
    requires t.bucket > 0 && t.interval <= 2 * t.bucket && InvAt(t, s) && LegalAt(t, s, steps)
    ensures InvAt(t, RunAt(t, s, steps))
    decreases steps
  {
    hide InvAt, EnabledAt, NextAt;
    if steps != [] {
      StepAt(t, s, steps[0]);
      RunInvAt(t, NextAt(t, s, steps[0]), steps[1..]);
    }
  }

  // ---------- Long intervals ----------

  lemma RunStep(t: Timing, s: Clocked, step: TimedStep, s': Clocked, rest: seq<TimedStep>)
    requires t.bucket > 0 && EnabledAt(t, s, step) && NextAt(t, s, step) == s' && LegalAt(t, s', rest)
    ensures LegalAt(t, s, [step] + rest) && RunAt(t, s, [step] + rest) == RunAt(t, s', rest)
  {
    hide EnabledAt, NextAt;
    assert ([step] + rest)[1..] == rest;
  }

  function Once(k: Subject, bucket: int, resolved: bool): Db {
    Db(map[AlertKey(k, bucket) := AlertRow(Warning, false)],
       map[k := Episode(bucket, bucket, Warning, 1, false, resolved, false)],
       map[k := History(0, [Recorded(bucket, Warning, 1)], None)],
       map[AlertKey(k, bucket) := Origin(0, true)], [Opened(k, 0)])
  }

  lemma OpenOnce(k: Subject, bucket: int)
    ensures AlertRecorded(Empty(), k, bucket, Warning, 1) == Once(k, bucket, false)
  {}

  lemma CloseOnce(k: Subject, bucket: int, cutoff: int)
    requires bucket < cutoff
    ensures Quieted(Once(k, bucket, false), cutoff) == Once(k, bucket, true)
  {}

  lemma ReopenEarlier(k: Subject, bucket: int, earlier: int)
    requires earlier < bucket
    ensures !Increasing(AlertRecorded(Once(k, bucket, true), k, earlier, Warning, 1))
  {
    var db := AlertRecorded(Once(k, bucket, true), k, earlier, Warning, 1);
    assert db.history[k] == History(1, [Recorded(earlier, Warning, 1)], Some(bucket));
    assert db.history[k].recorded[0].bucket <= db.history[k].previous.value;
  }

  /** A run in which a late bucket reopens an episode behind its own end. */
  lemma LateBucket(t: Timing, k: Subject) returns (steps: seq<TimedStep>)
    requires t.bucket > 0 && t.interval > 2 * t.bucket
    ensures LegalAt(t, Clocked(0, Empty()), steps)
    ensures !Increasing(RunAt(t, Clocked(0, Empty()), steps).db)
  {
    hide LegalAt, RunAt, AlertRecorded, Quieted, Once, Empty, Increasing;
    var b := t.bucket;
    assert b % b == 0 && 0 % b == 0;
    OpenOnce(k, b);
    CloseOnce(k, b, b + 1);
    ReopenEarlier(k, b, 0);
    var s1 := Clocked(2 * b, Empty());
    var s2 := Clocked(2 * b, Once(k, b, false));
    var s3 := s2.(now := 4 * b + 1);
    var s4 := Clocked(4 * b + 1, Once(k, b, true));
    var s5 := s4.(db := AlertRecorded(s4.db, k, 0, Warning, 1));
    NoSteps(t, s5);
    var t5 := [Act(Record(k, 0, Warning, 1))] + [];
    RunStep(t, s4, Act(Record(k, 0, Warning, 1)), s5, []);
    var t4 := [Act(Resolve(b + 1))] + t5;
    RunStep(t, s3, Act(Resolve(b + 1)), s4, t5);
    var t3 := [Tick(4 * b + 1)] + t4;
    RunStep(t, s2, Tick(4 * b + 1), s3, t4);
    var t2 := [Act(Record(k, b, Warning, 1))] + t3;
    RunStep(t, s1, Act(Record(k, b, Warning, 1)), s2, t3);
    steps := [Tick(2 * b)] + t2;
    RunStep(t, Clocked(0, Empty()), Tick(2 * b), s1, t2);
  }

  lemma NoSteps(t: Timing, s: Clocked)
    requires t.bucket > 0
    ensures LegalAt(t, s, []) && RunAt(t, s, []) == s
  {}

  // ---------- The first bucket of an opening ----------

  lemma RecordLate(k: Subject, first: int, late: int)
    requires late < first
    ensures !Earliest(AlertRecorded(Once(k, first, false), k, late, Warning, 1), k)
  {
    var db := AlertRecorded(Once(k, first, false), k, late, Warning, 1);
    assert db.history[k].recorded[1].bucket == late && db.episodes[k].firstBucket == first;
  }

  /** Whatever the interval, a bucket filled late by logs that arrive late is recorded in an opening
      that began after it, and the episode's first bucket stays behind it. */
  lemma LateFirstBucket(t: Timing, k: Subject) returns (steps: seq<TimedStep>)
    requires t.bucket > 0 && t.interval >= 0
    ensures LegalAt(t, Clocked(0, Empty()), steps)
    ensures !Earliest(RunAt(t, Clocked(0, Empty()), steps).db, k)
  {
    hide LegalAt, RunAt, AlertRecorded, Quieted, Once, Empty, Earliest;
    var b := t.bucket;
    Doubled(b);
    OpenOnce(k, 2 * b);
    RecordLate(k, 2 * b, b);
    var s1 := Clocked(3 * b, Empty());
    var s2 := Clocked(3 * b, Once(k, 2 * b, false));
    var s3 := s2.(now := 3 * b + t.interval);
    var s4 := s3.(db := AlertRecorded(s3.db, k, b, Warning, 1));
    NoSteps(t, s4);
    var t4 := [Act(Record(k, b, Warning, 1))] + [];
    RunStep(t, s3, Act(Record(k, b, Warning, 1)), s4, []);
    var t3 := [Tick(3 * b + t.interval)] + t4;
    RunStep(t, s2, Tick(3 * b + t.interval), s3, t4);
    var t2 := [Act(Record(k, 2 * b, Warning, 1))] + t3;
    RunStep(t, s1, Act(Record(k, 2 * b, Warning, 1)), s2, t3);
    steps := [Tick(3 * b)] + t2;
    RunStep(t, Clocked(0, Empty()), Tick(3 * b), s1, t2);
  }

  lemma Doubled(b: int)
    requires b > 0
    ensures (2 * b) % b == 0 && b % b == 0
  {
    assert (b + b) % b == b % b;
  }

  // ---------- Exactly ----------

  lemma EmptyAt(t: Timing)
    requires t.bucket > 0
    ensures InvAt(t, Clocked(0, Empty()))
  {}

  lemma InvIncreasing(t: Timing, s: Clocked)
    requires t.bucket > 0 && InvAt(t, s)
    ensures Increasing(s.db)
  {
    hide Later;
    assert forall k :: k in s.db.episodes ==> Timely(t, s, k);
  }

  /** Openings cover increasing buckets in every run if and only if the interval is at most two
      buckets. */
  lemma RangesIncreaseExactly(t: Timing)
    requires t.bucket > 0
    ensures (forall steps :: LegalAt(t, Clocked(0, Empty()), steps) ==> Increasing(RunAt(t, Clocked(0, Empty()), steps).db))
       <==> t.interval <= 2 * t.bucket
  {
    hide LegalAt, RunAt, Empty, Increasing, InvAt;
    if t.interval <= 2 * t.bucket {
      EmptyAt(t);
      forall steps | LegalAt(t, Clocked(0, Empty()), steps)
        ensures Increasing(RunAt(t, Clocked(0, Empty()), steps).db)
      {
        RunInvAt(t, Clocked(0, Empty()), steps);
        InvIncreasing(t, RunAt(t, Clocked(0, Empty()), steps));
      }
    } else {
      var steps := LateBucket(t, Subject(0, FailRate));
    }
  }
}
