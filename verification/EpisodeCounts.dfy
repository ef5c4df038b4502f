/** What an episode row counts, and how many alerts one opening can send, over every run. The streak
    settings may change at any time: each alert is judged by the setting it was recorded with. */
module EpisodeCounts {
  import opened Wrappers
  import opened Evaluator
  import opened Episodes
  import opened EpisodeRecovery

  // ---------- The recorded severities alone ----------

  /** The severity of an opening in which these alerts were recorded. */
  function Worst(rs: seq<Recorded>): Severity
    requires rs != []
    decreases |rs|
  {
    var n := |rs| - 1;
    if n == 0 || rs[n].severity == Critical then rs[n].severity else Worst(rs[..n])
  }

  predicate CriticalIn(rs: seq<Recorded>, lo: nat, hi: nat)
    requires hi <= |rs|
  {
    exists i :: lo <= i < hi && rs[i].severity == Critical
  }

  lemma {:induction false} WorstMeans(rs: seq<Recorded>)
    requires rs != []
    ensures Worst(rs) == Critical <==> CriticalIn(rs, 0, |rs|)
    decreases |rs|
  {
    var n := |rs| - 1;
    if n > 0 && rs[n].severity != Critical {
      WorstMeans(rs[..n]);
      if CriticalIn(rs, 0, |rs|) {
        var i :| 0 <= i < |rs| && rs[i].severity == Critical;
        assert rs[..n][i] == rs[i];
      }
    }
  }

  /** Whether the i-th alert of an opening is left queued for sending. */
  predicate QueuedAt(rs: seq<Recorded>, i: nat)
    requires i < |rs|
  {
    ShouldNotify(i, if i == 0 then None else Some(Worst(rs[..i])), rs[i].severity, rs[i].minStreak)
  }

  /** The number of alerts left queued. */
  function Sends(rs: seq<Recorded>): nat {
    if rs == [] then 0
    else Sends(rs[..|rs| - 1]) + if QueuedAt(rs, |rs| - 1) then 1 else 0
  }

  /** The i-th alert completes the streak of the setting it was recorded with. */
  predicate Completes(rs: seq<Recorded>, i: nat)
    requires i < |rs|
  {
    i + 1 == rs[i].minStreak
  }

  /** The i-th alert is the first critical one, and comes after its streak was complete. */
  predicate Escalates(rs: seq<Recorded>, i: nat)
    requires i < |rs|
  {
    i >= rs[i].minStreak && rs[i].severity == Critical && !CriticalIn(rs, 0, i)
  }

  lemma QueuedExactly(rs: seq<Recorded>, i: nat)
    requires i < |rs|
    ensures QueuedAt(rs, i) <==> Completes(rs, i) || Escalates(rs, i)
  {
    if i > 0 {
      WorstMeans(rs[..i]);
      assert CriticalIn(rs, 0, i) <==> CriticalIn(rs[..i], 0, i) by {
        assert forall j :: 0 <= j < i ==> rs[..i][j] == rs[j];
      }
    }
  }

  /** How many alerts complete the streak. */
  function Completions(rs: seq<Recorded>): nat {
    if rs == [] then 0
    else Completions(rs[..|rs| - 1]) + if Completes(rs, |rs| - 1) then 1 else 0
  }

  predicate AnyEscalates(rs: seq<Recorded>) {
    exists i :: 0 <= i < |rs| && Escalates(rs, i)
  }

  lemma EscalatesPrefix(rs: seq<Recorded>, n: nat)
    requires n < |rs|
    ensures forall i :: 0 <= i < n ==> Escalates(rs[..n], i) == Escalates(rs, i)
    ensures AnyEscalates(rs[..n]) && Escalates(rs, n) ==> false
  {
    forall i | 0 <= i < n ensures Escalates(rs[..n], i) == Escalates(rs, i) {
      assert forall j :: 0 <= j < n ==> rs[..n][j] == rs[j];
      assert CriticalIn(rs[..n], 0, i) == CriticalIn(rs, 0, i);
    }
  }

  /** Whatever the settings were: one alert for each time a streak is complete, and at most one more
      for the turn to critical. */
  lemma {:induction false} SendsExactly(rs: seq<Recorded>)
    ensures Sends(rs) == Completions(rs) + if AnyEscalates(rs) then 1 else 0
    decreases |rs|
  {
    hide QueuedAt, Escalates, Completes;
    if rs != [] {
      var n := |rs| - 1;
      SendsExactly(rs[..n]);
      QueuedExactly(rs, n);
      EscalatesPrefix(rs, n);
      assert AnyEscalates(rs) <==> AnyEscalates(rs[..n]) || Escalates(rs, n);
      NotBoth(rs, n);
    }
  }

  lemma NotBoth(rs: seq<Recorded>, i: nat)
    requires i < |rs|
    ensures !(Completes(rs, i) && Escalates(rs, i))
  {}

  predicate Constant(rs: seq<Recorded>, m: int) {
    forall i :: 0 <= i < |rs| ==> rs[i].minStreak == m
  }

  lemma {:induction false} CompletionsOfConstant(rs: seq<Recorded>, m: int)
    requires m >= 1 && Constant(rs, m)
    ensures Completions(rs) == if |rs| >= m then 1 else 0
    decreases |rs|
  {
    if rs != [] { CompletionsOfConstant(rs[..|rs| - 1], m); }
  }

  /** While the setting stays the same in an opening: one alert once the streak is complete, and one
      more if it turns critical only after. */
  lemma SendsClosedForm(rs: seq<Recorded>, m: int)
    requires m >= 1 && Constant(rs, m)
    ensures Sends(rs) == (if |rs| >= m then 1 else 0)
                       + (if |rs| > m && !CriticalIn(rs, 0, m) && CriticalIn(rs, m, |rs|) then 1 else 0)
  {
    SendsExactly(rs);
    CompletionsOfConstant(rs, m);
    if |rs| > m && !CriticalIn(rs, 0, m) && CriticalIn(rs, m, |rs|) {
      var i := FirstCritical(rs, |rs|);
      assert Escalates(rs, i);
    }
    if i :| 0 <= i < |rs| && Escalates(rs, i) {
      assert CriticalIn(rs, m, |rs|) && |rs| > m && !CriticalIn(rs, 0, m);
    }
  }

  /** The promise for the streak alone: at every moment of the opening one alert has gone to the queue
      for it if the streak is complete by the setting then in force, and none if it is not. */
  ghost predicate OnceByNow(rs: seq<Recorded>) {
    forall n :: 1 <= n <= |rs| ==> Completions(rs[..n]) == if n >= rs[n - 1].minStreak then 1 else 0
  }

  /** No change of the setting crosses the number of alerts counted so far. */
  predicate NeverCrosses(rs: seq<Recorded>) {
    && (rs != [] ==> rs[0].minStreak >= 1)
    && forall n :: 1 <= n < |rs| ==> (n >= rs[n - 1].minStreak <==> n >= rs[n].minStreak)
  }

  lemma CompletionsStep(rs: seq<Recorded>, n: nat)
    requires n < |rs|
    ensures Completions(rs[..n + 1]) == Completions(rs[..n]) + if n + 1 == rs[n].minStreak then 1 else 0
  {
    assert rs[..n + 1][..n] == rs[..n];
  }

  /** The streak is announced once per opening, at the right moment, if and only if no change of the
      setting crosses the count: raised above it a complete streak is announced again, lowered to it
      or below, an incomplete one never. */
  lemma {:induction false} OnceExactly(rs: seq<Recorded>)
    ensures OnceByNow(rs) <==> NeverCrosses(rs)
    decreases |rs|
  {
    hide Completions;
    if rs != [] {
      var n := |rs| - 1;
      var was := rs[..n];
      OnceExactly(was);
      CompletionsStep(rs, n);
      NoCompletions();
      assert forall j :: 0 <= j <= n ==> was[..j] == rs[..j];
      assert rs[..0] == [] && rs[..n + 1] == rs;
      assert OnceByNow(rs) <==> OnceByNow(was) && Completions(rs) == if |rs| >= rs[n].minStreak then 1 else 0;
    }
  }

  lemma NoCompletions()
    ensures Completions([]) == 0
  {}

  lemma {:induction false} FirstCritical(rs: seq<Recorded>, hi: nat) returns (i: nat)
    requires hi <= |rs| && CriticalIn(rs, 0, hi)
    ensures i < hi && rs[i].severity == Critical && !CriticalIn(rs, 0, i)
    decreases hi
  {
    if CriticalIn(rs, 0, hi - 1) { i := FirstCritical(rs, hi - 1); } else { i := hi - 1; }
  }

  /** Whatever the settings were, their largest value and one more bound the number. */
  lemma {:induction false} SendsBounded(rs: seq<Recorded>, largest: nat)
    requires forall i :: 0 <= i < |rs| ==> rs[i].minStreak <= largest
    ensures Sends(rs) <= largest + 1
  {
    SendsExactly(rs);
    CompletionsBounded(rs, largest);
  }

  lemma {:induction false} CompletionsBounded(rs: seq<Recorded>, largest: nat)
    requires forall i :: 0 <= i < |rs| ==> rs[i].minStreak <= largest
    ensures Completions(rs) <= largest && Completions(rs) <= |rs|
    decreases |rs|
  {
    if rs != [] { CompletionsBounded(rs[..|rs| - 1], largest); }
  }

  lemma QueuedPrefix(rs: seq<Recorded>, more: seq<Recorded>, i: nat)
    requires i < |rs|
    ensures QueuedAt(rs + more, i) == QueuedAt(rs, i)
  {
    assert (rs + more)[..i] == rs[..i];
  }

  // ---------- What the tables hold ----------

  /** The alerts of one opening that were left queued, and those of them not sent yet. */
  function QueuedIn(db: Db, k: Subject, opening: nat): set<AlertKey> {
    set a | a in db.origin && a.subject == k && db.origin[a].opening == opening && db.origin[a].queued
  }

  function WaitingIn(db: Db, k: Subject, opening: nat): set<AlertKey> {
    set a | a in db.origin && a in db.alerts && a.subject == k && db.origin[a].opening == opening && !db.alerts[a].notified
  }

  /** Position i of the current opening has its alert row, queued or not as its position says. */
  ghost predicate RecordedRow(db: Db, k: Subject, h: History, i: nat) {
    i < |h.recorded| &&
    var a := AlertKey(k, h.recorded[i].bucket);
    && a in db.alerts && db.alerts[a].severity == h.recorded[i].severity
    && a in db.origin && db.origin[a] == Origin(h.opening, QueuedAt(h.recorded, i))
  }

  /** An alert row belongs to the current opening exactly if it is one of its positions. */
  ghost predicate Placed(db: Db, k: Subject, e: Episode, h: History, a: AlertKey) {
    a in db.origin && a.subject == k &&
    a.bucket <= e.lastBucket && db.origin[a].opening <= h.opening
    && (db.origin[a].opening == h.opening ==> exists i :: 0 <= i < |h.recorded| && h.recorded[i].bucket == a.bucket)
  }

  /** The episode row sums up what was recorded. */
  ghost predicate Summary(e: Episode, h: History) {
    && h.recorded != [] && e.alertCount == |h.recorded| && e.severity == Worst(h.recorded)
    && e.firstBucket == h.recorded[0].bucket && Latest(e.lastBucket, h)
  }

  /** The latest bucket recorded so far, in this opening or before it. */
  ghost predicate Latest(last: int, h: History) {
    && (forall i :: 0 <= i < |h.recorded| ==> h.recorded[i].bucket <= last)
    && (h.previous.Some? ==> h.previous.value <= last)
    && ((exists i :: 0 <= i < |h.recorded| && h.recorded[i].bucket == last) || h.previous == Some(last))
  }

  /** The alert rows of the opening are its positions, each bucket once. */
  ghost predicate Rows(db: Db, k: Subject, e: Episode, h: History) {
    && (forall i, j :: 0 <= i < j < |h.recorded| ==> h.recorded[i].bucket != h.recorded[j].bucket)
    && (forall i :: 0 <= i < |h.recorded| ==> RecordedRow(db, k, h, i))
    && (forall a :: a in db.origin && a.subject == k ==> Placed(db, k, e, h, a))
  }

  ghost predicate Counted(db: Db, k: Subject) {
    && k in db.episodes && k in db.history
    && Summary(db.episodes[k], db.history[k])
    && Rows(db, k, db.episodes[k], db.history[k])
  }

  ghost predicate Tables(db: Db) {
    db.origin.Keys == db.alerts.Keys && db.history.Keys == db.episodes.Keys
    && (forall a :: a in db.origin ==> a.subject in db.episodes)
    && (forall a :: a in db.origin && !db.origin[a].queued ==> db.alerts[a].notified)
  }

  ghost predicate AllCounted(db: Db) {
    Tables(db) && forall k :: k in db.episodes ==> Counted(db, k)
  }

  // ---------- Recording ----------

  lemma RecordTables(db: Db, k: Subject, bucket: int, severity: Severity, m: int)
    requires Tables(db)
    ensures Tables(AlertRecorded(db, k, bucket, severity, m))
  {
    hide SendNow, Upserted, HistoryAfter;
  }

  /** The rows of other devices and metrics. */
  lemma RecordOther(db: Db, k: Subject, bucket: int, severity: Severity, m: int, x: Subject)
    requires Counted(db, x) && x != k
    ensures Counted(AlertRecorded(db, k, bucket, severity, m), x)
  {
    hide SendNow, Upserted, HistoryAfter, QueuedAt, Worst;
    var db' := AlertRecorded(db, k, bucket, severity, m);
    var h := db.history[x];
    forall i | 0 <= i < |h.recorded| ensures RecordedRow(db', x, h, i) {
      assert RecordedRow(db, x, h, i);
    }
    forall a | a in db'.origin && a.subject == x ensures Placed(db', x, db.episodes[x], h, a) {
      assert Placed(db, x, db.episodes[x], h, a);
    }
  }

  lemma LatestMore(last: int, h: History, r: Recorded)
    requires Latest(last, h)
    ensures Latest(if last >= r.bucket then last else r.bucket, h.(recorded := h.recorded + [r]))
  {
    var h' := h.(recorded := h.recorded + [r]);
    assert h'.recorded[|h.recorded|] == r;
    if i :| 0 <= i < |h.recorded| && h.recorded[i].bucket == last { assert h'.recorded[i].bucket == last; }
  }

  lemma LatestNew(last: int, h: History, r: Recorded, previous: Option<int>)
    requires h.recorded == [r] && h.previous == previous
    requires last == if previous.Some? && previous.value >= r.bucket then previous.value else r.bucket
    ensures Latest(last, h)
  {
    assert h.recorded[0] == r;
  }

  /** The row after recording sums up one alert more; that alert is queued as its position says. */
  lemma RecordSummary(db: Db, k: Subject, bucket: int, severity: Severity, m: int)
    requires AllCounted(db)
    ensures var h := HistoryAfter(db, k, bucket, severity, m);
            QueuedAt(h.recorded, |h.recorded| - 1) == SendNow(db, k, severity, m)
    ensures Summary(Upserted(db, k, bucket, severity), HistoryAfter(db, k, bucket, severity, m))
  {
    hide Rows, Latest;
    var h := HistoryAfter(db, k, bucket, severity, m);
    if Ongoing(db, k) {
      assert Counted(db, k);
      assert h.recorded[..|h.recorded| - 1] == db.history[k].recorded;
      LatestMore(db.episodes[k].lastBucket, db.history[k], Recorded(bucket, severity, m));
    } else {
      LatestNew(Upserted(db, k, bucket, severity).lastBucket, h, Recorded(bucket, severity, m),
                if k in db.episodes then Some(db.episodes[k].lastBucket) else None);
    }
  }

  lemma RecordNew(db: Db, k: Subject, bucket: int, severity: Severity, m: int)
    requires AllCounted(db) && AlertKey(k, bucket) !in db.alerts && !Ongoing(db, k)
    ensures Rows(AlertRecorded(db, k, bucket, severity, m), k, Upserted(db, k, bucket, severity), HistoryAfter(db, k, bucket, severity, m))
  {
    hide SendNow, QueuedAt, Summary, RecordedRow, Placed, AlertRecorded, Upserted;
    var db' := AlertRecorded(db, k, bucket, severity, m);
    var e, h := Upserted(db, k, bucket, severity), HistoryAfter(db, k, bucket, severity, m);
    RowOfRecord(db, k, bucket, severity, m);
    OriginOf(db, k, bucket, severity, m);
    forall a | a in db'.origin && a.subject == k ensures Placed(db', k, e, h, a) {
      if a != AlertKey(k, bucket) { assert Counted(db, k) && Placed(db, k, db.episodes[k], db.history[k], a); }
      FreshPlace(db, k, bucket, severity, m, a);
    }
  }

  lemma FreshPlace(db: Db, k: Subject, bucket: int, severity: Severity, m: int, a: AlertKey)
    requires AlertKey(k, bucket) !in db.alerts && !Ongoing(db, k)
    requires a == AlertKey(k, bucket)
          || (k in db.episodes && k in db.history && Placed(db, k, db.episodes[k], db.history[k], a))
    ensures Placed(AlertRecorded(db, k, bucket, severity, m), k, Upserted(db, k, bucket, severity), HistoryAfter(db, k, bucket, severity, m), a)
  {
    hide SendNow;
    assert HistoryAfter(db, k, bucket, severity, m).recorded[0].bucket == bucket;
  }

  lemma RowOfRecord(db: Db, k: Subject, bucket: int, severity: Severity, m: int)
    requires AllCounted(db) && AlertKey(k, bucket) !in db.alerts
    ensures var h := HistoryAfter(db, k, bucket, severity, m);
            RecordedRow(AlertRecorded(db, k, bucket, severity, m), k, h, |h.recorded| - 1)
  {
    hide SendNow, QueuedAt, AllCounted, Upserted;
    RecordSummary(db, k, bucket, severity, m);
  }

  lemma RecordMore(db: Db, k: Subject, bucket: int, severity: Severity, m: int)
    requires AllCounted(db) && AlertKey(k, bucket) !in db.alerts && Ongoing(db, k)
    ensures Rows(AlertRecorded(db, k, bucket, severity, m), k, Upserted(db, k, bucket, severity), HistoryAfter(db, k, bucket, severity, m))
  {
    hide SendNow, QueuedAt, Summary, RecordedRow, Placed, AlertRecorded, Upserted;
    var db' := AlertRecorded(db, k, bucket, severity, m);
    var e, h, h' := Upserted(db, k, bucket, severity), db.history[k], HistoryAfter(db, k, bucket, severity, m);
    assert Counted(db, k);
    RowOfRecord(db, k, bucket, severity, m);
    forall i | 0 <= i < |h.recorded| ensures RecordedRow(db', k, h', i) && h.recorded[i].bucket != bucket {
      KeptRow(db, k, bucket, severity, m, i);
    }
    forall a | a in db'.origin && a.subject == k ensures Placed(db', k, e, h', a) {
      OriginOf(db, k, bucket, severity, m);
      KeptPlace(db, k, bucket, severity, m, a);
    }
  }

  lemma OriginOf(db: Db, k: Subject, bucket: int, severity: Severity, m: int)
    ensures AlertRecorded(db, k, bucket, severity, m).origin.Keys <= db.origin.Keys + {AlertKey(k, bucket)}
  {}

  lemma KeptRow(db: Db, k: Subject, bucket: int, severity: Severity, m: int, i: nat)
    requires AlertKey(k, bucket) !in db.alerts && Ongoing(db, k) && k in db.history
    requires RecordedRow(db, k, db.history[k], i)
    ensures RecordedRow(AlertRecorded(db, k, bucket, severity, m), k, HistoryAfter(db, k, bucket, severity, m), i)
    ensures db.history[k].recorded[i].bucket != bucket
  {
    hide SendNow, QueuedAt, Upserted;
    QueuedPrefix(db.history[k].recorded, [Recorded(bucket, severity, m)], i);
  }

  lemma KeptPlace(db: Db, k: Subject, bucket: int, severity: Severity, m: int, a: AlertKey)
    requires AlertKey(k, bucket) !in db.alerts && Ongoing(db, k) && k in db.history
    requires a == AlertKey(k, bucket) || Placed(db, k, db.episodes[k], db.history[k], a)
    ensures var db' := AlertRecorded(db, k, bucket, severity, m);
            Placed(db', k, Upserted(db, k, bucket, severity), HistoryAfter(db, k, bucket, severity, m), a)
  {
    hide SendNow;
    var db' := AlertRecorded(db, k, bucket, severity, m);
    var rs, rs' := db.history[k].recorded, db'.history[k].recorded;
    assert rs'[|rs|].bucket == bucket;
    if a != AlertKey(k, bucket) && db.origin[a].opening == db.history[k].opening {
      var i :| 0 <= i < |rs| && rs[i].bucket == a.bucket;
      assert rs'[i] == rs[i];
    }
  }

  lemma RecordCounted(db: Db, k: Subject, bucket: int, severity: Severity, m: int)
    requires AllCounted(db)
    ensures AllCounted(AlertRecorded(db, k, bucket, severity, m))
  {
    hide SendNow, Upserted, HistoryAfter, Counted, Tables;
    if AlertKey(k, bucket) !in db.alerts {
      var db' := AlertRecorded(db, k, bucket, severity, m);
      RecordTables(db, k, bucket, severity, m);
      forall x | x in db'.episodes ensures Counted(db', x) {
        if x != k { RecordOther(db, k, bucket, severity, m, x); }
        else {
          RecordSummary(db, k, bucket, severity, m);
          if Ongoing(db, k) { RecordMore(db, k, bucket, severity, m); } else { RecordNew(db, k, bucket, severity, m); }
          RecordOwn(db, k, bucket, severity, m);
        }
      }
    }
  }

  lemma RecordOwn(db: Db, k: Subject, bucket: int, severity: Severity, m: int)
    requires AlertKey(k, bucket) !in db.alerts
    requires Summary(Upserted(db, k, bucket, severity), HistoryAfter(db, k, bucket, severity, m))
    requires Rows(AlertRecorded(db, k, bucket, severity, m), k, Upserted(db, k, bucket, severity), HistoryAfter(db, k, bucket, severity, m))
    ensures Counted(AlertRecorded(db, k, bucket, severity, m), k)
  {
    hide Summary, Rows, Upserted, HistoryAfter, SendNow;
  }

  // ---------- The other steps ----------

  /** Steps that touch only the flags of the rows. */
  ghost predicate SameCounts(db: Db, db': Db) {
    && db'.history == db.history && db'.origin == db.origin
    && db'.alerts.Keys == db.alerts.Keys && db'.episodes.Keys == db.episodes.Keys
    && (forall a :: a in db.alerts ==> db'.alerts[a].severity == db.alerts[a].severity
                                       && (db.alerts[a].notified ==> db'.alerts[a].notified))
    && (forall k :: k in db.episodes ==>
          var e, e' := db.episodes[k], db'.episodes[k];
          e' == e.(notified := e'.notified, resolved := e'.resolved, recoveryNotified := e'.recoveryNotified))
  }

  lemma SameRows(db: Db, db': Db, k: Subject, h: History)
    requires k in db.episodes && k in db'.episodes && SameCounts(db, db') && Rows(db, k, db.episodes[k], h)
    ensures Rows(db', k, db'.episodes[k], h)
  {
    hide QueuedAt;
    forall i | 0 <= i < |h.recorded| ensures RecordedRow(db', k, h, i) {
      assert RecordedRow(db, k, h, i);
    }
    forall a | a in db.origin && a.subject == k ensures Placed(db', k, db'.episodes[k], h, a) {
      assert Placed(db, k, db.episodes[k], h, a);
    }
  }

  lemma SameCounted(db: Db, db': Db)
    requires AllCounted(db) && SameCounts(db, db')
    ensures AllCounted(db')
  {
    hide Rows, Worst;
    forall k | k in db'.episodes ensures Counted(db', k) {
      assert Counted(db, k);
      SameRows(db, db', k, db.history[k]);
    }
  }

  lemma NotifySame(db: Db, picked: seq<AlertKey>, d: Dispatch)
    requires Sendable(db, picked)
    ensures SameCounts(db, AlertsSent(db, picked, d))
  {
    hide Concerns, Sendable;
  }

  lemma OtherSteps(db: Db, step: Step)
    requires Enabled(db, step) && !step.Record?
    ensures SameCounts(db, Next(db, step))
  {
    hide AlertsSent, Sendable;
    if step.Notify? { NotifySame(db, step.alerts, step.dispatch); }
  }

  lemma StepCounted(db: Db, step: Step)
    requires AllCounted(db) && Enabled(db, step)
    ensures AllCounted(Next(db, step))
  {
    hide AllCounted, AlertRecorded, Quieted, AlertsSent, RecoveriesSent, Sendable, Recoverable, SameCounts;
    if step.Record? {
      RecordCounted(db, step.subject, step.bucket, step.severity, step.minStreak);
    } else {
      OtherSteps(db, step);
      SameCounted(db, Next(db, step));
    }
  }

  // ---------- The queued alerts of an opening ----------

  function PositionKeys(k: Subject, rs: seq<Recorded>, n: nat): set<AlertKey>
    requires n <= |rs|
  {
    set i | 0 <= i < n && QueuedAt(rs, i) :: AlertKey(k, rs[i].bucket)
  }

  lemma KeysGrow(k: Subject, rs: seq<Recorded>, n: nat)
    requires n < |rs| && forall i, j :: 0 <= i < j < |rs| ==> rs[i].bucket != rs[j].bucket
    ensures |PositionKeys(k, rs, n + 1)| == |PositionKeys(k, rs, n)| + if QueuedAt(rs, n) then 1 else 0
  {
    hide QueuedAt;
    var a := AlertKey(k, rs[n].bucket);
    assert a !in PositionKeys(k, rs, n);
    assert PositionKeys(k, rs, n + 1) == PositionKeys(k, rs, n) + (if QueuedAt(rs, n) then {a} else {});
  }

  lemma SendsGrow(rs: seq<Recorded>, n: nat)
    requires n < |rs|
    ensures Sends(rs[..n + 1]) == Sends(rs[..n]) + if QueuedAt(rs, n) then 1 else 0
  {
    hide QueuedAt;
    assert rs[..n + 1][..n] == rs[..n];
    QueuedPrefix(rs[..n + 1], rs[n + 1..], n);
    assert rs[..n + 1] + rs[n + 1..] == rs;
  }

  lemma {:induction false} KeysCount(k: Subject, rs: seq<Recorded>, n: nat)
    requires n <= |rs| && forall i, j :: 0 <= i < j < |rs| ==> rs[i].bucket != rs[j].bucket
    ensures |PositionKeys(k, rs, n)| == Sends(rs[..n])
  {
    hide QueuedAt, Sends, PositionKeys;
    if n == 0 {
      NoKeys(k, rs);
    } else {
      KeysCount(k, rs, n - 1);
      KeysGrow(k, rs, n - 1);
      SendsGrow(rs, n - 1);
    }
  }

  lemma NoKeys(k: Subject, rs: seq<Recorded>)
    ensures PositionKeys(k, rs, 0) == {} && Sends(rs[..0]) == 0
  {}

  /** Left queued in the current opening are as many alerts as the closed form says. */
  lemma QueuedCount(db: Db, k: Subject)
    requires AllCounted(db) && k in db.episodes
    ensures Counted(db, k)
    ensures |QueuedIn(db, k, db.history[k].opening)| == Sends(db.history[k].recorded)
  {
    hide QueuedAt, Summary;
    assert Counted(db, k);
    var h := db.history[k];
    var n := |h.recorded|;
    forall a | a in QueuedIn(db, k, h.opening) ensures a in PositionKeys(k, h.recorded, n) {
      assert Placed(db, k, db.episodes[k], h, a);
      var i :| 0 <= i < n && h.recorded[i].bucket == a.bucket;
      assert RecordedRow(db, k, h, i);
    }
    forall a | a in PositionKeys(k, h.recorded, n) ensures a in QueuedIn(db, k, h.opening) {
      var i :| 0 <= i < n && QueuedAt(h.recorded, i) && AlertKey(k, h.recorded[i].bucket) == a;
      assert RecordedRow(db, k, h, i);
    }
    assert QueuedIn(db, k, h.opening) == PositionKeys(k, h.recorded, n);
    KeysCount(k, h.recorded, n);
    assert h.recorded[..n] == h.recorded;
  }

  // ---------- What is sent ----------

  /** How many alerts of the opening went out. */
  function Announced(log: seq<Event>, k: Subject, opening: nat): nat {
    multiset(log)[Alerted(k, opening)]
  }

  /** No alert of the opening goes out that was not queued, or twice. */
  ghost predicate WithinBudget(db: Db, k: Subject, opening: nat) {
    Announced(db.log, k, opening) + |WaitingIn(db, k, opening)| <= |QueuedIn(db, k, opening)|
  }

  function PickedOf(db: Db, picked: seq<AlertKey>, k: Subject, opening: nat): set<AlertKey> {
    set a | a in picked && a in db.origin && a.subject == k && db.origin[a].opening == opening
  }

  lemma PickedMore(db: Db, picked: seq<AlertKey>, last: AlertKey, k: Subject, opening: nat)
    requires last in db.origin && last !in picked
    ensures |PickedOf(db, picked + [last], k, opening)|
         == |PickedOf(db, picked, k, opening)| + if last.subject == k && db.origin[last].opening == opening then 1 else 0
  {
    assert PickedOf(db, picked + [last], k, opening)
        == PickedOf(db, picked, k, opening) + if last.subject == k && db.origin[last].opening == opening then {last} else {};
  }

  lemma {:induction false} SentCount(db: Db, picked: seq<AlertKey>, k: Subject, opening: nat)
    requires forall i, j :: 0 <= i < j < |picked| ==> picked[i] != picked[j]
    requires forall a :: a in picked ==> a in db.origin
    ensures Announced(AlertEvents(db, picked), k, opening) == |PickedOf(db, picked, k, opening)|
    decreases |picked|
  {
    hide PickedOf;
    if picked == [] {
      assert PickedOf(db, [], k, opening) == {} by { NothingPicked(db, k, opening); }
    } else {
      var n := |picked| - 1;
      var last := picked[n];
      assert picked == picked[..n] + [last];
      SentCount(db, picked[..n], k, opening);
      PickedMore(db, picked[..n], last, k, opening);
      assert AlertEvents(db, picked) == AlertEvents(db, picked[..n]) + [Alerted(last.subject, db.origin[last].opening)];
    }
  }

  lemma NothingPicked(db: Db, k: Subject, opening: nat)
    ensures PickedOf(db, [], k, opening) == {}
  {}

  /** Sending takes the picked alerts off the waiting ones. */
  lemma NotifyWaiting(db: Db, picked: seq<AlertKey>, d: Dispatch, k: Subject, opening: nat)
    requires Tables(db) && Sendable(db, picked) && picked != [] && d != NotSent
    ensures |WaitingIn(AlertsSent(db, picked, d), k, opening)|
         == |WaitingIn(db, k, opening)| - |PickedOf(db, picked, k, opening)|
  {
    assert PickedOf(db, picked, k, opening) <= WaitingIn(db, k, opening);
    assert WaitingIn(AlertsSent(db, picked, d), k, opening) == WaitingIn(db, k, opening) - PickedOf(db, picked, k, opening);
  }

  lemma NotifyBudget(db: Db, picked: seq<AlertKey>, d: Dispatch, k: Subject, opening: nat)
    requires Tables(db) && Sendable(db, picked) && WithinBudget(db, k, opening)
    ensures WithinBudget(AlertsSent(db, picked, d), k, opening)
  {
    hide PickedOf, WaitingIn;
    var db' := AlertsSent(db, picked, d);
    assert QueuedIn(db', k, opening) == QueuedIn(db, k, opening);
    if picked != [] && d != NotSent {
      NotifyWaiting(db, picked, d, k, opening);
      SentCount(db, picked, k, opening);
    }
  }

  /** The one alert that recording adds to an opening's queue. */
  function QueuedNow(db: Db, x: Subject, bucket: int, severity: Severity, m: int, k: Subject, opening: nat): set<AlertKey> {
    if x == k && HistoryAfter(db, x, bucket, severity, m).opening == opening && SendNow(db, x, severity, m)
    then {AlertKey(x, bucket)} else {}
  }

  lemma RecordQueues(db: Db, x: Subject, bucket: int, severity: Severity, m: int, k: Subject, opening: nat)
    requires AlertKey(x, bucket) !in db.alerts && Tables(db)
    ensures var db' := AlertRecorded(db, x, bucket, severity, m);
            var mine := QueuedNow(db, x, bucket, severity, m, k, opening);
            && QueuedIn(db', k, opening) == QueuedIn(db, k, opening) + mine
            && WaitingIn(db', k, opening) == WaitingIn(db, k, opening) + mine
            && QueuedIn(db, k, opening) !! mine && WaitingIn(db, k, opening) !! mine
  {
    hide SendNow, Upserted, HistoryAfter, AlertRecorded, QueuedIn, WaitingIn;
    RecordQueued(db, x, bucket, severity, m, k, opening);
    RecordWaiting(db, x, bucket, severity, m, k, opening);
  }

  lemma RecordQueued(db: Db, x: Subject, bucket: int, severity: Severity, m: int, k: Subject, opening: nat)
    requires AlertKey(x, bucket) !in db.alerts && Tables(db)
    ensures var mine := QueuedNow(db, x, bucket, severity, m, k, opening);
            && QueuedIn(AlertRecorded(db, x, bucket, severity, m), k, opening) == QueuedIn(db, k, opening) + mine
            && QueuedIn(db, k, opening) !! mine
  {
    hide SendNow, Upserted, HistoryAfter;
  }

  lemma RecordWaiting(db: Db, x: Subject, bucket: int, severity: Severity, m: int, k: Subject, opening: nat)
    requires AlertKey(x, bucket) !in db.alerts && Tables(db)
    ensures var mine := QueuedNow(db, x, bucket, severity, m, k, opening);
            && WaitingIn(AlertRecorded(db, x, bucket, severity, m), k, opening) == WaitingIn(db, k, opening) + mine
            && WaitingIn(db, k, opening) !! mine
  {
    hide SendNow, Upserted, HistoryAfter;
  }

  lemma RecordBudget(db: Db, x: Subject, bucket: int, severity: Severity, m: int, k: Subject, opening: nat)
    requires Tables(db) && WithinBudget(db, k, opening)
    ensures WithinBudget(AlertRecorded(db, x, bucket, severity, m), k, opening)
  {
    hide QueuedIn, WaitingIn, SendNow, Upserted;
    if AlertKey(x, bucket) !in db.alerts {
      RecordQueues(db, x, bucket, severity, m, k, opening);
    }
  }

  lemma RecoverBudget(db: Db, picked: seq<Subject>, d: Dispatch, k: Subject, opening: nat)
    requires Recoverable(db, picked) && WithinBudget(db, k, opening)
    ensures WithinBudget(RecoveriesSent(db, picked, d), k, opening)
  {
    var db' := RecoveriesSent(db, picked, d);
    assert Announced(db'.log, k, opening) == Announced(db.log, k, opening);
    assert QueuedIn(db', k, opening) == QueuedIn(db, k, opening);
    assert WaitingIn(db', k, opening) == WaitingIn(db, k, opening);
  }

  lemma StepBudget(db: Db, step: Step, k: Subject, opening: nat)
    requires AllCounted(db) && Enabled(db, step) && WithinBudget(db, k, opening)
    ensures WithinBudget(Next(db, step), k, opening)
  {
    hide AllCounted, AlertRecorded, AlertsSent, RecoveriesSent, Sendable, Recoverable;
    TablesOf(db);
    match step
    case Record(x, bucket, severity, m) => RecordBudget(db, x, bucket, severity, m, k, opening);
    case Resolve(cutoff) =>
      assert QueuedIn(Quieted(db, cutoff), k, opening) == QueuedIn(db, k, opening);
      assert WaitingIn(Quieted(db, cutoff), k, opening) == WaitingIn(db, k, opening);
    case Notify(picked, d) => NotifyBudget(db, picked, d, k, opening);
    case Recover(picked, d) => RecoverBudget(db, picked, d, k, opening);
  }

  lemma TablesOf(db: Db)
    requires AllCounted(db)
    ensures Tables(db)
  {}

  // ---------- Over every run ----------

  lemma {:induction false} RunCounted(db: Db, steps: seq<Step>)
    requires AllCounted(db) && Legal(db, steps)
    ensures AllCounted(Run(db, steps))
    decreases steps
  {
    hide AllCounted, Enabled, Next;
    if steps != [] {
      StepCounted(db, steps[0]);
      RunCounted(Next(db, steps[0]), steps[1..]);
    }
  }

  lemma {:induction false} RunBudget(db: Db, steps: seq<Step>, k: Subject, opening: nat)
    requires AllCounted(db) && Legal(db, steps) && WithinBudget(db, k, opening)
    ensures WithinBudget(Run(db, steps), k, opening)
    decreases steps
  {
    hide AllCounted, Enabled, Next, WithinBudget;
    if steps != [] {
      StepCounted(db, steps[0]);
      StepBudget(db, steps[0], k, opening);
      RunBudget(Next(db, steps[0]), steps[1..], k, opening);
    }
  }

  /** In every reachable state an episode row counts the distinct buckets of its opening, none later
      than its last bucket, and has their worst severity; its first bucket is the one recorded
      first. The alerts left queued are as many as their own streak settings say, and as the closed
      form says where the setting did not change within the opening. */
  lemma EpisodesCount(steps: seq<Step>, k: Subject, m: int)
    requires Legal(Empty(), steps) && k in Run(Empty(), steps).episodes
    ensures var db := Run(Empty(), steps);
            Counted(db, k) && db.episodes[k].firstBucket <= db.episodes[k].lastBucket
    ensures var db := Run(Empty(), steps);
            var rs := db.history[k].recorded;
            |QueuedIn(db, k, db.history[k].opening)| == Completions(rs) + if AnyEscalates(rs) then 1 else 0
    ensures var db := Run(Empty(), steps);
            var rs := db.history[k].recorded;
            m >= 1 && Constant(rs, m) ==>
              |QueuedIn(db, k, db.history[k].opening)|
                == (if |rs| >= m then 1 else 0)
                 + (if |rs| > m && !CriticalIn(rs, 0, m) && CriticalIn(rs, m, |rs|) then 1 else 0)
  {
    hide Legal, Run, QueuedAt, Summary, Constant, AnyEscalates;
    RunCounted(Empty(), steps);
    var db := Run(Empty(), steps);
    QueuedCount(db, k);
    SendsExactly(db.history[k].recorded);
    if m >= 1 && Constant(db.history[k].recorded, m) { SendsClosedForm(db.history[k].recorded, m); }
    SpanOf(db, k);
  }

  lemma SpanOf(db: Db, k: Subject)
    requires Counted(db, k)
    ensures db.episodes[k].firstBucket <= db.episodes[k].lastBucket
  {
    var h := db.history[k];
    assert RecordedRow(db, k, h, 0);
    assert Placed(db, k, db.episodes[k], h, AlertKey(k, h.recorded[0].bucket));
  }

  /** Over every run, however often sending fails, no more alerts of an opening go out than were queued. */
  lemma AnnouncedWereQueued(steps: seq<Step>, k: Subject, opening: nat)
    requires Legal(Empty(), steps)
    ensures Announced(Run(Empty(), steps).log, k, opening) <= |QueuedIn(Run(Empty(), steps), k, opening)|
  {
    hide Legal, Run;
    assert QueuedIn(Empty(), k, opening) == {} && WaitingIn(Empty(), k, opening) == {};
    RunBudget(Empty(), steps, k, opening);
  }

  /** ... and with the queue of the tables: the current opening has queued one alert if its streak is
      complete by the setting now in force, and one more if it escalated, when no change crossed. */
  lemma StreakOnce(steps: seq<Step>, k: Subject)
    requires Legal(Empty(), steps) && k in Run(Empty(), steps).episodes && k in Run(Empty(), steps).history
    requires NeverCrosses(Run(Empty(), steps).history[k].recorded)
    ensures var db := Run(Empty(), steps);
            var rs := db.history[k].recorded;
            && rs != []
            && |QueuedIn(db, k, db.history[k].opening)|
                 == (if |rs| >= rs[|rs| - 1].minStreak then 1 else 0) + if AnyEscalates(rs) then 1 else 0
  {
    hide Legal, Run, Completions, AnyEscalates, QueuedIn;
    var rs := Run(Empty(), steps).history[k].recorded;
    EpisodesCount(steps, k, 1);
    OnceExactly(rs);
    assert rs[..|rs|] == rs;
  }

  // ---------- Settings that cross nothing ----------

  /** If the step records in that opening of `k`, its setting is not across the count. */
  ghost predicate Straight(db: Db, step: Step, k: Subject, opening: nat) {
    step.Record? && step.subject == k && AlertKey(k, step.bucket) !in db.alerts ==>
      var h := HistoryAfter(db, k, step.bucket, step.severity, step.minStreak);
      h.opening == opening ==> NeverCrosses(h.recorded)
  }

  ghost predicate AllStraight(db: Db, steps: seq<Step>, k: Subject, opening: nat)
    requires Legal(db, steps)
    decreases steps
  {
    steps != [] ==> Straight(db, steps[0], k, opening) && AllStraight(Next(db, steps[0]), steps[1..], k, opening)
  }

  lemma SendsAtMostTwo(rs: seq<Recorded>)
    requires NeverCrosses(rs)
    ensures Sends(rs) <= 2
  {
    hide Sends, Completions, AnyEscalates;
    SendsExactly(rs);
    OnceExactly(rs);
    NoCompletions();
    assert rs[..|rs|] == rs;
  }

  lemma RecordModest(db: Db, x: Subject, bucket: int, severity: Severity, s: int, k: Subject, opening: nat)
    requires AllCounted(db) && |QueuedIn(db, k, opening)| <= 2 && Straight(db, Record(x, bucket, severity, s), k, opening)
    ensures |QueuedIn(AlertRecorded(db, x, bucket, severity, s), k, opening)| <= 2
  {
    hide AllCounted, QueuedIn, WaitingIn, SendNow, Upserted, QueuedNow, Counted, Sends, NeverCrosses;
    var db' := AlertRecorded(db, x, bucket, severity, s);
    if AlertKey(x, bucket) !in db.alerts {
      TablesOf(db);
      RecordCounted(db, x, bucket, severity, s);
      RecordQueues(db, x, bucket, severity, s, k, opening);
      if x == k && db'.history[k].opening == opening {
        QueuedCount(db', k);
        SendsAtMostTwo(db'.history[k].recorded);
      } else {
        NothingQueued(db, x, bucket, severity, s, k, opening);
      }
    }
  }

  lemma NothingQueued(db: Db, x: Subject, bucket: int, severity: Severity, s: int, k: Subject, opening: nat)
    requires x != k || HistoryAfter(db, x, bucket, severity, s).opening != opening
    ensures QueuedNow(db, x, bucket, severity, s, k, opening) == {}
  {}

  lemma StepModest(db: Db, step: Step, k: Subject, opening: nat)
    requires AllCounted(db) && |QueuedIn(db, k, opening)| <= 2 && Enabled(db, step) && Straight(db, step, k, opening)
    ensures |QueuedIn(Next(db, step), k, opening)| <= 2
  {
    hide AllCounted, AlertRecorded, Quieted, AlertsSent, RecoveriesSent, Sendable, Recoverable;
    if step.Record? {
      RecordModest(db, step.subject, step.bucket, step.severity, step.minStreak, k, opening);
    } else {
      OtherSteps(db, step);
      assert QueuedIn(Next(db, step), k, opening) == QueuedIn(db, k, opening);
    }
  }

  lemma {:induction false} RunModest(db: Db, steps: seq<Step>, k: Subject, opening: nat)
    requires AllCounted(db) && |QueuedIn(db, k, opening)| <= 2 && Legal(db, steps) && AllStraight(db, steps, k, opening)
    ensures |QueuedIn(Run(db, steps), k, opening)| <= 2
    decreases steps
  {
    hide AllCounted, Enabled, Next, QueuedIn, Straight;
    if steps != [] {
      StepCounted(db, steps[0]);
      StepModest(db, steps[0], k, opening);
      RunModest(Next(db, steps[0]), steps[1..], k, opening);
    }
  }

  /** Over every run: an opening in which no change of the setting crosses the count is announced at
      most twice, whatever the settings in the openings before and after it. */
  lemma TwoAlertsAtMost(steps: seq<Step>, k: Subject, opening: nat)
    requires Legal(Empty(), steps) && AllStraight(Empty(), steps, k, opening)
    ensures Announced(Run(Empty(), steps).log, k, opening) <= |QueuedIn(Run(Empty(), steps), k, opening)| <= 2
  {
    hide Legal, Run, AllStraight;
    AnnouncedWereQueued(steps, k, opening);
    assert QueuedIn(Empty(), k, opening) == {};
    RunModest(Empty(), steps, k, opening);
  }

  /** The step records nothing in that opening of `k`, or with the setting `m`. */
  ghost predicate Steady(db: Db, step: Step, k: Subject, opening: nat, m: int) {
    step.Record? && step.subject == k && AlertKey(k, step.bucket) !in db.alerts ==>
      (HistoryAfter(db, k, step.bucket, step.severity, step.minStreak).opening == opening ==> step.minStreak == m)
  }

  ghost predicate AllSteady(db: Db, steps: seq<Step>, k: Subject, opening: nat, m: int)
    requires Legal(db, steps)
    decreases steps
  {
    steps != [] ==> Steady(db, steps[0], k, opening, m) && AllSteady(Next(db, steps[0]), steps[1..], k, opening, m)
  }

  /** What of the opening is recorded so far was recorded with `m`. */
  ghost predicate SoFar(db: Db, k: Subject, opening: nat, m: int) {
    k in db.history && db.history[k].opening == opening ==> Constant(db.history[k].recorded, m)
  }

  lemma StepSteady(db: Db, step: Step, k: Subject, opening: nat, m: int)
    requires SoFar(db, k, opening, m) && m >= 1 && Enabled(db, step) && Steady(db, step, k, opening, m)
    ensures SoFar(Next(db, step), k, opening, m) && Straight(db, step, k, opening)
  {
    hide AlertsSent, Sendable, Recoverable, SendNow, Upserted;
    if step.Notify? { NotifySame(db, step.alerts, step.dispatch); }
  }

  lemma {:induction false} SteadyIsStraight(db: Db, steps: seq<Step>, k: Subject, opening: nat, m: int)
    requires SoFar(db, k, opening, m) && m >= 1 && Legal(db, steps) && AllSteady(db, steps, k, opening, m)
    ensures AllStraight(db, steps, k, opening)
    decreases steps
  {
    hide Enabled, Next, SoFar, Steady, Straight;
    if steps != [] {
      StepSteady(db, steps[0], k, opening, m);
      SteadyIsStraight(Next(db, steps[0]), steps[1..], k, opening, m);
    }
  }

  /** In particular one all of whose own alerts were recorded with one setting. */
  lemma TwoWithOneSetting(steps: seq<Step>, k: Subject, opening: nat, m: int)
    requires Legal(Empty(), steps) && AllSteady(Empty(), steps, k, opening, m) && m >= 1
    ensures AllStraight(Empty(), steps, k, opening)
    ensures Announced(Run(Empty(), steps).log, k, opening) <= 2
  {
    hide Legal, Run, AllSteady, AllStraight;
    SteadyIsStraight(Empty(), steps, k, opening, m);
    TwoAlertsAtMost(steps, k, opening);
  }

  // ---------- Raised settings ----------

  /** Buckets i up to n, each recorded with a streak setting one larger than the one before, and
      each alert sent at once. */
  function Rising(k: Subject, i: nat, n: nat): seq<Step>
    requires i <= n
    decreases n - i
  {
    if i == n then []
    else [Record(k, i, Warning, i + 1), Notify([AlertKey(k, i)], Sent)] + Rising(k, i + 1, n)
  }

  /** What the tables hold after n of these buckets. */
  ghost predicate Raised(db: Db, k: Subject, n: nat) {
    && AllCounted(db)
    && (if n == 0 then k !in db.episodes
        else k in db.history && db.history[k].opening == 0 && Ongoing(db, k) && db.episodes[k].alertCount == n)
    && (forall a :: a in db.alerts && a.subject == k ==> a.bucket < n)
    && Announced(db.log, k, 0) == |QueuedIn(db, k, 0)| == n
  }

  lemma RaisedRecord(db: Db, k: Subject, n: nat)
    requires Raised(db, k, n)
    ensures var db' := AlertRecorded(db, k, n, Warning, n + 1);
            && AlertKey(k, n) in db'.alerts && !db'.alerts[AlertKey(k, n)].notified
            && AlertKey(k, n) in db'.origin && db'.origin[AlertKey(k, n)].opening == 0
            && k in db'.history && db'.history[k].opening == 0 && Ongoing(db', k) && db'.episodes[k].alertCount == n + 1
            && (forall a :: a in db'.alerts && a.subject == k ==> a.bucket < n + 1)
            && Announced(db'.log, k, 0) == n && |QueuedIn(db', k, 0)| == n + 1
  {
    hide AllCounted, QueuedIn, WaitingIn;
    TablesOf(db);
    RecordQueues(db, k, n, Warning, n + 1, k, 0);
    assert k in db.history <==> k in db.episodes;
  }

  lemma RaisedSend(db: Db, k: Subject, n: nat)
    requires AlertKey(k, n) in db.alerts && AlertKey(k, n) in db.origin && !db.alerts[AlertKey(k, n)].notified
    requires db.origin[AlertKey(k, n)].opening == 0 && Ongoing(db, k)
    ensures Sendable(db, [AlertKey(k, n)])
    ensures var db' := AlertsSent(db, [AlertKey(k, n)], Sent);
            && db'.history == db.history && db'.alerts.Keys == db.alerts.Keys
            && Ongoing(db', k) && db'.episodes[k].alertCount == db.episodes[k].alertCount
            && Announced(db'.log, k, 0) == Announced(db.log, k, 0) + 1 && QueuedIn(db', k, 0) == QueuedIn(db, k, 0)
  {
    hide Concerns;
    assert AlertEvents(db, [AlertKey(k, n)]) == [Alerted(k, 0)];
  }

  lemma RaisedStep(db: Db, k: Subject, n: nat) returns (db': Db)
    requires Raised(db, k, n)
    ensures Enabled(AlertRecorded(db, k, n, Warning, n + 1), Notify([AlertKey(k, n)], Sent))
    ensures db' == AlertsSent(AlertRecorded(db, k, n, Warning, n + 1), [AlertKey(k, n)], Sent)
    ensures Raised(db', k, n + 1)
  {
    hide AllCounted, QueuedIn, AlertRecorded, AlertsSent, Sendable, Announced, Ongoing;
    var db1 := AlertRecorded(db, k, n, Warning, n + 1);
    RaisedRecord(db, k, n);
    RaisedSend(db1, k, n);
    db' := AlertsSent(db1, [AlertKey(k, n)], Sent);
    StepCounted(db, Record(k, n, Warning, n + 1));
    StepCounted(db1, Notify([AlertKey(k, n)], Sent));
  }

  lemma {:induction false} RaisedFrom(db: Db, k: Subject, i: nat, n: nat)
    requires Raised(db, k, i) && i <= n
    ensures Legal(db, Rising(k, i, n)) && Raised(Run(db, Rising(k, i, n)), k, n)
    decreases n - i
  {
    hide Raised, AlertRecorded, AlertsSent, Sendable;
    if i < n {
      var steps := Rising(k, i, n);
      var db' := RaisedStep(db, k, i);
      RaisedFrom(db', k, i + 1, n);
      assert steps[1..][1..] == Rising(k, i + 1, n);
      assert steps[1..][0] == Notify([AlertKey(k, i)], Sent);
      assert Legal(AlertRecorded(db, k, i, Warning, i + 1), steps[1..]);
    }
  }

  /** Raising the setting under an open episode makes its streak complete again: for every n there
      is a run, with settings up to n, in which one opening sends n alerts and none is critical. */
  lemma RaisedRun(k: Subject, n: nat)
    requires n > 0
    ensures Legal(Empty(), Rising(k, 0, n))
    ensures var db := Run(Empty(), Rising(k, 0, n));
            && k in db.history && db.history[k].opening == 0 && Ongoing(db, k)
            && Announced(db.log, k, 0) == |QueuedIn(db, k, 0)| == n
  {
    hide Legal, Run, Rising;
    assert Raised(Empty(), k, 0) by { assert QueuedIn(Empty(), k, 0) == {}; }
    RaisedFrom(Empty(), k, 0, n);
  }

  // ---------- Lowered settings ----------

  /** The first of n buckets is recorded with the setting 2, the others with 1. */
  function Lowered(k: Subject, i: nat, n: nat): seq<Step>
    requires i <= n
    decreases n - i
  {
    if i == n then [] else [Record(k, i, Warning, if i == 0 then 2 else 1)] + Lowered(k, i + 1, n)
  }

  ghost predicate Silent(db: Db, k: Subject, n: nat) {
    && AllCounted(db)
    && (if n == 0 then k !in db.episodes
        else k in db.history && db.history[k].opening == 0 && Ongoing(db, k) && db.episodes[k].alertCount == n)
    && (forall a :: a in db.alerts && a.subject == k ==> a.bucket < n)
    && QueuedIn(db, k, 0) == {}
  }

  lemma SilentStep(db: Db, k: Subject, n: nat)
    requires Silent(db, k, n)
    ensures Silent(AlertRecorded(db, k, n, Warning, if n == 0 then 2 else 1), k, n + 1)
  {
    hide AllCounted, QueuedIn, WaitingIn;
    var m := if n == 0 then 2 else 1;
    TablesOf(db);
    StepCounted(db, Record(k, n, Warning, m));
    RecordQueues(db, k, n, Warning, m, k, 0);
  }

  lemma {:induction false} SilentFrom(db: Db, k: Subject, i: nat, n: nat)
    requires Silent(db, k, i) && i <= n
    ensures Legal(db, Lowered(k, i, n)) && Silent(Run(db, Lowered(k, i, n)), k, n)
    decreases n - i
  {
    hide Silent, AlertRecorded;
    if i < n {
      SilentStep(db, k, i);
      SilentFrom(AlertRecorded(db, k, i, Warning, if i == 0 then 2 else 1), k, i + 1, n);
      assert Lowered(k, i, n)[1..] == Lowered(k, i + 1, n);
    }
  }

  /** Lowering the setting under an open episode makes it miss its streak: an opening of any length
      of which no alert is ever sent, though the setting is 1 from its second bucket on. */
  lemma LoweredRun(k: Subject, n: nat)
    requires n > 0
    ensures Legal(Empty(), Lowered(k, 0, n))
    ensures var db := Run(Empty(), Lowered(k, 0, n));
            && k in db.history && db.history[k].opening == 0 && Ongoing(db, k) && db.episodes[k].alertCount == n
            && QueuedIn(db, k, 0) == {} && Announced(db.log, k, 0) == 0
  {
    hide Legal, Run, Lowered;
    assert Silent(Empty(), k, 0) by { assert QueuedIn(Empty(), k, 0) == {}; }
    SilentFrom(Empty(), k, 0, n);
    AnnouncedWereQueued(Lowered(k, 0, n), k, 0);
  }

  // ---------- The first bucket ----------

  /** The first bucket of an episode row is the earliest of its opening. */
  ghost predicate Earliest(db: Db, k: Subject) {
    k in db.episodes && k in db.history ==>
      forall i :: 0 <= i < |db.history[k].recorded| ==> db.episodes[k].firstBucket <= db.history[k].recorded[i].bucket
  }

  /** The step does not record a bucket before the first one of an open episode. */
  ghost predicate InOrder(db: Db, k: Subject, step: Step) {
    step.Record? && step.subject == k && Ongoing(db, k) && AlertKey(k, step.bucket) !in db.alerts ==>
      step.bucket >= db.episodes[k].firstBucket
  }

  lemma RecordEarliest(db: Db, x: Subject, bucket: int, severity: Severity, m: int, k: Subject)
    requires AllCounted(db) && Earliest(db, k)
    ensures Earliest(AlertRecorded(db, x, bucket, severity, m), k) <==> InOrder(db, k, Record(x, bucket, severity, m))
  {
    hide SendNow, AllCounted;
    var db' := AlertRecorded(db, x, bucket, severity, m);
    TablesOf(db);
    if x == k && Ongoing(db, k) && AlertKey(k, bucket) !in db.alerts {
      assert db'.history[k].recorded[|db.history[k].recorded|].bucket == bucket;
      assert forall i :: 0 <= i < |db.history[k].recorded| ==> db'.history[k].recorded[i] == db.history[k].recorded[i];
    }
  }

  lemma StepEarliest(db: Db, step: Step, k: Subject)
    requires AllCounted(db) && Earliest(db, k) && Enabled(db, step)
    ensures Earliest(Next(db, step), k) <==> InOrder(db, k, step)
  {
    hide AllCounted, AlertRecorded, Quieted, AlertsSent, RecoveriesSent, Sendable, Recoverable;
    if step.Record? {
      hide Earliest, InOrder;
      RecordEarliest(db, step.subject, step.bucket, step.severity, step.minStreak, k);
    } else {
      OtherSteps(db, step);
    }
  }

  ghost predicate AlwaysEarliest(db: Db, steps: seq<Step>, k: Subject)
    requires Legal(db, steps)
    decreases steps
  {
    Earliest(db, k) && (steps != [] ==> AlwaysEarliest(Next(db, steps[0]), steps[1..], k))
  }

  ghost predicate AllInOrder(db: Db, steps: seq<Step>, k: Subject)
    requires Legal(db, steps)
    decreases steps
  {
    steps != [] ==> InOrder(db, k, steps[0]) && AllInOrder(Next(db, steps[0]), steps[1..], k)
  }

  /** The first bucket of a device and metric is the earliest of its opening throughout a run if and
      only if the run never records a bucket before the first one of the open episode. */
  lemma {:induction false} FirstBucketExactly(db: Db, steps: seq<Step>, k: Subject)
    requires AllCounted(db) && Earliest(db, k) && Legal(db, steps)
    ensures AlwaysEarliest(db, steps, k) <==> AllInOrder(db, steps, k)
    decreases steps
  {
    hide AllCounted, Enabled, Next, Earliest, InOrder;
    if steps != [] {
      StepCounted(db, steps[0]);
      StepEarliest(db, steps[0], k);
      if InOrder(db, k, steps[0]) {
        FirstBucketExactly(Next(db, steps[0]), steps[1..], k);
      } else {
        NotEarliest(Next(db, steps[0]), steps[1..], k);
      }
    }
  }

  lemma NotEarliest(db: Db, steps: seq<Step>, k: Subject)
    requires Legal(db, steps) && !Earliest(db, k)
    ensures !AlwaysEarliest(db, steps, k)
  {
    hide Earliest;
  }
}
