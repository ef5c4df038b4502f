/** When recoveries are sent, over every run of recording, resolving, sending (which may fail, be
    muted, or find no channel) and recovering. */
module EpisodeRecovery {
  import opened Evaluator
  import opened Episodes

  datatype Step =
    | Record(subject: Subject, bucket: int, severity: Severity, minStreak: int)
    | Resolve(cutoff: int)
    | Notify(alerts: seq<AlertKey>, dispatch: Dispatch)
    | Recover(subjects: seq<Subject>, dispatch: Dispatch)

  ghost predicate Enabled(db: Db, step: Step) {
    match step
    case Notify(picked, _) => Sendable(db, picked)
    case Recover(picked, _) => Recoverable(db, picked)
    case _ => true
  }

  function Next(db: Db, step: Step): Db
    requires Enabled(db, step)
  {
    match step
    case Record(k, bucket, severity, minStreak) => AlertRecorded(db, k, bucket, severity, minStreak)
    case Resolve(cutoff) => Quieted(db, cutoff)
    case Notify(picked, d) => AlertsSent(db, picked, d)
    case Recover(picked, d) => RecoveriesSent(db, picked, d)
  }

  function Empty(): Db {
    Db(map[], map[], map[], map[], [])
  }

  ghost predicate Legal(db: Db, steps: seq<Step>)
    decreases steps
  {
    steps == [] || (Enabled(db, steps[0]) && Legal(Next(db, steps[0]), steps[1..]))
  }

  function Run(db: Db, steps: seq<Step>): Db
    requires Legal(db, steps)
    decreases steps
  {
    if steps == [] then db else Run(Next(db, steps[0]), steps[1..])
  }

  // ---------- The log ----------

  /** No recovery of `k` after position `j`. */
  ghost predicate Quiet(log: seq<Event>, k: Subject, j: int) {
    forall l :: 0 <= l && j < l < |log| && log[l].Recovered? ==> log[l].subject != k
  }

  ghost predicate AlertedSince(log: seq<Event>, k: Subject) {
    exists j :: 0 <= j < |log| && log[j].Alerted? && log[j].subject == k && Quiet(log, k, j)
  }

  ghost predicate OpenedSince(log: seq<Event>, k: Subject) {
    exists j :: 0 <= j < |log| && log[j].Opened? && log[j].subject == k && Quiet(log, k, j)
  }

  /** Every recovery follows an alert and an opening of its subject that no earlier recovery used. */
  ghost predicate Disciplined(log: seq<Event>) {
    forall i :: 0 <= i < |log| && log[i].Recovered? ==>
      AlertedSince(log[..i], log[i].subject) && OpenedSince(log[..i], log[i].subject)
  }

  ghost predicate NoRecoveries(events: seq<Event>, k: Subject) {
    forall i :: 0 <= i < |events| && events[i].Recovered? ==> events[i].subject != k
  }

  lemma SinceGrows(log: seq<Event>, more: seq<Event>, k: Subject)
    requires NoRecoveries(more, k)
    ensures AlertedSince(log, k) ==> AlertedSince(log + more, k)
    ensures OpenedSince(log, k) ==> OpenedSince(log + more, k)
  {
    var all := log + more;
    forall j | 0 <= j < |log| && Quiet(log, k, j) ensures Quiet(all, k, j) {
      forall l | j < l < |all| && all[l].Recovered? ensures all[l].subject != k {
        if l >= |log| { assert all[l] == more[l - |log|]; }
      }
    }
    if AlertedSince(log, k) {
      var j :| 0 <= j < |log| && log[j].Alerted? && log[j].subject == k && Quiet(log, k, j);
      assert all[j] == log[j];
    }
    if OpenedSince(log, k) {
      var j :| 0 <= j < |log| && log[j].Opened? && log[j].subject == k && Quiet(log, k, j);
      assert all[j] == log[j];
    }
  }

  /** A new alert or opening counts as one since the last recovery. */
  lemma SinceNew(log: seq<Event>, more: seq<Event>, i: nat)
    requires i < |more| && NoRecoveries(more, more[i].subject)
    ensures more[i].Alerted? ==> AlertedSince(log + more, more[i].subject)
    ensures more[i].Opened? ==> OpenedSince(log + more, more[i].subject)
  {
    var all := log + more;
    var j := |log| + i;
    assert all[j] == more[i];
    forall l | j < l < |all| && all[l].Recovered? ensures all[l].subject != more[i].subject {
      assert all[l] == more[l - |log|];
    }
  }

  lemma DisciplineGrows(log: seq<Event>, more: seq<Event>)
    requires Disciplined(log)
    requires forall i :: 0 <= i < |more| && more[i].Recovered? ==>
               AlertedSince(log + more[..i], more[i].subject) && OpenedSince(log + more[..i], more[i].subject)
    ensures Disciplined(log + more)
  {
    hide AlertedSince, OpenedSince;
    var all := log + more;
    forall i | 0 <= i < |all| && all[i].Recovered?
      ensures AlertedSince(all[..i], all[i].subject) && OpenedSince(all[..i], all[i].subject)
    {
      if i < |log| { assert all[..i] == log[..i]; } else { assert all[..i] == log + more[..i - |log|]; }
    }
  }

  // ---------- The invariant ----------

  ghost predicate Tracked(db: Db, k: Subject) {
    k in db.episodes && k in db.history &&
    var e := db.episodes[k];
    && (e.recoveryNotified ==> e.resolved)
    && (e.notified && !e.recoveryNotified ==> AlertedSince(db.log, k))
    && (!e.recoveryNotified ==> OpenedSince(db.log, k))
  }

  ghost predicate Inv(db: Db) {
    && db.history.Keys == db.episodes.Keys && db.origin.Keys == db.alerts.Keys
    && (forall k :: k in db.episodes ==> Tracked(db, k))
    && Disciplined(db.log)
  }

  lemma RecordInv(db: Db, k: Subject, bucket: int, severity: Severity, minStreak: int)
    requires Inv(db)
    ensures Inv(AlertRecorded(db, k, bucket, severity, minStreak))
  {
    hide AlertedSince, OpenedSince, Disciplined, SendNow;
    var db' := AlertRecorded(db, k, bucket, severity, minStreak);
    if AlertKey(k, bucket) !in db.alerts && !Ongoing(db, k) {
      var begun := [Opened(k, HistoryAfter(db, k, bucket, severity, minStreak).opening)];
      DisciplineGrows(db.log, begun);
      SinceNew(db.log, begun, 0);
      forall x | x in db.episodes ensures Tracked(db', x) { SinceGrows(db.log, begun, x); }
    }
  }

  lemma NotifyInv(db: Db, picked: seq<AlertKey>, d: Dispatch)
    requires Inv(db) && Sendable(db, picked)
    ensures Inv(AlertsSent(db, picked, d))
  {
    hide AlertedSince, OpenedSince, Disciplined;
    var db' := AlertsSent(db, picked, d);
    if picked != [] && d == Sent {
      var events := AlertEvents(db, picked);
      DisciplineGrows(db.log, events);
      forall k | k in db.episodes ensures Tracked(db', k) {
        SinceGrows(db.log, events, k);
        if Concerns(picked, k) {
          var a :| a in picked && a.subject == k;
          var i :| 0 <= i < |picked| && picked[i] == a;
          SinceNew(db.log, events, i);
        }
      }
    }
  }

  lemma RecoverInv(db: Db, picked: seq<Subject>, d: Dispatch)
    requires Inv(db) && Recoverable(db, picked)
    ensures Inv(RecoveriesSent(db, picked, d))
  {
    hide AlertedSince, OpenedSince, Disciplined;
    var db' := RecoveriesSent(db, picked, d);
    if picked != [] && d == Sent {
      var events := RecoveryEvents(db, picked);
      forall i | 0 <= i < |events| && events[i].Recovered?
        ensures AlertedSince(db.log + events[..i], events[i].subject)
        ensures OpenedSince(db.log + events[..i], events[i].subject)
      {
        assert Tracked(db, picked[i]);
        SinceGrows(db.log, events[..i], picked[i]);
      }
      DisciplineGrows(db.log, events);
      forall k | k in db.episodes ensures Tracked(db', k) {
        assert Tracked(db, k);
        if k !in picked { SinceGrows(db.log, events, k); }
      }
    } else {
      assert db'.log == db.log;
      assert forall k :: k in db.episodes ==> Tracked(db, k);
    }
  }

  lemma ResolveInv(db: Db, cutoff: int)
    requires Inv(db)
    ensures Inv(Quieted(db, cutoff))
  {
    hide AlertedSince, OpenedSince, Disciplined;
    assert forall k :: k in db.episodes ==> Tracked(db, k);
  }

  lemma StepInv(db: Db, step: Step)
    requires Inv(db) && Enabled(db, step)
    ensures Inv(Next(db, step))
  {
    hide Inv, AlertRecorded, Quieted, AlertsSent, RecoveriesSent, Sendable, Recoverable;
    match step
    case Record(k, bucket, severity, minStreak) => RecordInv(db, k, bucket, severity, minStreak);
    case Resolve(cutoff) => ResolveInv(db, cutoff);
    case Notify(picked, d) => NotifyInv(db, picked, d);
    case Recover(picked, d) => RecoverInv(db, picked, d);
  }

  lemma {:induction false} RunInv(db: Db, steps: seq<Step>)
    requires Inv(db) && Legal(db, steps)
    ensures Inv(Run(db, steps))
    decreases steps
  {
    hide Inv, Enabled, Next;
    if steps != [] {
      StepInv(db, steps[0]);
      RunInv(Next(db, steps[0]), steps[1..]);
    }
  }

  // ---------- The discipline ----------

  /** Some event of `k` picked by `kind` lies strictly between the positions. */
  ghost predicate AlertBetween(log: seq<Event>, k: Subject, i: int, j: int) {
    exists x :: i < x < j && 0 <= x < |log| && log[x].Alerted? && log[x].subject == k
  }

  ghost predicate OpeningBetween(log: seq<Event>, k: Subject, i: int, j: int) {
    exists x :: i < x < j && 0 <= x < |log| && log[x].Opened? && log[x].subject == k
  }

  lemma DisciplineMeans(log: seq<Event>, i: int, j: nat)
    requires Disciplined(log) && -1 <= i < j < |log| && log[j].Recovered?
    requires i >= 0 ==> log[i].Recovered? && log[i].subject == log[j].subject
    ensures AlertBetween(log, log[j].subject, i, j) && OpeningBetween(log, log[j].subject, i, j)
  {
    var k := log[j].subject;
    var before := log[..j];
    var a :| 0 <= a < |before| && before[a].Alerted? && before[a].subject == k && Quiet(before, k, a);
    var o :| 0 <= o < |before| && before[o].Opened? && before[o].subject == k && Quiet(before, k, o);
    assert log[a] == before[a] && log[o] == before[o];
    if i >= 0 { assert before[i] == log[i]; }
  }

  /** Over every run: no recovery of a device and metric goes out before an alert for it did, and
      between two recoveries of it lie an alert that went out and a new opening. */
  lemma RecoveryDiscipline(steps: seq<Step>, i: int, j: nat)
    requires Legal(Empty(), steps)
    requires var log := Run(Empty(), steps).log;
             && -1 <= i < j < |log| && log[j].Recovered?
             && (i >= 0 ==> log[i].Recovered? && log[i].subject == log[j].subject)
    ensures var log := Run(Empty(), steps).log;
            AlertBetween(log, log[j].subject, i, j) && OpeningBetween(log, log[j].subject, i, j)
  {
    hide Legal, Run, Disciplined;
    assert Inv(Empty()) by { NothingLogged(); }
    RunInv(Empty(), steps);
    DisciplineMeans(Run(Empty(), steps).log, i, j);
  }

  lemma NothingLogged()
    ensures Disciplined([])
  {}

  // ---------- One recovery per opening ----------

  ghost predicate Unrepeated(log: seq<Event>) {
    forall i, j :: 0 <= i < j < |log| && log[i].Recovered? ==> log[i] != log[j]
  }

  /** A logged recovery is of a begun opening, and of the current one only if its row says so. */
  ghost predicate RecoveriesMarked(db: Db) {
    forall e :: e in db.log && e.Recovered? ==>
      && e.subject in db.history && e.subject in db.episodes && e.opening <= db.history[e.subject].opening
      && (e.opening == db.history[e.subject].opening ==> db.episodes[e.subject].recoveryNotified)
  }

  lemma UnrepeatedGrows(log: seq<Event>, more: seq<Event>)
    requires Unrepeated(log) && Unrepeated(more)
    requires forall e :: e in more && e.Recovered? ==> e !in log
    ensures Unrepeated(log + more)
  {
    var all := log + more;
    forall i, j | 0 <= i < j < |all| && all[i].Recovered? ensures all[i] != all[j] {
      if i < |log| <= j {
        assert log[i] in log && more[j - |log|] in more;
      }
    }
  }

  lemma RecordOnce(db: Db, k: Subject, bucket: int, severity: Severity, minStreak: int)
    requires Inv(db) && RecoveriesMarked(db) && Unrepeated(db.log)
    ensures var db' := AlertRecorded(db, k, bucket, severity, minStreak); RecoveriesMarked(db') && Unrepeated(db'.log)
  {
    hide AlertedSince, OpenedSince, Disciplined, SendNow;
    var db' := AlertRecorded(db, k, bucket, severity, minStreak);
    if k in db.episodes { assert Tracked(db, k); }
    if db'.log != db.log { UnrepeatedGrows(db.log, [db'.log[|db.log|]]); }
    assert forall e :: e in db'.log && e.Recovered? ==> e in db.log;
  }

  lemma RecoverOnce(db: Db, picked: seq<Subject>, d: Dispatch)
    requires Recoverable(db, picked) && RecoveriesMarked(db) && Unrepeated(db.log)
    ensures var db' := RecoveriesSent(db, picked, d); RecoveriesMarked(db') && Unrepeated(db'.log)
  {
    var db' := RecoveriesSent(db, picked, d);
    assert db.log + [] == db.log;
    if picked != [] && d == Sent {
      var events := RecoveryEvents(db, picked);
      forall e | e in events ensures e !in db.log && e.subject in picked && e == Recovered(e.subject, db.history[e.subject].opening) {
        var i :| 0 <= i < |picked| && events[i] == e;
        assert picked[i] in picked;
      }
      assert Unrepeated(events);
      UnrepeatedGrows(db.log, events);
      assert forall e :: e in db'.log <==> e in db.log || e in events;
    }
  }

  lemma NotifyOnce(db: Db, picked: seq<AlertKey>, d: Dispatch)
    requires Sendable(db, picked) && RecoveriesMarked(db) && Unrepeated(db.log)
    ensures var db' := AlertsSent(db, picked, d); RecoveriesMarked(db') && Unrepeated(db'.log)
  {
    hide Concerns;
    if picked != [] && d == Sent {
      var events := AlertEvents(db, picked);
      UnrepeatedGrows(db.log, events);
      assert forall e :: e in db.log + events <==> e in db.log || e in events;
    }
  }

  lemma ResolveOnce(db: Db, cutoff: int)
    requires RecoveriesMarked(db)
    ensures RecoveriesMarked(Quieted(db, cutoff))
  {}

  lemma {:induction false} RunOnce(db: Db, steps: seq<Step>)
    requires Inv(db) && RecoveriesMarked(db) && Unrepeated(db.log) && Legal(db, steps)
    ensures Unrepeated(Run(db, steps).log)
    decreases steps
  {
    hide Inv, RecoveriesMarked, Unrepeated, AlertRecorded, AlertsSent, RecoveriesSent, Sendable, Recoverable;
    if steps != [] {
      StepInv(db, steps[0]);
      match steps[0] {
        case Record(k, bucket, severity, minStreak) => RecordOnce(db, k, bucket, severity, minStreak);
        case Resolve(cutoff) => ResolveOnce(db, cutoff);
        case Notify(picked, d) => NotifyOnce(db, picked, d);
        case Recover(picked, d) => RecoverOnce(db, picked, d);
      }
      RunOnce(Next(db, steps[0]), steps[1..]);
    }
  }

  /** Over every run, one opening yields at most one recovery. */
  lemma OneRecoveryPerOpening(steps: seq<Step>, i: nat, j: nat)
    requires Legal(Empty(), steps)
    requires var log := Run(Empty(), steps).log; i < j < |log| && log[i].Recovered?
    ensures var log := Run(Empty(), steps).log; log[i] != log[j]
  {
    hide Legal, Run, Disciplined;
    NothingLogged();
    RunOnce(Empty(), steps);
  }
}
