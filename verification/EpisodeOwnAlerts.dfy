/** The comment in `_notify` promises more than the discipline: no recovery for an episode whose
    own alert never went out. The mark is set by device and metric, so that promise fails when a
    late alert of an earlier opening is sent; it holds exactly when no such round is sent. */
module EpisodeOwnAlerts {
  import opened Wrappers
  import opened Evaluator
  import opened Episodes
  import opened EpisodeRecovery

  // ---------- Recoveries and the alerts of their own opening ----------

  ghost predicate HasAlert(log: seq<Event>, k: Subject, opening: nat) {
    Alerted(k, opening) in log
  }

  /** The stronger promise: an episode is marked as alerted only by an alert of its own opening. */
  ghost predicate OwnAlerts(db: Db) {
    forall k :: k in db.episodes && k in db.history && db.episodes[k].notified && !db.episodes[k].recoveryNotified
                ==> HasAlert(db.log, k, db.history[k].opening)
  }

  /** An open episode not yet marked has had no alert of its opening sent, and no event speaks of
      an opening that has not begun. */
  ghost predicate Marks(db: Db) {
    db.history.Keys == db.episodes.Keys && EventsBegun(db) && UnmarkedUnsent(db) && OriginsBegun(db)
  }

  ghost predicate EventsBegun(db: Db) {
    forall e :: e in db.log && e.Alerted? ==>
      e.subject in db.history && e.opening <= db.history[e.subject].opening
  }

  ghost predicate UnmarkedUnsent(db: Db) {
    forall k :: Ongoing(db, k) && k in db.history && !db.episodes[k].notified ==>
      !HasAlert(db.log, k, db.history[k].opening)
  }

  ghost predicate OriginsBegun(db: Db) {
    forall a :: a in db.origin ==>
      a.subject in db.history && db.origin[a].opening <= db.history[a.subject].opening
  }

  /** Some picked alert of `k` was recorded in the current opening. */
  ghost predicate PicksOwn(db: Db, picked: seq<AlertKey>, k: Subject) {
    exists a :: a in picked && a in db.origin && k in db.history
                && a.subject == k && db.origin[a].opening == db.history[k].opening
  }

  /** What can be checked before a round is marked: every open, unmarked episode it concerns has
      an alert of its own opening in it. */
  ghost predicate PicksCurrent(db: Db, picked: seq<AlertKey>) {
    forall k :: Ongoing(db, k) && !db.episodes[k].notified && Concerns(picked, k) ==> PicksOwn(db, picked, k)
  }

  lemma SentEvents(db: Db, picked: seq<AlertKey>, k: Subject, opening: nat)
    requires Sendable(db, picked)
    ensures HasAlert(AlertEvents(db, picked), k, opening) <==>
            exists a :: a in picked && a.subject == k && db.origin[a].opening == opening
  {
    var events := AlertEvents(db, picked);
    if HasAlert(events, k, opening) {
      var i :| 0 <= i < |events| && events[i] == Alerted(k, opening);
      assert picked[i] in picked;
    }
    if a :| a in picked && a.subject == k && db.origin[a].opening == opening {
      var i :| 0 <= i < |picked| && picked[i] == a;
      assert events[i] == Alerted(k, opening);
    }
  }

  lemma SentOwn(db: Db, picked: seq<AlertKey>, k: Subject)
    requires Sendable(db, picked) && picked != [] && k in db.history
    ensures HasAlert(AlertsSent(db, picked, Sent).log, k, db.history[k].opening) <==>
            HasAlert(db.log, k, db.history[k].opening) || PicksOwn(db, picked, k)
  {
    SentEvents(db, picked, k, db.history[k].opening);
  }

  /** Sending a round keeps that promise if and only if the round passes the check. */
  lemma OwnAlertsExactly(db: Db, picked: seq<AlertKey>)
    requires Inv(db) && Marks(db) && OwnAlerts(db) && Sendable(db, picked)
    ensures OwnAlerts(AlertsSent(db, picked, Sent)) <==> PicksCurrent(db, picked)
  {
    hide Sendable, HasAlert, PicksOwn, AlertedSince, OpenedSince, Disciplined;
    if picked == [] { return; }
    forall k | k in db.episodes
      ensures HasAlert(AlertsSent(db, picked, Sent).log, k, db.history[k].opening) <==>
              HasAlert(db.log, k, db.history[k].opening) || PicksOwn(db, picked, k)
    {
      SentOwn(db, picked, k);
    }
    assert forall k :: k in db.episodes ==> Tracked(db, k);
  }

  // ---------- Marks hold in every run ----------

  /** Recording continues the current opening or begins the next one. */
  lemma RecordBegins(db: Db, k: Subject, bucket: int, severity: Severity, minStreak: int)
    requires db.history.Keys == db.episodes.Keys
    ensures var db' := AlertRecorded(db, k, bucket, severity, minStreak);
            && db'.history.Keys == db'.episodes.Keys && db.history.Keys <= db'.history.Keys
            && forall x :: x in db.history ==> db.history[x].opening <= db'.history[x].opening
  {
    hide SendNow, Upserted;
  }

  lemma RecordOrigins(db: Db, k: Subject, bucket: int, severity: Severity, minStreak: int)
    requires db.history.Keys == db.episodes.Keys && OriginsBegun(db)
    ensures OriginsBegun(AlertRecorded(db, k, bucket, severity, minStreak))
  {
    hide SendNow, Upserted;
  }

  lemma RecordUnsent(db: Db, k: Subject, bucket: int, severity: Severity, minStreak: int)
    requires Marks(db)
    ensures UnmarkedUnsent(AlertRecorded(db, k, bucket, severity, minStreak))
  {
    hide SendNow, HasAlert, EventsBegun, OriginsBegun;
    RecordLogs(db, k, bucket, severity, minStreak);
    if k in db.history { NoneOfNext(db, k); } else { NoneOf(db, k, 0); }
  }

  lemma MarksRecord(db: Db, k: Subject, bucket: int, severity: Severity, minStreak: int)
    requires Marks(db)
    ensures Marks(AlertRecorded(db, k, bucket, severity, minStreak))
  {
    hide AlertRecorded, OriginsBegun, UnmarkedUnsent;
    RecordBegins(db, k, bucket, severity, minStreak);
    RecordLogs(db, k, bucket, severity, minStreak);
    RecordOrigins(db, k, bucket, severity, minStreak);
    RecordUnsent(db, k, bucket, severity, minStreak);
  }

  /** Recording logs no alert. */
  lemma RecordLogs(db: Db, k: Subject, bucket: int, severity: Severity, minStreak: int)
    ensures var db' := AlertRecorded(db, k, bucket, severity, minStreak);
            && (forall e :: e in db'.log && e.Alerted? ==> e in db.log)
            && (forall x, o :: HasAlert(db'.log, x, o) <==> HasAlert(db.log, x, o))
  {
    hide SendNow, Upserted;
    var db' := AlertRecorded(db, k, bucket, severity, minStreak);
    assert forall e :: e in db.log ==> e in db'.log;
  }

  lemma NoneOfNext(db: Db, k: Subject)
    requires Marks(db) && k in db.history
    ensures !HasAlert(db.log, k, db.history[k].opening + 1)
  {}

  lemma NoneOf(db: Db, k: Subject, opening: nat)
    requires Marks(db) && k !in db.history
    ensures !HasAlert(db.log, k, opening)
  {}

  /** The log grew, the opening numbers did not. */
  lemma MarksGrow(db: Db, db': Db, more: seq<Event>)
    requires Marks(db) && db'.log == db.log + more && db'.history == db.history && db'.origin == db.origin
    requires db'.episodes.Keys == db.episodes.Keys
    requires forall e :: e in more && e.Alerted? ==>
               e.subject in db.history && e.opening <= db.history[e.subject].opening
    requires forall k :: Ongoing(db', k) && !db'.episodes[k].notified ==>
               Ongoing(db, k) && !db.episodes[k].notified
               && forall e :: e in more && e.Alerted? ==> e.subject != k
    ensures Marks(db')
  {
    hide Ongoing;
    assert forall e :: e in db'.log <==> e in db.log || e in more;
  }

  lemma SentSubjects(db: Db, picked: seq<AlertKey>)
    requires Marks(db) && Sendable(db, picked)
    ensures forall e :: e in AlertEvents(db, picked) ==>
              e.Alerted? && Concerns(picked, e.subject)
              && e.subject in db.history && e.opening <= db.history[e.subject].opening
  {
    hide HasAlert;
    var events := AlertEvents(db, picked);
    forall e | e in events
      ensures e.Alerted? && Concerns(picked, e.subject)
      ensures e.subject in db.history && e.opening <= db.history[e.subject].opening
    {
      var i :| 0 <= i < |picked| && events[i] == e;
      assert picked[i] in picked;
    }
  }

  /** An episode still unmarked after the round was open and unmarked before, and not concerned. */
  lemma StillUnmarked(db: Db, picked: seq<AlertKey>, k: Subject)
    requires Sendable(db, picked) && picked != []
    requires Ongoing(AlertsSent(db, picked, Sent), k) && !AlertsSent(db, picked, Sent).episodes[k].notified
    ensures Ongoing(db, k) && !db.episodes[k].notified && !Concerns(picked, k)
  {
    hide Concerns, MarkedSent, AlertEvents, Sendable;
  }

  lemma SentFrame(db: Db, picked: seq<AlertKey>)
    requires Sendable(db, picked) && picked != []
    ensures var db' := AlertsSent(db, picked, Sent);
            && db'.log == db.log + AlertEvents(db, picked) && db'.history == db.history && db'.origin == db.origin
            && db'.episodes.Keys == db.episodes.Keys
  {
    hide Concerns, MarkedSent;
  }

  lemma MarksNotify(db: Db, picked: seq<AlertKey>, d: Dispatch)
    requires Marks(db) && Sendable(db, picked)
    ensures Marks(AlertsSent(db, picked, d))
  {
    if picked == [] || d != Sent {
      hide HasAlert, Concerns, MarkedSent;
      assert db.log + [] == db.log;
      MarksGrow(db, AlertsSent(db, picked, d), []);
    } else {
      hide Marks, AlertsSent, AlertEvents, Sendable, Concerns, Ongoing, HasAlert;
      var db' := AlertsSent(db, picked, Sent);
      SentSubjects(db, picked);
      SentFrame(db, picked);
      forall k | Ongoing(db', k) && k in db'.episodes && !db'.episodes[k].notified
        ensures Ongoing(db, k) && k in db.episodes && !db.episodes[k].notified && !Concerns(picked, k)
      {
        StillUnmarked(db, picked, k);
      }
      OngoingHas(db);
      OngoingHas(db');
      MarksGrow(db, db', AlertEvents(db, picked));
    }
  }

  lemma OngoingHas(db: Db)
    ensures forall k :: Ongoing(db, k) ==> k in db.episodes
  {}

  lemma MarksRecover(db: Db, picked: seq<Subject>, d: Dispatch)
    requires Marks(db) && Recoverable(db, picked)
    ensures Marks(RecoveriesSent(db, picked, d))
  {
    hide HasAlert;
    assert db.log + [] == db.log;
    MarksGrow(db, RecoveriesSent(db, picked, d), if picked != [] && d == Sent then RecoveryEvents(db, picked) else []);
  }

  lemma StepMarks(db: Db, step: Step)
    requires Marks(db) && Enabled(db, step)
    ensures Marks(Next(db, step))
  {
    hide AlertRecorded, AlertsSent, RecoveriesSent, Sendable, Recoverable;
    match step
    case Record(k, bucket, severity, minStreak) => MarksRecord(db, k, bucket, severity, minStreak);
    case Resolve(cutoff) => MarksResolve(db, cutoff);
    case Notify(picked, d) => MarksNotify(db, picked, d);
    case Recover(picked, d) => MarksRecover(db, picked, d);
  }

  lemma MarksResolve(db: Db, cutoff: int)
    requires Marks(db)
    ensures Marks(Quieted(db, cutoff))
  {}

  // ---------- Runs whose rounds pass the check ----------

  ghost predicate Checked(db: Db, steps: seq<Step>)
    requires Legal(db, steps)
    decreases steps
  {
    steps == [] ||
    ((steps[0].Notify? && steps[0].dispatch == Sent ==> PicksCurrent(db, steps[0].alerts))
     && Checked(Next(db, steps[0]), steps[1..]))
  }

  /** Every recovery of an opening comes after an alert of that opening. */
  ghost predicate OwnRecoveries(log: seq<Event>) {
    forall i :: 0 <= i < |log| && log[i].Recovered? ==> HasAlert(log[..i], log[i].subject, log[i].opening)
  }

  lemma OwnGrows(log: seq<Event>, more: seq<Event>)
    requires OwnRecoveries(log)
    requires forall i :: 0 <= i < |more| && more[i].Recovered? ==> HasAlert(log, more[i].subject, more[i].opening)
    ensures OwnRecoveries(log + more)
  {
    var all := log + more;
    forall i | 0 <= i < |all| && all[i].Recovered? ensures HasAlert(all[..i], all[i].subject, all[i].opening) {
      if i < |log| {
        assert all[..i] == log[..i];
      } else {
        assert all[..i] == log + more[..i - |log|];
      }
    }
  }

  lemma OwnRecord(db: Db, k: Subject, bucket: int, severity: Severity, minStreak: int)
    requires Inv(db) && OwnAlerts(db) && OwnRecoveries(db.log)
    ensures var db' := AlertRecorded(db, k, bucket, severity, minStreak);
            OwnAlerts(db') && OwnRecoveries(db'.log)
  {
    hide SendNow, OwnRecoveries, Disciplined, AlertedSince, OpenedSince;
    assert forall x :: x in db.episodes ==> Tracked(db, x);
    var db' := AlertRecorded(db, k, bucket, severity, minStreak);
    if db'.log != db.log { OwnGrows(db.log, [db'.log[|db.log|]]); }
  }

  lemma OwnNotify(db: Db, picked: seq<AlertKey>, d: Dispatch)
    requires Inv(db) && Marks(db) && OwnAlerts(db) && OwnRecoveries(db.log) && Sendable(db, picked)
    requires d == Sent ==> PicksCurrent(db, picked)
    ensures OwnAlerts(AlertsSent(db, picked, d)) && OwnRecoveries(AlertsSent(db, picked, d).log)
  {
    hide Inv, Marks, OwnRecoveries, PicksCurrent;
    if d == Sent {
      OwnAlertsExactly(db, picked);
      OwnGrows(db.log, AlertEvents(db, picked));
    }
  }

  lemma OwnRecover(db: Db, picked: seq<Subject>, d: Dispatch)
    requires OwnAlerts(db) && OwnRecoveries(db.log) && Recoverable(db, picked)
    ensures OwnAlerts(RecoveriesSent(db, picked, d)) && OwnRecoveries(RecoveriesSent(db, picked, d).log)
  {
    hide OwnRecoveries;
    assert db.log + [] == db.log;
    if picked != [] && d == Sent {
      OwnGrows(db.log, RecoveryEvents(db, picked));
    }
  }

  lemma StepOwn(db: Db, step: Step)
    requires Inv(db) && Marks(db) && OwnAlerts(db) && OwnRecoveries(db.log) && Enabled(db, step)
    requires step.Notify? && step.dispatch == Sent ==> PicksCurrent(db, step.alerts)
    ensures OwnAlerts(Next(db, step)) && OwnRecoveries(Next(db, step).log)
  {
    hide Inv, Marks, OwnAlerts, OwnRecoveries, PicksCurrent, AlertRecorded, AlertsSent, RecoveriesSent, Sendable, Recoverable;
    match step
    case Record(k, bucket, severity, minStreak) => OwnRecord(db, k, bucket, severity, minStreak);
    case Resolve(cutoff) => OwnResolve(db, cutoff);
    case Notify(picked, d) => OwnNotify(db, picked, d);
    case Recover(picked, d) => OwnRecover(db, picked, d);
  }

  lemma OwnResolve(db: Db, cutoff: int)
    requires OwnAlerts(db)
    ensures OwnAlerts(Quieted(db, cutoff))
  {}

  lemma {:induction false} RunOwn(db: Db, steps: seq<Step>)
    requires Inv(db) && Marks(db) && OwnAlerts(db) && OwnRecoveries(db.log)
    requires Legal(db, steps) && Checked(db, steps)
    ensures OwnRecoveries(Run(db, steps).log)
    decreases steps
  {
    hide Inv, Marks, OwnAlerts, OwnRecoveries, Enabled, Next, PicksCurrent;
    if steps != [] {
      StepInv(db, steps[0]);
      StepMarks(db, steps[0]);
      StepOwn(db, steps[0]);
      RunOwn(Next(db, steps[0]), steps[1..]);
    }
  }

  /** Over every run in which each sent round passes the check, a recovery is sent only for an
      opening of which an alert was sent before. */
  lemma OwnAlertBeforeRecovery(steps: seq<Step>)
    requires Legal(Empty(), steps) && Checked(Empty(), steps)
    ensures OwnRecoveries(Run(Empty(), steps).log)
  {
    hide Run, Legal, Checked, Disciplined;
    NothingLogged();
    RunOwn(Empty(), steps);
  }

  // ---------- Exactly those runs ----------

  ghost predicate SendsNoAlerts(steps: seq<Step>) {
    forall i :: 0 <= i < |steps| ==> !(steps[i].Notify? && steps[i].dispatch == Sent)
  }

  /** However the run goes on without another sent round, each recovery follows an alert of its opening. */
  ghost predicate SafeFrom(db: Db) {
    forall steps :: Legal(db, steps) && SendsNoAlerts(steps) ==> OwnRecoveries(Run(db, steps).log)
  }

  lemma {:induction false} NoAlertsChecked(db: Db, steps: seq<Step>)
    requires Legal(db, steps) && SendsNoAlerts(steps)
    ensures Checked(db, steps)
    decreases steps
  {
    hide Enabled, Next, PicksCurrent;
    if steps != [] {
      assert !(steps[0].Notify? && steps[0].dispatch == Sent);
      assert SendsNoAlerts(steps[1..]);
      NoAlertsChecked(Next(db, steps[0]), steps[1..]);
    }
  }

  lemma OwnIsSafe(db: Db)
    requires Inv(db) && Marks(db) && OwnAlerts(db) && OwnRecoveries(db.log)
    ensures SafeFrom(db)
  {
    hide Inv, Marks, OwnAlerts, OwnRecoveries, Legal, Run, Checked, SendsNoAlerts;
    forall steps | Legal(db, steps) && SendsNoAlerts(steps) ensures OwnRecoveries(Run(db, steps).log) {
      NoAlertsChecked(db, steps);
      RunOwn(db, steps);
    }
  }

  /** An open, unmarked episode that the round touches with alerts of earlier openings only. */
  lemma OrphanOf(db: Db, picked: seq<AlertKey>) returns (k: Subject)
    requires Inv(db) && Marks(db) && Sendable(db, picked) && !PicksCurrent(db, picked)
    ensures var db' := AlertsSent(db, picked, Sent);
            && k in db'.episodes && k in db'.history && Ongoing(db', k)
            && db'.episodes[k].notified && !db'.episodes[k].recoveryNotified
            && !HasAlert(db'.log, k, db'.history[k].opening)
  {
    hide Sendable, HasAlert, PicksOwn, AlertedSince, OpenedSince, Disciplined;
    k :| Ongoing(db, k) && !db.episodes[k].notified && Concerns(picked, k) && !PicksOwn(db, picked, k);
    assert Tracked(db, k);
    SentOwn(db, picked, k);
  }

  lemma RecoverOne(db: Db, k: Subject)
    requires k in db.episodes && k in db.history && db.episodes[k].resolved && db.episodes[k].notified && !db.episodes[k].recoveryNotified
    ensures Recoverable(db, [k])
    ensures RecoveriesSent(db, [k], Sent).log == db.log + [Recovered(k, db.history[k].opening)]
  {
    assert RecoveryEvents(db, [k]) == [Recovered(k, db.history[k].opening)];
  }

  /** A marked episode none of whose alerts was sent is announced as over. */
  lemma Orphaned(db: Db, k: Subject) returns (steps: seq<Step>)
    requires k in db.episodes && k in db.history && Ongoing(db, k)
    requires db.episodes[k].notified && !db.episodes[k].recoveryNotified && !HasAlert(db.log, k, db.history[k].opening)
    ensures Legal(db, steps) && SendsNoAlerts(steps) && !OwnRecoveries(Run(db, steps).log)
  {
    hide Legal, Run, OwnRecoveries, HasAlert, Recoverable, RecoveriesSent;
    var closed := Quieted(db, db.episodes[k].lastBucket + 1);
    RecoverOne(closed, k);
    var over := RecoveriesSent(closed, [k], Sent);
    LegalNothing(over);
    var last := [Recover([k], Sent)] + [];
    StepTo(closed, Recover([k], Sent), over, []);
    steps := [Resolve(db.episodes[k].lastBucket + 1)] + last;
    StepTo(db, Resolve(db.episodes[k].lastBucket + 1), closed, last);
    LastOrphan(db.log, k, db.history[k].opening);
  }

  lemma LastOrphan(log: seq<Event>, k: Subject, opening: nat)
    requires !HasAlert(log, k, opening)
    ensures !OwnRecoveries(log + [Recovered(k, opening)])
  {
    var all := log + [Recovered(k, opening)];
    assert all[..|log|] == log && all[|log|].Recovered?;
  }

  /** A sent round is safe if and only if it passes the check. */
  lemma RoundSafeExactly(db: Db, picked: seq<AlertKey>)
    requires Inv(db) && Marks(db) && OwnAlerts(db) && OwnRecoveries(db.log) && Sendable(db, picked)
    ensures SafeFrom(AlertsSent(db, picked, Sent)) <==> PicksCurrent(db, picked)
  {
    hide Inv, Marks, OwnAlerts, OwnRecoveries, PicksCurrent, AlertsSent, Sendable, SafeFrom;
    var db' := AlertsSent(db, picked, Sent);
    if PicksCurrent(db, picked) {
      NotifyInv(db, picked, Sent);
      MarksNotify(db, picked, Sent);
      OwnNotify(db, picked, Sent);
      OwnIsSafe(db');
    } else {
      var k := OrphanOf(db, picked);
      var steps := Orphaned(db', k);
      Unsafe(db', steps);
    }
  }

  lemma Unsafe(db: Db, steps: seq<Step>)
    requires Legal(db, steps) && SendsNoAlerts(steps) && !OwnRecoveries(Run(db, steps).log)
    ensures !SafeFrom(db)
  {
    hide Legal, Run, OwnRecoveries, SendsNoAlerts;
  }

  /** Every state of the run is safe. */
  ghost predicate AlwaysSafe(db: Db, steps: seq<Step>)
    requires Legal(db, steps)
    decreases steps
  {
    SafeFrom(db) && (steps != [] ==> AlwaysSafe(Next(db, steps[0]), steps[1..]))
  }

  lemma {:induction false} RunSafeExactly(db: Db, steps: seq<Step>)
    requires Inv(db) && Marks(db) && OwnAlerts(db) && OwnRecoveries(db.log) && Legal(db, steps)
    ensures AlwaysSafe(db, steps) <==> Checked(db, steps)
    decreases steps
  {
    hide Inv, Marks, OwnAlerts, OwnRecoveries, Enabled, PicksCurrent, SafeFrom, AlertRecorded, Quieted, AlertsSent, RecoveriesSent;
    OwnIsSafe(db);
    if steps != [] {
      if steps[0].Notify? && steps[0].dispatch == Sent && !PicksCurrent(db, steps[0].alerts) {
        assert Sendable(db, steps[0].alerts) by { SentEnabled(db, steps[0]); }
        RoundSafeExactly(db, steps[0].alerts);
      } else {
        StepInv(db, steps[0]);
        StepMarks(db, steps[0]);
        StepOwn(db, steps[0]);
        RunSafeExactly(Next(db, steps[0]), steps[1..]);
      }
    }
  }

  lemma SentEnabled(db: Db, step: Step)
    requires step.Notify? && Enabled(db, step)
    ensures Sendable(db, step.alerts)
  {}

  /** Over every run: no opening is announced as over before an alert of it was sent, at any point
      and however the run goes on until another round is sent, if and only if each sent round has,
      for every open unmarked episode it touches, an alert of that opening. */
  lemma OwnRecoveriesExactly(steps: seq<Step>)
    requires Legal(Empty(), steps)
    ensures AlwaysSafe(Empty(), steps) <==> Checked(Empty(), steps)
  {
    hide AlwaysSafe, Legal, Checked, Disciplined;
    NothingLogged();
    RunSafeExactly(Empty(), steps);
  }

  // ---------- Without the check ----------

  lemma StepTo(db: Db, step: Step, db': Db, rest: seq<Step>)
    requires Enabled(db, step) && Next(db, step) == db' && Legal(db', rest)
    ensures Legal(db, [step] + rest) && Run(db, [step] + rest) == Run(db', rest)
  {
    hide Enabled, Next;
    assert ([step] + rest)[1..] == rest;
  }

  function OneEpisode(k: Subject, alerts: map<AlertKey, AlertRow>, e: Episode, h: History,
                      origin: map<AlertKey, Origin>, log: seq<Event>): Db {
    Db(alerts, map[k := e], map[k := h], origin, log)
  }

  /** A first opening of two buckets: its first alert is not queued, its second is. */
  function FirstOpening(k: Subject): Db {
    OneEpisode(k,
      map[AlertKey(k, 0) := AlertRow(Warning, true), AlertKey(k, 1) := AlertRow(Warning, false)],
      Episode(0, 1, Warning, 2, false, false, false),
      History(0, [Recorded(0, Warning, 2), Recorded(1, Warning, 2)], None),
      map[AlertKey(k, 0) := Origin(0, false), AlertKey(k, 1) := Origin(0, true)],
      [Opened(k, 0)])
  }

  /** The first opening closed unsent and a second one of one bucket begun. */
  function SecondOpening(k: Subject, e: Episode, sent: bool, log: seq<Event>): Db {
    OneEpisode(k,
      map[AlertKey(k, 0) := AlertRow(Warning, true), AlertKey(k, 1) := AlertRow(Warning, sent),
          AlertKey(k, 20) := AlertRow(Warning, true)],
      e, History(1, [Recorded(20, Warning, 2)], Some(1)),
      map[AlertKey(k, 0) := Origin(0, false), AlertKey(k, 1) := Origin(0, true), AlertKey(k, 20) := Origin(1, false)],
      log)
  }

  lemma OpenFirst(k: Subject) returns (db: Db)
    ensures db == AlertRecorded(Empty(), k, 0, Warning, 2)
    ensures AlertRecorded(db, k, 1, Warning, 2) == FirstOpening(k)
  {
    db := OneEpisode(k, map[AlertKey(k, 0) := AlertRow(Warning, true)],
                     Episode(0, 0, Warning, 1, false, false, false), History(0, [Recorded(0, Warning, 2)], None),
                     map[AlertKey(k, 0) := Origin(0, false)], [Opened(k, 0)]);
    assert [Recorded(0, Warning, 2)] + [Recorded(1, Warning, 2)] == [Recorded(0, Warning, 2), Recorded(1, Warning, 2)];
  }

  lemma OpenSecond(k: Subject) returns (db: Db)
    ensures db == Quieted(FirstOpening(k), 10)
    ensures AlertRecorded(db, k, 20, Warning, 2)
         == SecondOpening(k, Episode(20, 20, Warning, 1, false, false, false), false, [Opened(k, 0), Opened(k, 1)])
  {
    db := FirstOpening(k).(episodes := map[k := Episode(0, 1, Warning, 2, false, true, false)]);
    assert [Opened(k, 0)] + [Opened(k, 1)] == [Opened(k, 0), Opened(k, 1)];
  }

  lemma SendOne(db: Db, a: AlertKey)
    requires a in db.alerts && a in db.origin && !db.alerts[a].notified
    ensures Sendable(db, [a])
    ensures AlertsSent(db, [a], Sent)
         == db.(alerts := AlertsSent(db, [a], Sent).alerts, episodes := AlertsSent(db, [a], Sent).episodes,
                log := db.log + [Alerted(a.subject, db.origin[a].opening)])
    ensures AlertsSent(db, [a], Sent).alerts == db.alerts[a := db.alerts[a].(notified := true)]
    ensures a.subject in db.episodes && db.episodes.Keys == {a.subject} && !db.episodes[a.subject].resolved ==>
              AlertsSent(db, [a], Sent).episodes == map[a.subject := db.episodes[a.subject].(notified := true)]
  {
    assert a in [a] && Concerns([a], a.subject);
    assert AlertEvents(db, [a]) == [Alerted(a.subject, db.origin[a].opening)];
  }

  lemma SendLate(k: Subject, log: seq<Event>)
    ensures var db := SecondOpening(k, Episode(20, 20, Warning, 1, false, false, false), false, log);
            var a := AlertKey(k, 1);
            && Sendable(db, [a])
            && AlertsSent(db, [a], Sent)
               == SecondOpening(k, Episode(20, 20, Warning, 1, true, false, false), true, log + [Alerted(k, 0)])
  {
    hide AlertsSent, Sendable;
    SendOne(SecondOpening(k, Episode(20, 20, Warning, 1, false, false, false), false, log), AlertKey(k, 1));
  }

  lemma CloseSecond(k: Subject, log: seq<Event>)
    ensures Quieted(SecondOpening(k, Episode(20, 20, Warning, 1, true, false, false), true, log), 30)
         == SecondOpening(k, Episode(20, 20, Warning, 1, true, true, false), true, log)
  {}

  lemma AnnounceEnd(k: Subject, log: seq<Event>)
    ensures var db := SecondOpening(k, Episode(20, 20, Warning, 1, true, true, false), true, log);
            && Recoverable(db, [k])
            && RecoveriesSent(db, [k], Sent)
               == SecondOpening(k, Episode(20, 20, Warning, 1, true, true, true), true, log + [Recovered(k, 1)])
  {
    var db := SecondOpening(k, Episode(20, 20, Warning, 1, true, true, false), true, log);
    assert RecoveryEvents(db, [k]) == [Recovered(k, 1)];
  }

  /** An opening lasts two buckets, so its alert is queued, but sending is muted until the
      episode has closed and a second, one-bucket opening has begun. The queued alert then marks
      the second opening, and its end is announced though it was never alerted. */
  lemma OrphanRecovery(k: Subject) returns (steps: seq<Step>)
    ensures Legal(Empty(), steps)
    ensures var log := Run(Empty(), steps).log;
            log != [] && log[|log| - 1] == Recovered(k, 1) && Alerted(k, 1) !in log
  {
    hide Legal, Run, Empty, AlertRecorded, Quieted, AlertsSent, RecoveriesSent, Sendable, Recoverable, FirstOpening, SecondOpening;
    var log := [Opened(k, 0), Opened(k, 1)];
    var d1 := OpenFirst(k);
    var d3 := OpenSecond(k);
    var d4 := SecondOpening(k, Episode(20, 20, Warning, 1, false, false, false), false, log);
    var d5 := SecondOpening(k, Episode(20, 20, Warning, 1, true, false, false), true, log + [Alerted(k, 0)]);
    var d6 := SecondOpening(k, Episode(20, 20, Warning, 1, true, true, false), true, log + [Alerted(k, 0)]);
    var d7 := SecondOpening(k, Episode(20, 20, Warning, 1, true, true, true), true, log + [Alerted(k, 0)] + [Recovered(k, 1)]);
    SendLate(k, log);
    CloseSecond(k, log + [Alerted(k, 0)]);
    AnnounceEnd(k, log + [Alerted(k, 0)]);
    LegalNothing(d7);
    var s7 := [Recover([k], Sent)] + [];
    StepTo(d6, Recover([k], Sent), d7, []);
    var s6 := [Resolve(30)] + s7;
    StepTo(d5, Resolve(30), d6, s7);
    var s5 := [Notify([AlertKey(k, 1)], Sent)] + s6;
    StepTo(d4, Notify([AlertKey(k, 1)], Sent), d5, s6);
    var s4 := [Record(k, 20, Warning, 2)] + s5;
    StepTo(d3, Record(k, 20, Warning, 2), d4, s5);
    var s3 := [Resolve(10)] + s4;
    StepTo(FirstOpening(k), Resolve(10), d3, s4);
    var s2 := [Record(k, 1, Warning, 2)] + s3;
    StepTo(d1, Record(k, 1, Warning, 2), FirstOpening(k), s3);
    steps := [Record(k, 0, Warning, 2)] + s2;
    StepTo(Empty(), Record(k, 0, Warning, 2), d1, s2);
    LogOf(k, d7, log);
  }

  lemma LogOf(k: Subject, db: Db, log: seq<Event>)
    requires db == SecondOpening(k, Episode(20, 20, Warning, 1, true, true, true), true, log + [Alerted(k, 0)] + [Recovered(k, 1)])
    requires log == [Opened(k, 0), Opened(k, 1)]
    ensures db.log != [] && db.log[|db.log| - 1] == Recovered(k, 1) && Alerted(k, 1) !in db.log
  {}

  lemma LegalNothing(db: Db)
    ensures Legal(db, []) && Run(db, []) == db
  {}
}
