/** The check of EpisodeOwnAlerts in terms of two columns of the tables: an alert's created_at and an
    episode's started_at, each the time NOW() of the transaction that wrote it. */
module EpisodeTimes {
  import opened Episodes
  import opened EpisodeRecovery
  import opened EpisodeOwnAlerts

  /** The tables with their two time columns, the latest transaction time and that of the latest
      closing of quiet episodes. */
  datatype Timed = Timed(db: Db, created: map<AlertKey, int>, started: map<Subject, int>, clock: int, quieted: int)

  datatype TimedStep = At(time: int, step: Step)

  /** One worker, whose clock does not run back; a judging round that follows a closing is later. */
  ghost predicate Ready(t: Timed, s: TimedStep) {
    Enabled(t.db, s.step) && s.time >= t.clock && (s.step.Record? ==> s.time > t.quieted)
  }

  function Written(t: Timed, s: TimedStep): Timed
    requires Ready(t, s)
  {
    var db' := Next(t.db, s.step);
    match s.step
    case Record(k, bucket, severity, minStreak) =>
      var a := AlertKey(k, bucket);
      if a in t.db.alerts then t.(db := db', clock := s.time)
      else Timed(db', t.created[a := s.time], if Ongoing(t.db, k) then t.started else t.started[k := s.time], s.time, t.quieted)
    case Resolve(_) => t.(db := db', clock := s.time, quieted := s.time)
    case _ => t.(db := db', clock := s.time)
  }

  ghost predicate InTime(t: Timed, steps: seq<TimedStep>)
    decreases steps
  {
    steps == [] || (Ready(t, steps[0]) && InTime(Written(t, steps[0]), steps[1..]))
  }

  function TimedRun(t: Timed, steps: seq<TimedStep>): Timed
    requires InTime(t, steps)
    decreases steps
  {
    if steps == [] then t else TimedRun(Written(t, steps[0]), steps[1..])
  }

  function Untimed(steps: seq<TimedStep>): seq<Step> {
    if steps == [] then [] else [steps[0].step] + Untimed(steps[1..])
  }

  function Start(clock: int): Timed {
    Timed(Empty(), map[], map[], clock, clock - 1)
  }

  // ---------- The times tell the openings apart ----------

  predicate Fresh(t: Timed, a: AlertKey) {
    a in t.created && a.subject in t.started && t.created[a] >= t.started[a.subject]
  }

  predicate Own(db: Db, a: AlertKey) {
    a in db.origin && a.subject in db.history && db.origin[a].opening == db.history[a.subject].opening
  }

  /** What holds of each alert row. */
  ghost predicate Dated(t: Timed, a: AlertKey) {
    && a in t.db.origin && a in t.created && a.subject in t.db.history && a.subject in t.started
    && a.subject in t.db.episodes
    && t.db.origin[a].opening <= t.db.history[a.subject].opening
    && (Own(t.db, a) <==> Fresh(t, a)) && t.created[a] <= t.clock
    && (t.db.episodes[a.subject].resolved ==> t.created[a] <= t.quieted)
  }

  ghost predicate Times(t: Timed) {
    && t.created.Keys == t.db.alerts.Keys == t.db.origin.Keys && t.quieted <= t.clock
    && t.started.Keys == t.db.episodes.Keys == t.db.history.Keys
    && (forall k :: k in t.started ==> t.started[k] <= t.clock)
    && (forall a :: a in t.created ==> Dated(t, a))
  }

  /** The row of any alert after an alert was recorded. */
  lemma RecordDated(t: Timed, s: TimedStep, a: AlertKey)
    requires Times(t) && s.step.Record? && Ready(t, s) && AlertKey(s.step.subject, s.step.bucket) !in t.db.alerts
    requires a in Written(t, s).created
    ensures Dated(Written(t, s), a)
  {
    hide SendNow;
    assert a in t.created ==> Dated(t, a);
  }

  lemma RecordTimes(t: Timed, s: TimedStep)
    requires Times(t) && s.step.Record? && Ready(t, s)
    ensures Times(Written(t, s))
  {
    hide SendNow, Dated, HistoryAfter, Upserted;
    var t' := Written(t, s);
    if AlertKey(s.step.subject, s.step.bucket) !in t.db.alerts {
      forall a | a in t'.created ensures Dated(t', a) { RecordDated(t, s, a); }
    } else {
      SubjectsKept(t);
      forall a | a in t'.created ensures Dated(t', a) { LaterDated(t, t', a); }
    }
  }

  /** Only the clock, or the time of the latest closing with it, moves on. */
  lemma LaterDated(t: Timed, t': Timed, a: AlertKey)
    requires Dated(t, a) && t'.created == t.created && t'.started == t.started
    requires t'.db.origin == t.db.origin && t'.db.history == t.db.history && a.subject in t'.db.episodes
    requires t'.clock >= t.clock && t'.quieted >= t.quieted
    requires t'.quieted >= t.clock || t'.db.episodes[a.subject].resolved == t.db.episodes[a.subject].resolved
    ensures Dated(t', a)
  {}

  lemma NotifyFrame(db: Db, picked: seq<AlertKey>, d: Dispatch)
    requires Sendable(db, picked)
    ensures var db' := AlertsSent(db, picked, d);
            && db'.origin == db.origin && db'.history == db.history
            && db'.alerts.Keys == db.alerts.Keys && db'.episodes.Keys == db.episodes.Keys
            && forall k :: k in db.episodes ==> db'.episodes[k].resolved == db.episodes[k].resolved
  {
    hide Concerns, Sendable;
  }

  /** The other steps leave the openings alone, and only a closing closes episodes. */
  lemma OtherFrame(db: Db, step: Step)
    requires Enabled(db, step) && !step.Record?
    ensures Next(db, step).origin == db.origin && Next(db, step).history == db.history
    ensures Next(db, step).alerts.Keys == db.alerts.Keys && Next(db, step).episodes.Keys == db.episodes.Keys
    ensures forall k :: k in db.episodes && !step.Resolve? ==>
              Next(db, step).episodes[k].resolved == db.episodes[k].resolved
  {
    hide AlertsSent, Sendable;
    if step.Notify? { NotifyFrame(db, step.alerts, step.dispatch); }
  }

  lemma OtherWritten(t: Timed, s: TimedStep)
    requires !s.step.Record? && Ready(t, s) && t.quieted <= t.clock
    ensures var t' := Written(t, s);
            && t'.db == Next(t.db, s.step) && Enabled(t.db, s.step) && t'.created == t.created && t'.started == t.started
            && t'.clock >= t.clock && t.quieted <= t'.quieted <= t'.clock && (s.step.Resolve? ==> t'.quieted >= t.clock)
  {
    hide Next, Enabled;
  }

  lemma OtherTimes(t: Timed, s: TimedStep)
    requires Times(t) && !s.step.Record? && Ready(t, s)
    ensures Times(Written(t, s))
  {
    hide Dated, Enabled, Next, Ready, Written;
    var t' := Written(t, s);
    OtherWritten(t, s);
    OtherFrame(t.db, s.step);
    SubjectsKept(t);
    forall a | a in t'.created ensures Dated(t', a) { LaterDated(t, t', a); }
  }

  lemma SubjectsKept(t: Timed)
    requires Times(t)
    ensures forall a :: a in t.created ==> a.subject in t.db.episodes
  {
    assert forall a :: a in t.created ==> Dated(t, a);
  }

  lemma StepTimes(t: Timed, s: TimedStep)
    requires Times(t) && Ready(t, s)
    ensures Times(Written(t, s))
  {
    hide Times, Ready, Written;
    if s.step.Record? { RecordTimes(t, s); } else { OtherTimes(t, s); }
  }

  lemma {:induction false} RunTimes(t: Timed, steps: seq<TimedStep>)
    requires Times(t) && InTime(t, steps)
    ensures Times(TimedRun(t, steps))
    decreases steps
  {
    hide Times, Ready, Written;
    if steps != [] {
      StepTimes(t, steps[0]);
      RunTimes(Written(t, steps[0]), steps[1..]);
    }
  }

  /** In every reachable state: an alert belongs to the current opening of its episode exactly when its
      created_at is not before the episode's started_at. */
  lemma TimesTell(clock: int, steps: seq<TimedStep>, a: AlertKey)
    requires InTime(Start(clock), steps) && a in TimedRun(Start(clock), steps).db.alerts
    ensures var t := TimedRun(Start(clock), steps); Own(t.db, a) <==> Fresh(t, a)
  {
    hide InTime, TimedRun;
    RunTimes(Start(clock), steps);
    assert Dated(TimedRun(Start(clock), steps), a);
  }

  // ---------- The check on the columns ----------

  /** Some picked alert of `k` is not older than the episode. */
  ghost predicate PicksFresh(t: Timed, picked: seq<AlertKey>, k: Subject) {
    exists a :: a in picked && a.subject == k && Fresh(t, a)
  }

  ghost predicate FreshRound(t: Timed, picked: seq<AlertKey>) {
    forall k :: Ongoing(t.db, k) && !t.db.episodes[k].notified && Concerns(picked, k) ==> PicksFresh(t, picked, k)
  }

  lemma FreshIsOwn(t: Timed, picked: seq<AlertKey>, k: Subject)
    requires Times(t) && Sendable(t.db, picked)
    ensures PicksFresh(t, picked, k) <==> PicksOwn(t.db, picked, k)
  {
    if a :| a in picked && a.subject == k && Fresh(t, a) { assert Dated(t, a) && Own(t.db, a); }
    if a :| a in picked && a in t.db.origin && k in t.db.history
            && a.subject == k && t.db.origin[a].opening == t.db.history[k].opening {
      assert Dated(t, a) && Own(t.db, a);
    }
  }

  lemma RoundIsChecked(t: Timed, picked: seq<AlertKey>)
    requires Times(t) && Sendable(t.db, picked)
    ensures FreshRound(t, picked) <==> PicksCurrent(t.db, picked)
  {
    hide Times, Sendable, PicksFresh, PicksOwn, Concerns;
    forall k ensures PicksFresh(t, picked, k) <==> PicksOwn(t.db, picked, k) { FreshIsOwn(t, picked, k); }
  }

  ghost predicate FreshRounds(t: Timed, steps: seq<TimedStep>)
    requires InTime(t, steps)
    decreases steps
  {
    steps == [] ||
    ((steps[0].step.Notify? && steps[0].step.dispatch == Sent ==> FreshRound(t, steps[0].step.alerts))
     && FreshRounds(Written(t, steps[0]), steps[1..]))
  }

  lemma WrittenDb(t: Timed, s: TimedStep)
    requires Ready(t, s)
    ensures Enabled(t.db, s.step) && Written(t, s).db == Next(t.db, s.step)
  {
    hide Enabled, Next;
  }

  lemma RoundEnabled(t: Timed, s: TimedStep)
    requires Ready(t, s) && s.step.Notify?
    ensures Sendable(t.db, s.step.alerts)
  {}

  lemma {:induction false} RoundsChecked(t: Timed, steps: seq<TimedStep>)
    requires Times(t) && InTime(t, steps)
    ensures Legal(t.db, Untimed(steps)) && TimedRun(t, steps).db == Run(t.db, Untimed(steps))
    ensures FreshRounds(t, steps) <==> Checked(t.db, Untimed(steps))
    decreases steps
  {
    hide Times, Ready, Written, Enabled, Next, FreshRound, PicksCurrent;
    if steps != [] {
      var s := steps[0];
      StepTimes(t, s);
      WrittenDb(t, s);
      if s.step.Notify? {
        RoundEnabled(t, s);
        RoundIsChecked(t, s.step.alerts);
      }
      RoundsChecked(Written(t, s), steps[1..]);
      assert Untimed(steps)[1..] == Untimed(steps[1..]);
    }
  }

  /** The exact condition on the columns: every state of a run is safe if and only if each sent round
      has, for every open unmarked episode it touches, an alert that is not older than the episode. */
  lemma FreshRoundsExactly(clock: int, steps: seq<TimedStep>)
    requires InTime(Start(clock), steps)
    ensures Legal(Empty(), Untimed(steps))
    ensures AlwaysSafe(Empty(), Untimed(steps)) <==> FreshRounds(Start(clock), steps)
  {
    hide InTime, FreshRounds, AlwaysSafe, Legal, Checked;
    RoundsChecked(Start(clock), steps);
    OwnRecoveriesExactly(Untimed(steps));
  }

  // ---------- The clock excludes no run ----------

  function Clocked(steps: seq<Step>, from: int): seq<TimedStep> {
    if steps == [] then [] else [At(from, steps[0])] + Clocked(steps[1..], from + 1)
  }

  /** Every run of the tables is one with times. */
  lemma {:induction false} AnyRunInTime(t: Timed, steps: seq<Step>)
    requires Legal(t.db, steps) && t.quieted <= t.clock
    ensures InTime(t, Clocked(steps, t.clock + 1)) && Untimed(Clocked(steps, t.clock + 1)) == steps
    decreases steps
  {
    hide Enabled, Next;
    if steps != [] {
      var s := At(t.clock + 1, steps[0]);
      AnyRunInTime(Written(t, s), steps[1..]);
      assert Clocked(steps, t.clock + 1)[1..] == Clocked(steps[1..], t.clock + 2);
    }
  }
}
