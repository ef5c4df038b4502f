/** The alert and episode tables of was/app/service_monitor.py: recording alerts, closing quiet
    episodes, sending alerts and recoveries. */
module Episodes {
  import opened Wrappers
  import opened Evaluator

  /** One episode row per device and metric. */
  datatype Subject = Subject(device: int, metric: Metric)

  /** The unique key of service_alerts. */
  datatype AlertKey = AlertKey(subject: Subject, bucket: int)

  datatype AlertRow = AlertRow(severity: Severity, notified: bool)

  /** `resolved` is whether resolved_at is set. */
  datatype Episode = Episode(
    firstBucket: int, lastBucket: int, severity: Severity, alertCount: nat,
    notified: bool, resolved: bool, recoveryNotified: bool)

  /** An alert as it was recorded, with the streak setting in force then. */
  datatype Recorded = Recorded(bucket: int, severity: Severity, minStreak: int)

  /** What the properties remember of the current opening of an episode: its number, what was
      recorded in it, and the last bucket of the opening before. */
  datatype History = History(opening: nat, recorded: seq<Recorded>, previous: Option<int>)

  /** In which opening an alert was recorded, and whether it was left queued for sending. */
  datatype Origin = Origin(opening: nat, queued: bool)

  datatype Event =
    | Opened(subject: Subject, opening: nat)
    | Alerted(subject: Subject, opening: nat)
    | Recovered(subject: Subject, opening: nat)

  /** The two tables, and the record of what happened to them. */
  datatype Db = Db(
    alerts: map<AlertKey, AlertRow>, episodes: map<Subject, Episode>,
    history: map<Subject, History>, origin: map<AlertKey, Origin>, log: seq<Event>)

  /** No channel is configured; dispatch failed, or sending is muted; at least one channel took it. */
  datatype Dispatch = NoChannel | NotSent | Sent

  const RECOVERY_QUIET_BUCKETS := 3
  const NOTIFY_LIMIT := 100

  function ShouldNotify(prevCount: nat, prevSeverity: Option<Severity>, severity: Severity, minStreak: int): bool {
    var was := prevCount >= minStreak;
    var escalated := was && severity == Critical && prevSeverity != Some(Critical);
    escalated || prevCount + 1 == minStreak
  }

  predicate Ongoing(db: Db, k: Subject) {
    k in db.episodes && !db.episodes[k].resolved
  }

  function SendNow(db: Db, k: Subject, severity: Severity, minStreak: int): bool {
    if Ongoing(db, k)
    then ShouldNotify(db.episodes[k].alertCount, Some(db.episodes[k].severity), severity, minStreak)
    else ShouldNotify(0, None, severity, minStreak)
  }

  /** The upsert of service_alert_episodes. */
  function Upserted(db: Db, k: Subject, bucket: int, severity: Severity): Episode {
    if k !in db.episodes then Episode(bucket, bucket, severity, 1, false, false, false)
    else
      var e := db.episodes[k];
      var last := if e.lastBucket >= bucket then e.lastBucket else bucket;
      if e.resolved then Episode(bucket, last, severity, 1, false, false, false)
      else e.(lastBucket := last, alertCount := e.alertCount + 1,
              severity := if severity == Critical then Critical else e.severity,
              recoveryNotified := false)
  }

  function HistoryAfter(db: Db, k: Subject, bucket: int, severity: Severity, minStreak: int): History {
    var r := Recorded(bucket, severity, minStreak);
    if k !in db.history then History(0, [r], None)
    else if Ongoing(db, k) then db.history[k].(recorded := db.history[k].recorded + [r])
    else History(db.history[k].opening + 1, [r],
                 if k in db.episodes then Some(db.episodes[k].lastBucket) else None)
  }

  /** `_record_alert`: one alert is stored and counted into its episode, once per bucket. */
  function AlertRecorded(db: Db, k: Subject, bucket: int, severity: Severity, minStreak: int): Db {
    var a := AlertKey(k, bucket);
    if a in db.alerts then db
    else
      var send := SendNow(db, k, severity, minStreak);
      var h := HistoryAfter(db, k, bucket, severity, minStreak);
      Db(db.alerts[a := AlertRow(severity, !send)],
         db.episodes[k := Upserted(db, k, bucket, severity)],
         db.history[k := h], db.origin[a := Origin(h.opening, send)],
         if Ongoing(db, k) then db.log else db.log + [Opened(k, h.opening)])
  }

  /** `_resolve_episodes` */
  function Quieted(db: Db, cutoff: int): Db {
    db.(episodes := map k | k in db.episodes ::
          var e := db.episodes[k];
          if !e.resolved && e.lastBucket < cutoff then e.(resolved := true) else e)
  }

  /** The alerts one round may send: unsent ones, in any order and number up to the limit (other
      workers may hold locks on the rest). */
  ghost predicate Sendable(db: Db, picked: seq<AlertKey>) {
    && |picked| <= NOTIFY_LIMIT
    && (forall i, j :: 0 <= i < j < |picked| ==> picked[i] != picked[j])
    && forall a :: a in picked ==> a in db.alerts && a in db.origin && !db.alerts[a].notified
  }

  function AlertEvents(db: Db, picked: seq<AlertKey>): seq<Event>
    requires forall a :: a in picked ==> a in db.origin
  {
    seq(|picked|, i requires 0 <= i < |picked| => Alerted(picked[i].subject, db.origin[picked[i]].opening))
  }

  function MarkedSent(alerts: map<AlertKey, AlertRow>, picked: seq<AlertKey>): map<AlertKey, AlertRow> {
    map a | a in alerts :: if a in picked then alerts[a].(notified := true) else alerts[a]
  }

  predicate Concerns(picked: seq<AlertKey>, k: Subject) {
    exists a :: a in picked && a.subject == k
  }

  /** `_notify` */
  function AlertsSent(db: Db, picked: seq<AlertKey>, d: Dispatch): Db
    requires Sendable(db, picked)
  {
    if picked == [] || d == NotSent then db
    else if d == NoChannel then db.(alerts := MarkedSent(db.alerts, picked))
    else
      db.(alerts := MarkedSent(db.alerts, picked),
          episodes := map k | k in db.episodes ::
            var e := db.episodes[k];
            if !e.resolved && Concerns(picked, k) then e.(notified := true) else e,
          log := db.log + AlertEvents(db, picked))
  }

  ghost predicate Recoverable(db: Db, picked: seq<Subject>) {
    && |picked| <= NOTIFY_LIMIT
    && (forall i, j :: 0 <= i < j < |picked| ==> picked[i] != picked[j])
    && forall k :: k in picked ==> k in db.episodes && k in db.history && db.episodes[k].resolved
                                   && !db.episodes[k].recoveryNotified && db.episodes[k].notified
  }

  function RecoveryEvents(db: Db, picked: seq<Subject>): seq<Event>
    requires forall k :: k in picked ==> k in db.history
  {
    seq(|picked|, i requires 0 <= i < |picked| => Recovered(picked[i], db.history[picked[i]].opening))
  }

  /** `_notify_recovery` */
  function RecoveriesSent(db: Db, picked: seq<Subject>, d: Dispatch): Db
    requires Recoverable(db, picked)
  {
    if picked == [] || d == NotSent then db
    else
      db.(episodes := map k | k in db.episodes ::
            if k in picked then db.episodes[k].(recoveryNotified := true) else db.episodes[k],
          log := db.log + if d == Sent then RecoveryEvents(db, picked) else [])
  }

  /** The monitor's database operations, one transaction each. */
  class Monitor {
    var alerts: map<AlertKey, AlertRow>
    var episodes: map<Subject, Episode>
    ghost var history: map<Subject, History>
    ghost var origin: map<AlertKey, Origin>
    ghost var log: seq<Event>

    ghost function State(): Db
      reads this
    {
      Db(alerts, episodes, history, origin, log)
    }

    constructor ()
      ensures State() == Db(map[], map[], map[], map[], [])
    {
      alerts, episodes, history, origin, log := map[], map[], map[], map[], [];
    }

    method RecordAlert(k: Subject, bucket: int, severity: Severity, minStreak: int) returns (inserted: bool)
      modifies this
      ensures State() == AlertRecorded(old(State()), k, bucket, severity, minStreak)
      ensures inserted <==> AlertKey(k, bucket) !in old(alerts)
    {
      var a := AlertKey(k, bucket);
      if a in alerts { return false; }
      ghost var h := HistoryAfter(State(), k, bucket, severity, minStreak);
      ghost var before := State();
      var send := TrackEpisode(k, bucket, severity, minStreak);
      alerts := alerts[a := AlertRow(severity, false)];
      if !send { alerts := alerts[a := alerts[a].(notified := true)]; }
      origin := origin[a := Origin(h.opening, send)];
      return true;
    }

    method TrackEpisode(k: Subject, bucket: int, severity: Severity, minStreak: int) returns (send: bool)
      modifies `episodes, `history, `log
      ensures send == SendNow(old(State()), k, severity, minStreak)
      ensures episodes == old(episodes)[k := Upserted(old(State()), k, bucket, severity)]
      ensures history == old(history)[k := HistoryAfter(old(State()), k, bucket, severity, minStreak)]
      ensures log == if Ongoing(old(State()), k) then old(log)
                     else old(log) + [Opened(k, HistoryAfter(old(State()), k, bucket, severity, minStreak).opening)]
    {
      var ongoing := k in episodes && !episodes[k].resolved;
      var prevCount := if ongoing then episodes[k].alertCount else 0;
      var prevSeverity := if ongoing then Some(episodes[k].severity) else None;
      ghost var h := HistoryAfter(State(), k, bucket, severity, minStreak);
      if k !in episodes {
        episodes := episodes[k := Episode(bucket, bucket, severity, 1, false, false, false)];
      } else {
        var e := episodes[k];
        var reopened := e.resolved;
        episodes := episodes[k := Episode(
          if reopened then bucket else e.firstBucket,
          if e.lastBucket >= bucket then e.lastBucket else bucket,
          if reopened then severity else if severity == Critical then Critical else e.severity,
          if reopened then 1 else e.alertCount + 1,
          if reopened then false else e.notified,
          false, false)];
      }
      history := history[k := h];
      if !ongoing { log := log + [Opened(k, h.opening)]; }
      send := ShouldNotify(prevCount, prevSeverity, severity, minStreak);
    }

    method ResolveEpisodes(now: int, bucketSize: int)
      modifies `episodes
      ensures State() == Quieted(old(State()), now - bucketSize * RECOVERY_QUIET_BUCKETS)
    {
      var cutoff := now - bucketSize * RECOVERY_QUIET_BUCKETS;
      episodes := map k | k in episodes ::
        if !episodes[k].resolved && episodes[k].lastBucket < cutoff
        then episodes[k].(resolved := true) else episodes[k];
    }

    method Notify(picked: seq<AlertKey>, channels: bool, sent: bool)
      requires Sendable(State(), picked)
      modifies `alerts, `episodes, `log
      ensures State() == AlertsSent(old(State()), picked, if !channels then NoChannel else if sent then Sent else NotSent)
      ensures channels && !sent ==> State() == old(State())
      ensures alerts.Keys == old(alerts).Keys && episodes.Keys == old(episodes).Keys
      ensures !channels || sent ==>
                forall a :: a in alerts ==>
                  alerts[a] == if a in picked then AlertRow(old(alerts)[a].severity, true) else old(alerts)[a]
      ensures forall k :: k in episodes ==>
                episodes[k] == if channels && sent && !old(episodes)[k].resolved && exists a :: a in picked && a.subject == k
                               then old(episodes)[k].(notified := true) else old(episodes)[k]
    {
      hide Sendable;
      if picked == [] { return; }
      if !channels {
        MarkNotified(picked, false);
        return;
      }
      if sent { MarkNotified(picked, true); }
    }

    method MarkNotified(picked: seq<AlertKey>, markEpisodes: bool)
      requires Sendable(State(), picked) && picked != []
      modifies `alerts, `episodes, `log
      ensures State() == AlertsSent(old(State()), picked, if markEpisodes then Sent else NoChannel)
    {
      hide Concerns;
      ghost var events := AlertEvents(State(), picked);
      alerts := map a | a in alerts :: if a in picked then alerts[a].(notified := true) else alerts[a];
      if markEpisodes {
        episodes := map k | k in episodes ::
          if !episodes[k].resolved && Concerns(picked, k)
          then episodes[k].(notified := true) else episodes[k];
        log := log + events;
      }
    }

    method NotifyRecovery(picked: seq<Subject>, channels: bool, sent: bool)
      requires Recoverable(State(), picked)
      modifies `episodes, `log
      ensures State() == RecoveriesSent(old(State()), picked, if !channels then NoChannel else if sent then Sent else NotSent)
      ensures channels && !sent ==> State() == old(State())
      ensures episodes.Keys == old(episodes).Keys
      ensures !channels || sent ==>
                forall k :: k in episodes ==>
                  episodes[k] == if k in picked then old(episodes)[k].(recoveryNotified := true) else old(episodes)[k]
    {
      if picked == [] { return; }
      ghost var events := RecoveryEvents(State(), picked);
      if !channels {
        MarkRecoveryNotified(picked);
        return;
      }
      if sent {
        MarkRecoveryNotified(picked);
        log := log + events;
      }
    }

    method MarkRecoveryNotified(picked: seq<Subject>)
      modifies `episodes
      ensures episodes.Keys == old(episodes).Keys
      ensures forall k :: k in episodes && k in picked ==>
                episodes[k].recoveryNotified && episodes[k].(recoveryNotified := false) == old(episodes)[k].(recoveryNotified := false)
      ensures forall k :: k in episodes && k !in picked ==> episodes[k] == old(episodes)[k]
    {
      episodes := map k | k in episodes ::
        if k in picked then episodes[k].(recoveryNotified := true) else episodes[k];
    }
  }
}
