/** Dropping the oldest partition when the disk is full (was/app/disk_guard.py). */
module DiskGuard {
  import opened Wrappers
  import opened Calendar
  import opened Partitions

  const DEFAULT_THRESHOLD := 90
  const MIN_THRESHOLD := 50
  const MAX_THRESHOLD := 99

  /** `get_threshold`, on the stored text read as a number, if it is one. */
  function Threshold(stored: Option<int>): (percent: int)
    ensures MIN_THRESHOLD <= percent <= MAX_THRESHOLD
  {
    if stored.Some? && MIN_THRESHOLD <= stored.value <= MAX_THRESHOLD then stored.value else DEFAULT_THRESHOLD
  }

  /** `save_settings`: the percentage stored afterwards, if it is accepted. */
  function ThresholdStored(percent: int): Option<int> {
    if MIN_THRESHOLD <= percent <= MAX_THRESHOLD then Some(percent) else None
  }

  /** Every threshold that is accepted, 50 to 99, is the one read back; anything else stored is read as 90. */
  lemma ThresholdReadBack(percent: int)
    ensures ThresholdStored(percent) == (if 50 <= percent <= 99 then Some(percent) else None)
    ensures Threshold(Some(percent)) == if ThresholdStored(percent).Some? then percent else 90
    ensures Threshold(None) == 90
  {}

  function MonthAt(i: int): YearMonth {
    YearMonth(i / 12, i % 12 + 1)
  }

  /** Month i is the i-th from January of year 0. */
  lemma MonthAtIndex(m: YearMonth)
    requires 1 <= m.month <= 12
    ensures MonthAt(Index(m)) == m && MonthAt(0) == YearMonth(0, 1)
  {}

  /** The month has a four-digit year, so its table name has the partition pattern. */
  predicate Nameable(i: int) {
    0 <= i < 120000
  }

  function NameOf(i: int): string
    requires Nameable(i)
  {
    Name(MonthAt(i))
  }

  lemma NameOfOrder(i: int, j: int)
    requires Nameable(i) && Nameable(j)
    ensures Less(NameOf(i), NameOf(j)) <==> i < j
  {
    NameOrder(MonthAt(i), MonthAt(j));
  }

  ghost predicate AllNameable(tables: map<int, Table>) {
    forall m :: m in tables ==> Nameable(m)
  }

  /** The past partitions that hold rows. */
  function Purgeable(tables: map<int, Table>, now: int): set<int> {
    set m | m in tables && tables[m].attached && m < now && tables[m].rows != {}
  }

  ghost predicate Ascending(months: seq<int>) {
    forall i, j :: 0 <= i < j < |months| ==> months[i] < months[j]
  }

  /** The month whose table name comes first. */
  method FirstByName(months: set<int>) returns (first: int)
    requires months != {} && forall m :: m in months ==> Nameable(m)
    ensures first in months && forall m :: m in months ==> first <= m
  {
    hide NameOf, Less;
    Inhabited(months);
    first :| first in months;
    var left := months - {first};
    while left != {}
      invariant left <= months && first in months
      invariant forall m :: m in months ==> first <= m || m in left
      decreases |left|
    {
      Inhabited(left);
      var m :| m in left;
      NameOfOrder(m, first);
      if Less(NameOf(m), NameOf(first)) { first := m; }
      left := left - {m};
    }
  }

  /** The partitions of the log table, ordered by name. */
  method PartitionsByName(tables: map<int, Table>) returns (months: seq<int>)
    requires AllNameable(tables)
    ensures Ascending(months)
    ensures forall m :: m in months <==> m in tables && tables[m].attached
  {
    months := [];
    var left := set m | m in tables && tables[m].attached;
    ghost var all := left;
    while left != {}
      invariant left <= all && Ascending(months)
      invariant forall m :: m in all <==> m in left || m in months
      invariant forall m, i :: m in left && 0 <= i < |months| ==> months[i] < m
      decreases |left|
    {
      var first := FirstByName(left);
      months, left := months + [first], left - {first};
    }
  }

  /** `_purgeable_partitions`: the oldest first, compared with the current month by name. */
  method PurgeablePartitions(tables: map<int, Table>, now: int) returns (months: seq<int>)
    requires AllNameable(tables) && Nameable(now)
    ensures Ascending(months)
    ensures forall m :: m in months <==> m in tables && tables[m].attached && m < now && tables[m].rows != {}
    ensures forall m :: m in months <==> m in Purgeable(tables, now)
  {
    hide NameOf, Less;
    var rows := PartitionsByName(tables);
    months := [];
    for i := 0 to |rows|
      invariant Ascending(months)
      invariant forall m :: m in months <==> m in rows[..i] && m < now && tables[m].rows != {}
      invariant forall k, j :: 0 <= k < |months| && i <= j < |rows| ==> months[k] < rows[j]
    {
      NameOfOrder(rows[i], now);
      assert rows[..i + 1] == rows[..i] + [rows[i]];
      if Less(NameOf(rows[i]), NameOf(now)) && tables[rows[i]].rows != {} {
        months := months + [rows[i]];
      }
    }
    assert rows[..|rows|] == rows;
  }

  /** One round of `enforce`: `total` and `percent` are the disk's size and use, size 0 meaning
      that they could not be read. */
  method Enforce(db: Database, enabled: bool, stored: Option<int>, total: nat, percent: real, now: int)
    returns (victim: Option<int>)
    requires AllNameable(db.tables) && Nameable(now)
    modifies db`tables
    ensures victim.Some? <==> enabled && total != 0 && percent >= Threshold(stored) as real
                              && |Purgeable(old(db.tables), now)| >= 2
    ensures Enforced(old(db.tables), db.tables, victim, now)
  {
    victim := None;
    if !enabled { return; }
    if total == 0 { return; }
    if percent < Threshold(stored) as real { return; }
    var targets := PurgeablePartitions(db.tables, now);
    Counted(targets, Purgeable(db.tables, now));
    if |targets| <= 1 { return; }
    victim := Some(targets[0]);
    assert targets[1] in Purgeable(db.tables, now) && targets[1] != targets[0];
    db.tables := db.tables - {targets[0]};
  }

  lemma {:induction false} Counted(months: seq<int>, all: set<int>)
    requires Ascending(months) && forall m :: m in months <==> m in all
    ensures |months| == |all|
    decreases |months|
  {
    if months == [] {
      Inhabited(all);
    } else {
      var n := |months| - 1;
      assert forall m :: m in months[..n] <==> m in all - {months[n]};
      Counted(months[..n], all - {months[n]});
    }
  }

  /** Nothing is dropped, or only the oldest past partition with rows while another remains. */
  ghost predicate Enforced(before: map<int, Table>, after: map<int, Table>, victim: Option<int>, now: int) {
    match victim
    case None => after == before
    case Some(v) =>
      && v in Purgeable(before, now)
      && (forall m :: m in Purgeable(before, now) ==> v <= m)
      && Purgeable(before, now) != {v}
      && after == before - {v}
  }

  // ---------- Runs ----------

  /** Partitions are only added and filled. */
  ghost predicate Filled(before: map<int, Table>, after: map<int, Table>) {
    forall m :: m in before ==> m in after && before[m].rows <= after[m].rows
                                && (before[m].attached ==> after[m].attached)
  }

  /** Rounds at the given months, and between them logs coming in. */
  datatype Round = Round(now: int, victim: Option<int>, tables: map<int, Table>)

  ghost predicate Steps(before: map<int, Table>, after: map<int, Table>, round: Round) {
    Enforced(before, after, round.victim, round.now) || (round.victim == None && Filled(before, after))
  }

  /** The states after each round. */
  ghost predicate RunFrom(tables: map<int, Table>, now: int, rounds: seq<Round>)
    decreases |rounds|
  {
    rounds == [] || (now <= rounds[0].now && Steps(tables, rounds[0].tables, rounds[0])
                     && RunFrom(rounds[0].tables, rounds[0].now, rounds[1..]))
  }

  lemma PurgeableKept(before: map<int, Table>, round: Round, now: int)
    requires now <= round.now && Steps(before, round.tables, round) && Purgeable(before, now) != {}
    ensures Purgeable(round.tables, round.now) != {}
  {
    assert Purgeable(before, now) <= Purgeable(before, round.now);
    match round.victim
    case None =>
      Inhabited(Purgeable(before, now));
      var m :| m in Purgeable(before, now);
      assert m in Purgeable(round.tables, round.now);
    case Some(v) =>
      assert Purgeable(round.tables, round.now) == Purgeable(before, round.now) - {v};
  }

  lemma {:induction false} SomePurgeable(tables: map<int, Table>, now: int, rounds: seq<Round>)
    requires RunFrom(tables, now, rounds) && Purgeable(tables, now) != {}
    ensures rounds != [] ==> var last := rounds[|rounds| - 1]; Purgeable(last.tables, last.now) != {}
    decreases |rounds|
  {
    hide Purgeable, Steps;
    if rounds != [] {
      PurgeableKept(tables, rounds[0], now);
      SomePurgeable(rounds[0].tables, rounds[0].now, rounds[1..]);
      if |rounds| > 1 { assert rounds[1..][|rounds| - 2] == rounds[|rounds| - 1]; }
    }
  }

  /** A past partition with rows. */
  ghost predicate PastRows(tables: map<int, Table>, now: int, m: int) {
    m in tables && tables[m].attached && m < now && tables[m].rows != {}
  }

  /** The last past partition with rows is never dropped, however many rounds run. */
  lemma NeverTheLast(tables: map<int, Table>, now: int, rounds: seq<Round>)
    requires RunFrom(tables, now, rounds) && rounds != [] && exists m :: PastRows(tables, now, m)
    ensures var last := rounds[|rounds| - 1]; exists m :: PastRows(last.tables, last.now, m)
  {
    hide RunFrom;
    var last := rounds[|rounds| - 1];
    var m :| PastRows(tables, now, m);
    assert m in Purgeable(tables, now);
    SomePurgeable(tables, now, rounds);
    Inhabited(Purgeable(last.tables, last.now));
    var m' :| m' in Purgeable(last.tables, last.now);
    assert PastRows(last.tables, last.now, m');
  }

  /** Without logs coming in, what is dropped is past, and older than every past partition with
      rows that is left: the history kept has no gaps in front of what was dropped. */
  lemma {:induction false} OldestFirst(tables: map<int, Table>, now: int, rounds: seq<Round>, i: nat, m: int)
    requires RunFrom(tables, now, rounds) && i < |rounds| && rounds[i].victim.Some?
    requires forall j :: 0 <= j < |rounds| ==>
               Enforced(if j == 0 then tables else rounds[j - 1].tables, rounds[j].tables, rounds[j].victim, rounds[j].now)
    requires var last := rounds[|rounds| - 1]; PastRows(last.tables, last.now, m)
    ensures rounds[i].victim.value < rounds[i].now && rounds[i].victim.value < m
    decreases |rounds|
  {
    var last := rounds[|rounds| - 1];
    if i > 0 {
      assert forall j :: 0 <= j < |rounds[1..]| ==> rounds[1..][j] == rounds[j + 1];
      OldestFirst(rounds[0].tables, rounds[0].now, rounds[1..], i - 1, m);
    } else {
      var v := rounds[0].victim.value;
      StillThere(rounds[0].tables, rounds[0].now, rounds[1..], rounds, m);
      assert m in rounds[0].tables;
      assert m >= rounds[0].now || m in Purgeable(tables, rounds[0].now);
    }
  }

  /** A table of the last state was there, with the same rows, in the first. */
  lemma {:induction false} StillThere(tables: map<int, Table>, now: int, rounds: seq<Round>, all: seq<Round>, m: int)
    requires all != [] && rounds == all[1..] && tables == all[0].tables && now == all[0].now
    requires forall j :: 1 <= j < |all| ==> Enforced(all[j - 1].tables, all[j].tables, all[j].victim, all[j].now)
    requires m in all[|all| - 1].tables
    ensures m in tables && tables[m] == all[|all| - 1].tables[m]
    decreases |all|
  {
    if |all| > 1 {
      StillThere(all[1].tables, all[1].now, all[2..], all[1..], m);
    }
  }
}
