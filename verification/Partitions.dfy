/** The monthly partitions of the log table, and their creation at start-up
    (was/app/main.py). */
module Partitions {
  import opened Wrappers
  import opened Calendar

  /** A moment: its month, counted as `Index` does, and the time within it. */
  datatype Time = Time(month: int, offset: int)

  /** A log row; `hash` is null on rows older than the dedup column. */
  datatype Row = Row(id: int, device: int, time: Time, hash: Option<string>)

  /** The table named after a month; it is either a partition or still on its own. */
  datatype Table = Table(attached: bool, rows: set<Row>)

  /** `spill` is the default partition. */
  datatype Store = Store(spill: set<Row>, tables: map<int, Table>)

  class Database {
    var spill: set<Row>
    var tables: map<int, Table>
    /** How many transactions of the rebalance script were committed. */
    ghost var committed: nat

    ghost function Contents(): Store
      reads this
    {
      Store(spill, tables)
    }
  }

  lemma Inhabited(months: set<int>)
    ensures months == {} || exists m :: m in months
  {
    if forall m :: m !in months { assert months == {}; }
  }

  const FUTURE_MONTHS := 2

  function MonthRows(rows: set<Row>, m: int): set<Row> {
    set r | r in rows && r.time.month == m
  }

  function RowsOf(s: Store, m: int): set<Row> {
    if m in s.tables then s.tables[m].rows else {}
  }

  predicate Attached(s: Store, m: int) {
    m in s.tables && s.tables[m].attached
  }

  /** A partition's rows never sit in the default partition. */
  ghost predicate Separate(s: Store) {
    forall r :: r in s.spill ==> !Attached(s, r.time.month)
  }

  /** The months `_ensure_partitions` looks at. */
  predicate InWindow(now: YearMonth, past: nat, m: int) {
    Index(now) - past <= m < Index(now) + FUTURE_MONTHS + 1
  }

  /** New are exactly the empty partitions of the months lo..hi that had no table of that name and
      no rows in the default partition; everything else stays. */
  ghost predicate Created(before: Store, after: Store, lo: int, hi: int) {
    && after.spill == before.spill
    && forall m ::
         (m in after.tables <==> m in before.tables || (lo <= m < hi && MonthRows(before.spill, m) == {}))
         && (m in before.tables ==> after.tables[m] == before.tables[m])
         && (m in after.tables && m !in before.tables ==> after.tables[m] == Table(true, {}))
  }

  const DEFAULT_RETENTION_MONTHS := 36
  const MAX_RETENTION_MONTHS := 120

  /** `get_retention_months` (was/app/retention.py), on the stored text read as a number, if it is one. */
  function RetentionMonths(stored: Option<int>): (months: nat)
    ensures 1 <= months <= MAX_RETENTION_MONTHS
  {
    if stored.Some? && 1 <= stored.value <= MAX_RETENTION_MONTHS then stored.value else DEFAULT_RETENTION_MONTHS
  }

  /** `set_retention_months`: what is stored afterwards, if it is accepted. */
  function RetentionStored(months: int): Option<int> {
    if 1 <= months <= MAX_RETENTION_MONTHS then Some(months) else None
  }

  /** Every setting that is accepted, 1 to 120, is the one read back; anything else stored is read as 36. */
  lemma RetentionReadBack(months: int)
    ensures RetentionStored(months) == (if 1 <= months <= 120 then Some(months) else None)
    ensures RetentionMonths(Some(months)) == if RetentionStored(months).Some? then months else 36
    ensures RetentionMonths(None) == 36
  {}

  /** Nothing is done while the log table is not partitioned. */
  method EnsurePartitions(db: Database, partitioned: bool, stored: Option<int>, now: YearMonth)
    requires 1 <= now.month <= 12
    modifies db`tables
    ensures !partitioned ==> db.Contents() == old(db.Contents())
    ensures partitioned ==> Created(old(db.Contents()), db.Contents(),
                                    Index(now) - RetentionMonths(stored), Index(now) + FUTURE_MONTHS + 1)
  {
    hide Index, Shift, MonthRows;
    var past := RetentionMonths(stored);
    if !partitioned { return; }
    var offset := 0 - past;
    while offset < FUTURE_MONTHS + 1
      invariant 0 - past <= offset <= FUTURE_MONTHS + 1
      invariant Created(old(db.Contents()), db.Contents(), Index(now) - past, Index(now) + offset)
    {
      var total := now.month - 1 + offset;
      var m := Index(YearMonth(now.year + total / 12, total % 12 + 1));
      assert m == Index(now) + offset by { ShiftHere(now, offset); }
      if MonthRows(db.spill, m) == {} {
        if m !in db.tables { db.tables := db.tables[m := Table(true, {})]; }
      }
      offset := offset + 1;
    }
  }

  lemma ShiftHere(now: YearMonth, offset: int)
    ensures var total := now.month - 1 + offset;
            Index(YearMonth(now.year + total / 12, total % 12 + 1)) == Index(now) + offset
  {
    ShiftIndex(now, offset);
  }

  /** After start-up a month of the window has its partition if and only if it had one before, or
      neither a table of its name nor rows in the default partition stood in the way. No partition
      is created over rows of the default partition. */
  lemma WindowCovered(before: Store, after: Store, now: YearMonth, past: nat, m: int)
    requires Created(before, after, Index(now) - past, Index(now) + FUTURE_MONTHS + 1)
    ensures InWindow(now, past, m) ==>
              (Attached(after, m) <==> Attached(before, m) || (m !in before.tables && MonthRows(before.spill, m) == {}))
    ensures !InWindow(now, past, m) ==> (Attached(after, m) <==> Attached(before, m))
    ensures Separate(before) ==> Separate(after)
    ensures RowsOf(after, m) == RowsOf(before, m)
  {
    forall r | r in before.spill && Attached(after, r.time.month) ensures Attached(before, r.time.month) {
      assert r in MonthRows(before.spill, r.time.month);
    }
  }
}
