/** Moving the rows of the default partition into month tables, in committed chunks
    (scripts/rebalance_default_partition.sql). */
module Rebalance {
  import opened Partitions

  const CHUNK := 50000

  /** What makes a row the same log entry: the dedup columns, or its id if it has no hash. */
  datatype Key = ByHash(device: int, time: Time, hash: string) | ById(id: int, time: Time)

  function KeyOf(r: Row): Key {
    if r.hash.Some? then ByHash(r.device, r.time, r.hash.value) else ById(r.id, r.time)
  }

  /** The two rows may not both be in one table: the primary key or the dedup index forbids it. */
  predicate Conflict(a: Row, b: Row) {
    a.time == b.time && (a.id == b.id || (a.hash.Some? && a.device == b.device && a.hash == b.hash))
  }

  predicate Clashes(r: Row, rows: set<Row>) {
    exists t :: t in rows && Conflict(r, t)
  }

  ghost predicate InStore(s: Store, r: Row) {
    r in s.spill || r in RowsOf(s, r.time.month)
  }

  /** No two rows of the default partition conflict. */
  ghost predicate Indexed(rows: set<Row>) {
    forall a, b :: a in rows && b in rows && Conflict(a, b) ==> a == b
  }

  /** A month table holds rows of its month, ids come from one sequence, the indexes hold. */
  ghost predicate Valid(s: Store) {
    && Indexed(s.spill)
    && (forall m, r :: m in s.tables && r in s.tables[m].rows ==> r.time.month == m)
    && (forall a, b :: InStore(s, a) && InStore(s, b) && a.id == b.id && a.time == b.time ==> a == b)
  }

  ghost predicate HasKey(s: Store, k: Key) {
    exists r :: InStore(s, r) && KeyOf(r) == k
  }

  ghost predicate SameKeys(s: Store, s': Store) {
    forall k :: HasKey(s, k) <==> HasKey(s', k)
  }

  /** No row of the default partition is also in its month's table. */
  ghost predicate NoConflict(s: Store) {
    forall r :: r in s.spill ==> !Clashes(r, RowsOf(s, r.time.month))
  }

  /** The two unique indexes hold among the rows: no log entry twice, no id twice at one time. */
  ghost predicate Unique(rows: set<Row>) {
    forall a, b :: a in rows && b in rows && (KeyOf(a) == KeyOf(b) || (a.id == b.id && a.time == b.time)) ==> a == b
  }

  /** They hold in every month table. */
  ghost predicate TablesUnique(s: Store) {
    forall m :: m in s.tables ==> Unique(s.tables[m].rows)
  }

  // ---------- Steps ----------

  function Fresh(rows: set<Row>, chunk: set<Row>): set<Row> {
    set r | r in chunk && !Clashes(r, rows)
  }

  /** One committed chunk: deleted from the default partition, inserted where no index forbids it. */
  function Moved(s: Store, m: int, chunk: set<Row>): Store {
    Store(s.spill - chunk, s.tables[m := Table(false, RowsOf(s, m) + Fresh(RowsOf(s, m), chunk))])
  }

  function AttachedNow(s: Store, m: int): Store
    requires m in s.tables
  {
    s.(tables := s.tables[m := s.tables[m].(attached := true)])
  }

  /** The months the script goes through: past months in the default partition, and every month
      table not attached. */
  function Targets(s: Store, now: int): set<int> {
    (set r | r in s.spill && r.time.month < now :: r.time.month) + (set m | m in s.tables && !s.tables[m].attached)
  }

  function Pending(s: Store, now: int): set<int> {
    set m | m in Targets(s, now) && !Attached(s, m)
  }

  /** Where a run that is never cut off ends. */
  function Final(s: Store, now: int): Store {
    var todo := Pending(s, now);
    Store(set r | r in s.spill && r.time.month !in todo,
          map m | m in s.tables.Keys + todo ::
            if m in todo then Table(true, RowsOf(s, m) + MonthRows(s.spill, m)) else s.tables[m])
  }

  // ---------- What a chunk keeps ----------

  lemma MovedStore(s: Store, m: int, chunk: set<Row>, r: Row)
    requires Valid(s) && chunk <= MonthRows(s.spill, m)
    ensures InStore(Moved(s, m, chunk), r) ==> InStore(s, r)
    ensures InStore(s, r) ==> InStore(Moved(s, m, chunk), r) || (r in chunk && Clashes(r, RowsOf(s, m)))
  {
    hide Clashes;
  }

  lemma MovedValid(s: Store, m: int, chunk: set<Row>)
    requires Valid(s) && chunk <= MonthRows(s.spill, m)
    ensures Valid(Moved(s, m, chunk))
  {
    hide Clashes;
    forall r | InStore(Moved(s, m, chunk), r) ensures InStore(s, r) { MovedStore(s, m, chunk, r); }
  }

  /** A row that an index keeps out of the month table is the same log entry as one in it. */
  lemma ClashKey(s: Store, m: int, r: Row)
    requires Valid(s) && InStore(s, r) && Clashes(r, RowsOf(s, m))
    ensures exists t :: t in RowsOf(s, m) && KeyOf(t) == KeyOf(r) && t.time.month == m
  {
    var t :| t in RowsOf(s, m) && Conflict(r, t);
    assert InStore(s, t);
  }

  lemma MovedKeys(s: Store, m: int, chunk: set<Row>)
    requires Valid(s) && chunk <= MonthRows(s.spill, m)
    ensures SameKeys(s, Moved(s, m, chunk))
  {
    hide Clashes, Valid, KeyOf;
    var s' := Moved(s, m, chunk);
    forall k ensures HasKey(s, k) <==> HasKey(s', k) {
      if HasKey(s, k) {
        var r :| InStore(s, r) && KeyOf(r) == k;
        MovedStore(s, m, chunk, r);
        if !InStore(s', r) {
          ClashKey(s, m, r);
          var t :| t in RowsOf(s, m) && KeyOf(t) == k && t.time.month == m;
          assert InStore(s', t);
        }
      }
      if HasKey(s', k) {
        var r :| InStore(s', r) && KeyOf(r) == k;
        MovedStore(s, m, chunk, r);
      }
    }
  }

  /** What a chunk leaves in the table of its month: the rows that were there, and of the chunk exactly
      those of which the table had neither the log entry nor the id. */
  lemma MovedRows(s: Store, m: int, chunk: set<Row>, r: Row)
    requires chunk <= MonthRows(s.spill, m)
    ensures r in RowsOf(Moved(s, m, chunk), m) <==>
              r in RowsOf(s, m)
              || (r in chunk && forall t :: t in RowsOf(s, m) && t.time == r.time ==> KeyOf(t) != KeyOf(r) && t.id != r.id)
    ensures forall x :: x != m ==> RowsOf(Moved(s, m, chunk), x) == RowsOf(s, x) && (Attached(Moved(s, m, chunk), x) <==> Attached(s, x))
    ensures r in Moved(s, m, chunk).spill <==> r in s.spill && r !in chunk
  {
    if r in chunk {
      if t :| t in RowsOf(s, m) && Conflict(r, t) { assert t.time == r.time; }
      if t :| t in RowsOf(s, m) && t.time == r.time && (KeyOf(t) == KeyOf(r) || t.id == r.id) { assert Conflict(r, t); }
    }
  }

  lemma MovedUnique(s: Store, m: int, chunk: set<Row>)
    requires Indexed(s.spill) && TablesUnique(s) && chunk <= MonthRows(s.spill, m)
    ensures TablesUnique(Moved(s, m, chunk))
  {
    hide Moved;
    var s' := Moved(s, m, chunk);
    forall x | x in s'.tables ensures Unique(s'.tables[x].rows) {
      forall a, b | a in s'.tables[x].rows && b in s'.tables[x].rows && (KeyOf(a) == KeyOf(b) || (a.id == b.id && a.time == b.time))
        ensures a == b
      {
        MovedRows(s, m, chunk, a);
        MovedRows(s, m, chunk, b);
        assert KeyOf(a) == KeyOf(b) ==> a.time == b.time;
        assert a in RowsOf(s', x) && b in RowsOf(s', x);
        if a in chunk && b in chunk { assert Conflict(a, b); }
      }
    }
  }

  // ---------- What the end owes to a chunk ----------

  lemma FreshAll(s: Store, m: int, chunk: set<Row>)
    requires NoConflict(s) && chunk <= MonthRows(s.spill, m)
    ensures Fresh(RowsOf(s, m), chunk) == chunk
  {
    hide Clashes;
    forall r | r in chunk ensures r in Fresh(RowsOf(s, m), chunk) {
      assert r in s.spill && r.time.month == m;
    }
  }

  lemma MovedNoConflict(s: Store, m: int, chunk: set<Row>)
    requires NoConflict(s) && Indexed(s.spill) && chunk <= MonthRows(s.spill, m)
    ensures NoConflict(Moved(s, m, chunk))
  {
    FreshAll(s, m, chunk);
    var s' := Moved(s, m, chunk);
    forall r | r in s'.spill ensures !Clashes(r, RowsOf(s', r.time.month)) {
      assert !Clashes(r, RowsOf(s, r.time.month));
      if r.time.month == m {
        forall t | t in RowsOf(s', m) ensures !Conflict(r, t) {
          if t in chunk { assert t in s.spill; }
        }
      }
    }
  }

  lemma MovedPending(s: Store, now: int, m: int, chunk: set<Row>)
    requires m in Pending(s, now) && chunk <= MonthRows(s.spill, m)
    ensures Pending(Moved(s, m, chunk), now) == Pending(s, now)
  {
    hide Clashes;
    var s' := Moved(s, m, chunk);
    forall x ensures x in Pending(s', now) <==> x in Pending(s, now) {
      if x != m {
        forall r | r in s.spill && r.time.month == x ensures r in s'.spill {}
      }
    }
  }

  /** A chunk does not change where the run ends. */
  lemma MovedFinal(s: Store, now: int, m: int, chunk: set<Row>)
    requires NoConflict(s) && m in Pending(s, now) && chunk <= MonthRows(s.spill, m)
    ensures Final(Moved(s, m, chunk), now) == Final(s, now)
  {
    hide Clashes, Pending, NoConflict;
    FreshAll(s, m, chunk);
    MovedPending(s, now, m, chunk);
    var s' := Moved(s, m, chunk);
    var todo := Pending(s, now);
    assert RowsOf(s', m) + MonthRows(s'.spill, m) == RowsOf(s, m) + MonthRows(s.spill, m);
    assert forall x :: x != m ==> MonthRows(s'.spill, x) == MonthRows(s.spill, x);
    assert (set r | r in s'.spill && r.time.month !in todo) == (set r | r in s.spill && r.time.month !in todo);
  }

  lemma AttachPending(s: Store, now: int, m: int)
    requires m in s.tables && m in Pending(s, now)
    ensures Pending(AttachedNow(s, m), now) == Pending(s, now) - {m}
  {}

  /** Nor does attaching a month whose rows have all moved. */
  lemma AttachFinal(s: Store, now: int, m: int)
    requires m in s.tables && m in Pending(s, now) && MonthRows(s.spill, m) == {}
    ensures Final(AttachedNow(s, m), now) == Final(s, now)
  {
    hide Pending;
    AttachPending(s, now, m);
    assert forall r :: r in s.spill && r.time.month == m ==> r in MonthRows(s.spill, m);
    assert RowsOf(s, m) + {} == RowsOf(s, m);
  }

  lemma FinalOfDone(s: Store, now: int)
    requires Pending(s, now) == {}
    ensures Final(s, now) == s
  {
    hide Pending;
  }

  // ---------- The script ----------

  /** Only rows of pending months leave the default partition, and those left behind stay pending. */
  ghost predicate Takes(s: Store, s': Store, now: int) {
    && s'.spill <= s.spill && Pending(s', now) <= Pending(s, now)
    && (forall r :: r in s.spill && r.time.month !in Pending(s, now) ==> r in s'.spill)
    && (forall r :: r in s'.spill && r.time.month in Pending(s, now) ==> r.time.month in Pending(s', now))
  }

  lemma MovedTakes(s: Store, now: int, m: int, chunk: set<Row>)
    requires m in Pending(s, now) && chunk <= MonthRows(s.spill, m)
    ensures Takes(s, Moved(s, m, chunk), now)
  {
    hide Pending, Clashes;
    MovedPending(s, now, m, chunk);
  }

  lemma AttachTakes(s: Store, now: int, m: int)
    requires m in s.tables && m in Pending(s, now) && MonthRows(s.spill, m) == {}
    ensures Takes(s, AttachedNow(s, m), now)
  {
    hide Pending;
    AttachPending(s, now, m);
    forall r | r in s.spill ensures r.time.month != m {
      assert r.time.month == m ==> r in MonthRows(s.spill, m);
    }
  }

  lemma TakesOn(s: Store, s': Store, s'': Store, now: int)
    requires Takes(s, s', now) && Takes(s', s'', now)
    ensures Takes(s, s'', now)
  {
    hide Pending;
  }

  /** Run to its end in this month or any later one, the script ends in the same state from both. */
  ghost predicate SameEnds(s: Store, s': Store, now: int) {
    forall later :: later >= now ==> Final(s', later) == Final(s, later)
  }

  /** What holds between the start and any later commit. */
  ghost predicate Leads(s: Store, s': Store, now: int) {
    && Valid(s') && SameKeys(s, s') && Takes(s, s', now) && KeepsTables(s, s')
    && (NoConflict(s) ==> NoConflict(s') && SameEnds(s, s', now))
  }

  /** The rows of the month tables stay, attached ones stay attached and as they are, and the indexes
      of the tables hold if they did. */
  ghost predicate KeepsTables(s: Store, s': Store) {
    && (forall m :: RowsOf(s, m) <= RowsOf(s', m))
    && (forall m :: Attached(s, m) ==> Attached(s', m) && RowsOf(s', m) == RowsOf(s, m))
    && (TablesUnique(s) ==> TablesUnique(s'))
  }

  lemma KeepsOn(s: Store, s': Store, s'': Store)
    requires KeepsTables(s, s') && KeepsTables(s', s'')
    ensures KeepsTables(s, s'')
  {
    hide TablesUnique, Attached;
    forall m ensures RowsOf(s, m) <= RowsOf(s'', m) { assert RowsOf(s, m) <= RowsOf(s', m); }
  }

  lemma MovedKeeps(s: Store, m: int, chunk: set<Row>)
    requires Valid(s) && !Attached(s, m) && chunk <= MonthRows(s.spill, m)
    ensures KeepsTables(s, Moved(s, m, chunk))
  {
    hide Fresh, TablesUnique;
    if TablesUnique(s) { MovedUnique(s, m, chunk); }
  }

  lemma AttachKeeps(s: Store, m: int)
    requires m in s.tables
    ensures KeepsTables(s, AttachedNow(s, m))
  {
    hide KeyOf;
  }

  lemma EndsOn(s: Store, s': Store, s'': Store, now: int)
    requires SameEnds(s, s', now) && SameEnds(s', s'', now)
    ensures SameEnds(s, s'', now)
  {
    hide Final;
  }

  lemma LeadsOn(s: Store, s': Store, s'': Store, now: int)
    requires Leads(s, s', now) && Leads(s', s'', now)
    ensures Leads(s, s'', now)
  {
    hide Valid, NoConflict, SameEnds, HasKey, Takes, KeepsTables;
    TakesOn(s, s', s'', now);
    KeepsOn(s, s', s'');
    if NoConflict(s) { EndsOn(s, s', s'', now); }
  }

  /** A month stays to be done as time goes on. */
  lemma PendingGrows(s: Store, now: int, later: int)
    requires now <= later
    ensures Pending(s, now) <= Pending(s, later)
  {
    hide Attached;
    forall m | m in Targets(s, now) ensures m in Targets(s, later) {
      if r :| r in s.spill && r.time.month < now && r.time.month == m {
        assert r.time.month < later;
      }
    }
  }

  lemma MovedEnds(s: Store, now: int, m: int, chunk: set<Row>)
    requires NoConflict(s) && m in Pending(s, now) && chunk <= MonthRows(s.spill, m)
    ensures SameEnds(s, Moved(s, m, chunk), now)
  {
    hide NoConflict, Pending, Moved, Final;
    forall later | later >= now ensures Final(Moved(s, m, chunk), later) == Final(s, later) {
      PendingGrows(s, now, later);
      MovedFinal(s, later, m, chunk);
    }
  }

  lemma AttachEnds(s: Store, now: int, m: int)
    requires m in s.tables && m in Pending(s, now) && MonthRows(s.spill, m) == {}
    ensures SameEnds(s, AttachedNow(s, m), now)
  {
    hide Pending, AttachedNow, Final;
    forall later | later >= now ensures Final(AttachedNow(s, m), later) == Final(s, later) {
      PendingGrows(s, now, later);
      AttachFinal(s, later, m);
    }
  }

  lemma PendingLoose(s: Store, now: int, m: int)
    requires m in Pending(s, now)
    ensures !Attached(s, m)
  {}

  lemma MovedLeads(s: Store, now: int, m: int, chunk: set<Row>)
    requires Valid(s) && m in Pending(s, now) && chunk <= MonthRows(s.spill, m)
    ensures Leads(s, Moved(s, m, chunk), now)
  {
    hide NoConflict, SameKeys, SameEnds, Pending, Moved, Takes, KeepsTables;
    PendingLoose(s, now, m);
    MovedKeeps(s, m, chunk);
    MovedValid(s, m, chunk);
    MovedTakes(s, now, m, chunk);
    MovedKeys(s, m, chunk);
    if NoConflict(s) {
      MovedNoConflict(s, m, chunk);
      MovedEnds(s, now, m, chunk);
    }
  }

  lemma AttachLeads(s: Store, now: int, m: int)
    requires Valid(s) && m in s.tables && m in Pending(s, now) && MonthRows(s.spill, m) == {}
    ensures Leads(s, AttachedNow(s, m), now)
    ensures forall x :: x != m ==> Attached(AttachedNow(s, m), x) == Attached(s, x)
  {
    hide SameEnds, Pending, Clashes, Takes, KeepsTables;
    AttachKeeps(s, m);
    var s' := AttachedNow(s, m);
    AttachEnds(s, now, m);
    AttachTakes(s, now, m);
    assert forall x :: RowsOf(s', x) == RowsOf(s, x);
    assert forall r :: InStore(s', r) <==> InStore(s, r);
    assert SameKeys(s, s') by { hide KeyOf; }
  }

  lemma LeadsMeans(s: Store, s': Store, now: int)
    requires Leads(s, s', now)
    ensures Valid(s') && SameKeys(s, s') && Takes(s, s', now) && KeepsTables(s, s')
    ensures NoConflict(s) ==> NoConflict(s') && SameEnds(s, s', now) && Final(s', now) == Final(s, now)
  {
    hide Valid, NoConflict, Final, SameKeys, Takes, KeepsTables;
  }

  lemma LeadsSelf(s: Store, now: int)
    requires Valid(s)
    ensures Leads(s, s, now)
  {
    hide Valid, NoConflict, Final, TablesUnique;
  }

  /** Cut off: the run stops before its next commit, and what was not committed is undone. */
  datatype Outcome = Done | CutOff | NotAttached(month: int)

  /** Some rows, as many as a chunk holds or all there are. */
  method PickChunk(rows: set<Row>) returns (chunk: set<Row>)
    ensures chunk <= rows && |chunk| == if |rows| < CHUNK then |rows| else CHUNK
  {
    chunk := {};
    var left := rows;
    while left != {} && |chunk| < CHUNK
      invariant chunk <= rows && left == rows - chunk && |chunk| <= CHUNK
      invariant |left| + |chunk| == |rows|
      decreases |left|
    {
      var r :| r in left;
      chunk, left := chunk + {r}, left - {r};
    }
  }

  method SortedMonths(months: set<int>) returns (sorted: seq<int>)
    ensures forall i, j :: 0 <= i < j < |sorted| ==> sorted[i] < sorted[j]
    ensures forall m :: m in sorted <==> m in months
    ensures |sorted| == |months|
  {
    sorted := [];
    var left := months;
    while left != {}
      invariant left <= months && |left| + |sorted| == |months|
      invariant forall m :: m in months <==> m in left || m in sorted
      invariant forall i, j :: 0 <= i < j < |sorted| ==> sorted[i] < sorted[j]
      invariant forall m, i :: m in left && 0 <= i < |sorted| ==> sorted[i] < m
      decreases |left|
    {
      var least := Least(left);
      sorted, left := sorted + [least], left - {least};
    }
  }

  method Least(months: set<int>) returns (least: int)
    requires months != {}
    ensures least in months && forall m :: m in months ==> least <= m
  {
    Inhabited(months);
    least :| least in months;
    var left := months - {least};
    while left != {}
      invariant left <= months && least in months
      invariant forall m :: m in months ==> least <= m || m in left
      decreases |left|
    {
      Inhabited(left);
      var m :| m in left;
      if m < least { least := m; }
      left := left - {m};
    }
  }

  /** The chunk loop of one month, making at most `commits` commits. */
  method MoveMonth(db: Database, m: int, now: int, commits: nat) returns (used: nat, finished: bool)
    requires Valid(db.Contents()) && m in Pending(db.Contents(), now)
    modifies db
    ensures Leads(old(db.Contents()), db.Contents(), now)
    ensures Pending(db.Contents(), now) == Pending(old(db.Contents()), now)
    ensures used <= commits && used + |db.spill| <= |old(db.spill)| + 1 && |db.spill| <= |old(db.spill)|
    ensures finished ==> m in db.tables
    ensures !finished ==> used == commits
    ensures db.committed == old(db.committed) + used
    ensures finished && NoConflict(old(db.Contents())) ==> MonthRows(db.spill, m) == {}
    ensures finished && MonthRows(db.spill, m) != {} ==> |db.spill| < |old(db.spill)|
    ensures finished ==> forall x :: Attached(db.Contents(), x) == Attached(old(db.Contents()), x)
    ensures forall r :: r in old(db.spill) && r.time.month != m ==> r in db.spill
  {
    hide Valid, NoConflict, SameKeys, Final, Pending, Fresh, Leads;
    used, finished := 0, false;
    LeadsSelf(db.Contents(), now);
    while !finished
      invariant Leads(old(db.Contents()), db.Contents(), now)
      invariant Pending(db.Contents(), now) == Pending(old(db.Contents()), now)
      invariant db.committed == old(db.committed) + used
      invariant used <= commits && |db.spill| <= |old(db.spill)|
      invariant forall r :: r in old(db.spill) && r.time.month != m ==> r in db.spill
      invariant used + |db.spill| <= |old(db.spill)| + if finished then 1 else 0
      invariant finished ==> m in db.tables
      invariant finished && NoConflict(old(db.Contents())) ==> MonthRows(db.spill, m) == {}
      invariant finished && MonthRows(db.spill, m) != {} ==> |db.spill| < |old(db.spill)|
      invariant forall x :: Attached(db.Contents(), x) == Attached(old(db.Contents()), x)
      decreases !finished, |db.spill|
    {
      if used == commits { return; }
      ghost var before := db.Contents();
      var rows := MonthRows(db.spill, m);
      var chunk := PickChunk(rows);
      var table := if m in db.tables then db.tables[m].rows else {};
      var inserted := Fresh(table, chunk);
      db.spill, db.tables := db.spill - chunk, db.tables[m := Table(false, table + inserted)];
      db.committed := db.committed + 1;
      used := used + 1;
      finished := |inserted| == 0;
      MovedStep(old(db.Contents()), before, now, m, chunk);
    }
  }

  lemma MovedStep(start: Store, s: Store, now: int, m: int, chunk: set<Row>)
    requires Leads(start, s, now) && m in Pending(s, now) && chunk <= MonthRows(s.spill, m)
    requires |chunk| == if |MonthRows(s.spill, m)| < CHUNK then |MonthRows(s.spill, m)| else CHUNK
    ensures Leads(start, Moved(s, m, chunk), now) && Pending(Moved(s, m, chunk), now) == Pending(s, now)
    ensures |Moved(s, m, chunk).spill| == |s.spill| - |chunk|
    ensures Fresh(RowsOf(s, m), chunk) != {} ==> chunk != {}
    ensures chunk == {} ==> MonthRows(s.spill, m) == {}
    ensures NoConflict(start) && Fresh(RowsOf(s, m), chunk) == {} ==> chunk == {}
    ensures forall x :: Attached(Moved(s, m, chunk), x) == Attached(s, x)
  {
    hide Leads, Pending, Moved, NoConflict, Fresh, Attached, Valid, Final;
    LeadsMeans(start, s, now);
    MovedPending(s, now, m, chunk);
    MovedLeads(s, now, m, chunk);
    LeadsOn(start, s, Moved(s, m, chunk), now);
    MovedSizes(s, now, m, chunk);
    if NoConflict(start) { FreshAll(s, m, chunk); }
  }

  lemma MovedSizes(s: Store, now: int, m: int, chunk: set<Row>)
    requires m in Pending(s, now) && chunk <= MonthRows(s.spill, m)
    ensures |Moved(s, m, chunk).spill| == |s.spill| - |chunk|
    ensures Fresh(RowsOf(s, m), chunk) != {} ==> chunk != {}
    ensures forall x :: Attached(Moved(s, m, chunk), x) == Attached(s, x)
  {
    hide Clashes, Targets;
    assert chunk <= s.spill;
  }

  /** The months still to do, as far as this run goes through them. */
  ghost predicate Remaining(s: Store, s': Store, now: int, months: seq<int>, i: nat) {
    i <= |months| && forall m :: m in Pending(s', now) <==> m in months[i..] && !Attached(s, m)
  }

  lemma RemainingNext(s: Store, s': Store, now: int, months: seq<int>, i: nat)
    requires i < |months| && Remaining(s, s', now, months, i)
    requires forall j, k :: 0 <= j < k < |months| ==> months[j] < months[k]
    ensures Attached(s, months[i]) ==> Remaining(s, s', now, months, i + 1)
    ensures !Attached(s, months[i]) ==> months[i] in Pending(s', now)
    ensures !Attached(s, months[i]) && months[i] in s'.tables ==>
              Remaining(s, AttachedNow(s', months[i]), now, months, i + 1)
  {
    hide Pending, Attached;
    var m := months[i];
    assert months[i..] == [m] + months[i + 1..];
    assert m !in months[i + 1..];
    if !Attached(s, m) && m in s'.tables { AttachPending(s', now, m); }
  }

  lemma RemainingSame(s: Store, s': Store, s'': Store, now: int, months: seq<int>, i: nat)
    requires Remaining(s, s', now, months, i) && Pending(s'', now) == Pending(s', now)
    ensures Remaining(s, s'', now, months, i)
  {
    hide Pending;
  }

  lemma RemainingAll(s: Store, now: int, months: seq<int>)
    requires forall m :: m in months <==> m in Targets(s, now)
    ensures Remaining(s, s, now, months, 0)
  {
    assert months[0..] == months;
  }

  lemma RemainingNone(s: Store, s': Store, now: int, months: seq<int>)
    requires Remaining(s, s', now, months, |months|)
    ensures Pending(s', now) == {} && Final(s', now) == s'
  {
    hide Final, Attached;
    FinalOfDone(s', now);
  }

  /** Enough commits for a run never to be cut off. */
  function Enough(s: Store, now: int): nat {
    |s.spill| + 2 * |Targets(s, now)|
  }

  /** One run of the script, cut off after `commits` commits: what it leaves is the state at that
      commit. Every commit keeps the entries. Without conflicts it also keeps where the run ends,
      so a run that is not cut off, and one that resumes another, end in the same state. With
      conflicts a run may fail to attach a month, but then it removed duplicates. */
  method Run(db: Database, now: int, commits: nat) returns (outcome: Outcome)
    requires Valid(db.Contents())
    modifies db
    ensures Leads(old(db.Contents()), db.Contents(), now)
    ensures outcome == Done && NoConflict(old(db.Contents())) ==> db.Contents() == Final(old(db.Contents()), now)
    ensures old(db.committed) <= db.committed <= old(db.committed) + commits
    ensures outcome.CutOff? ==> db.committed == old(db.committed) + commits
    ensures outcome.CutOff? ==> commits < Enough(old(db.Contents()), now)
    ensures outcome.NotAttached? ==> !NoConflict(old(db.Contents())) && MonthRows(db.spill, outcome.month) != {}
    ensures outcome.NotAttached? ==> |db.spill| < |old(db.spill)|
    ensures outcome == Done ==> Pending(db.Contents(), now) == {}
    ensures NoLooseTable(old(db.Contents()), now) ==> CurrentKept(old(db.Contents()), db.Contents(), now)
    ensures outcome == Done ==>
              (CurrentKept(old(db.Contents()), db.Contents(), now) <==> NoLooseTable(old(db.Contents()), now))
  {
    var before := Store(db.spill, db.tables);
    outcome := RunMonths(db, now, commits);
    LeadsMeans(before, db.Contents(), now);
    CurrentMonthKept(before, db.Contents(), now);
  }

  /** The script itself, month by month. */
  method RunMonths(db: Database, now: int, commits: nat) returns (outcome: Outcome)
    requires Valid(db.Contents())
    modifies db
    ensures Leads(old(db.Contents()), db.Contents(), now)
    ensures outcome == Done && NoConflict(old(db.Contents())) ==> db.Contents() == Final(old(db.Contents()), now)
    ensures old(db.committed) <= db.committed <= old(db.committed) + commits
    ensures outcome.CutOff? ==> db.committed == old(db.committed) + commits
    ensures outcome.CutOff? ==> commits < Enough(old(db.Contents()), now)
    ensures outcome.NotAttached? ==> !NoConflict(old(db.Contents())) && MonthRows(db.spill, outcome.month) != {}
    ensures outcome.NotAttached? ==> |db.spill| < |old(db.spill)|
    ensures outcome == Done ==> Pending(db.Contents(), now) == {}
  {
    hide Valid, NoConflict, SameKeys, Final, Pending, Remaining, Leads, Attached, Targets;
    ghost var start := db.Contents();
    LeadsSelf(start, now);
    var months := SortedMonths(Targets(Store(db.spill, db.tables), now));
    RemainingAll(start, now, months);
    var left: nat := commits;
    var i := 0;
    while i < |months|
      invariant 0 <= i <= |months|
      invariant Leads(start, db.Contents(), now) && Remaining(start, db.Contents(), now, months, i)
      invariant forall j :: i <= j < |months| ==> Attached(db.Contents(), months[j]) == Attached(start, months[j])
      invariant |db.spill| <= |start.spill|
      invariant db.committed == old(db.committed) + (commits - left)
      invariant left <= commits && commits - left + |db.spill| <= |start.spill| + 2 * i
    {
      var m := months[i];
      RemainingNext(start, db.Contents(), now, months, i);
      if !Attached(Store(db.spill, db.tables), m) {
        ghost var before := db.Contents();
        LeadsMeans(start, before, now);
        var used, finished := MoveMonth(db, m, now, left);
        LeadsOn(start, before, db.Contents(), now);
        left := left - used;
        if !finished { return CutOff; }
        if MonthRows(db.spill, m) != {} { return NotAttached(m); }
        if left == 0 { return CutOff; }
        ghost var moved := db.Contents();
        LeadsMeans(start, moved, now);
        RemainingSame(start, before, moved, now, months, i);
        RemainingNext(start, moved, now, months, i);
        AttachLeads(moved, now, m);
        db.tables := db.tables[m := db.tables[m].(attached := true)];
        db.committed := db.committed + 1;
        left := left - 1;
        LeadsOn(start, moved, db.Contents(), now);
      }
      i := i + 1;
    }
    LeadsMeans(start, db.Contents(), now);
    RemainingNone(start, db.Contents(), now, months);
    return Done;
  }

  /** A run of the script: the month it is in, and the commit it is cut off after. */
  datatype Attempt = Attempt(month: int, commits: nat)

  /** What runs in months up to `later` leave for a run in that month. */
  ghost predicate LeadsTo(s: Store, s': Store, later: int) {
    && Valid(s') && SameKeys(s, s') && KeepsTables(s, s')
    && (NoConflict(s) ==> NoConflict(s') && Final(s', later) == Final(s, later))
  }

  lemma LeadsToOn(s: Store, s': Store, s'': Store, now: int, later: int)
    requires LeadsTo(s, s', later) && Leads(s', s'', now) && now <= later
    ensures LeadsTo(s, s'', later)
  {
    hide Valid, NoConflict, Final, HasKey, Takes, KeepsTables;
    KeepsOn(s, s', s'');
  }

  lemma LeadsToMeans(s: Store, s': Store, later: int)
    requires LeadsTo(s, s', later)
    ensures Valid(s') && SameKeys(s, s') && KeepsTables(s, s') && (NoConflict(s) ==> NoConflict(s') && Final(s', later) == Final(s, later))
  {
    hide Valid, NoConflict, Final, SameKeys, KeepsTables;
  }

  lemma LeadsToSelf(s: Store, later: int)
    requires Valid(s)
    ensures LeadsTo(s, s, later)
  {
    hide Valid, NoConflict, Final, TablesUnique;
  }

  /** Runs cut off at any commits, and run again in the same month or a later one: the end is where one
      uninterrupted run in that month would have been. */
  method CutOffAndRerun(db: Database, attempts: seq<Attempt>, later: int)
    requires Valid(db.Contents()) && forall i :: 0 <= i < |attempts| ==> attempts[i].month <= later
    modifies db
    ensures SameKeys(old(db.Contents()), db.Contents()) && KeepsTables(old(db.Contents()), db.Contents())
    ensures NoConflict(old(db.Contents())) ==> db.Contents() == Final(old(db.Contents()), later)
  {
    hide Valid, NoConflict, SameKeys, Final, Leads, LeadsTo, KeepsTables;
    ghost var start := db.Contents();
    LeadsToSelf(start, later);
    for i := 0 to |attempts|
      invariant LeadsTo(start, db.Contents(), later)
    {
      ghost var before := db.Contents();
      LeadsToMeans(start, before, later);
      var _ := Run(db, attempts[i].month, attempts[i].commits);
      LeadsToOn(start, before, db.Contents(), attempts[i].month, later);
    }
    ghost var between := db.Contents();
    LeadsToMeans(start, between, later);
    var outcome := Run(db, later, |db.spill| + 2 * |Targets(Store(db.spill, db.tables), later)|);
    LeadsToOn(start, between, db.Contents(), later, later);
    LeadsToMeans(start, db.Contents(), later);
  }

  /** Where the run ends: the same rows, every past row of the default partition in an attached
      table of its month unless that month was attached before, and nothing left to do. */
  lemma FinalMeans(s: Store, now: int, r: Row)
    requires Valid(s)
    ensures InStore(Final(s, now), r) <==> InStore(s, r)
    ensures Pending(Final(s, now), now) == {}
    ensures r in s.spill && r.time.month < now && !Attached(s, r.time.month) ==>
              Attached(Final(s, now), r.time.month) && r in RowsOf(Final(s, now), r.time.month) && r !in Final(s, now).spill
  {
    var m := r.time.month;
    if r in s.spill && m in Pending(s, now) { assert r in MonthRows(s.spill, m); }
    assert r in s.spill && m < now ==> m in Targets(s, now);
  }

  // ---------- The current month ----------

  /** No table of the current or a later month stands unattached beside default rows of its month. */
  ghost predicate NoLooseTable(s: Store, now: int) {
    forall m :: m >= now && m in s.tables && !s.tables[m].attached ==> MonthRows(s.spill, m) == {}
  }

  /** No row of the current or a later month has left the default partition. */
  ghost predicate CurrentKept(s: Store, s': Store, now: int) {
    forall r :: r in s.spill && r.time.month >= now ==> r in s'.spill
  }

  lemma LooseIsPending(s: Store, now: int, m: int)
    requires m >= now
    ensures m in Pending(s, now) <==> m in s.tables && !s.tables[m].attached
  {}

  /** The script's heading says that it leaves the current month alone. If no table of the current or
      a later month stands unattached beside rows of its month, no commit of any run takes such a
      row; otherwise every run that ends has taken some. */
  lemma CurrentMonthKept(s: Store, s': Store, now: int)
    requires Takes(s, s', now)
    ensures NoLooseTable(s, now) ==> CurrentKept(s, s', now)
    ensures Pending(s', now) == {} ==> (CurrentKept(s, s', now) <==> NoLooseTable(s, now))
  {
    hide Pending;
    forall r | r in s.spill && r.time.month >= now ensures NoLooseTable(s, now) ==> r in s'.spill {
      LooseIsPending(s, now, r.time.month);
      assert r in MonthRows(s.spill, r.time.month);
    }
    if Pending(s', now) == {} && CurrentKept(s, s', now) {
      forall m | m >= now && m in s.tables && !s.tables[m].attached ensures MonthRows(s.spill, m) == {} {
        LooseIsPending(s, now, m);
        forall r ensures r !in MonthRows(s.spill, m) {
          assert r in MonthRows(s.spill, m) ==> r !in s'.spill;
        }
      }
    }
  }

  /** One row of the current month and an empty table of it, left behind by hand: the row is moved. */
  lemma CurrentMonthTaken(r: Row) returns (s: Store)
    ensures s == Store({r}, map[r.time.month := Table(false, {})])
    ensures Valid(s) && NoConflict(s) && !CurrentKept(s, Final(s, r.time.month), r.time.month)
  {
    s := Store({r}, map[r.time.month := Table(false, {})]);
    assert r.time.month in Pending(s, r.time.month);
  }

  // ---------- Until it is done ----------

  /** Run again and again, the script ends, also with conflicts; and it has then left the current
      month alone exactly under the same condition. */
  method RunUntilDone(db: Database, now: int)
    requires Valid(db.Contents())
    modifies db
    ensures Valid(db.Contents()) && SameKeys(old(db.Contents()), db.Contents())
    ensures KeepsTables(old(db.Contents()), db.Contents())
    ensures Pending(db.Contents(), now) == {}
    ensures CurrentKept(old(db.Contents()), db.Contents(), now) <==> NoLooseTable(old(db.Contents()), now)
  {
    hide Valid, NoConflict, SameKeys, Final, Leads, Pending, Targets, NoLooseTable, CurrentKept, Takes, KeepsTables;
    ghost var start := db.Contents();
    LeadsSelf(start, now);
    var outcome := NotAttached(now);
    while outcome != Done
      invariant Leads(start, db.Contents(), now)
      invariant outcome == Done ==> Pending(db.Contents(), now) == {}
      decreases outcome != Done, |db.spill|
    {
      ghost var before := db.Contents();
      LeadsMeans(start, before, now);
      outcome := Run(db, now, |db.spill| + 2 * |Targets(Store(db.spill, db.tables), now)|);
      LeadsOn(start, before, db.Contents(), now);
    }
    LeadsMeans(start, db.Contents(), now);
    CurrentMonthKept(start, db.Contents(), now);
  }
}
