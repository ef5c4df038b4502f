/** The write buffer of was/app/write_buffer.py as a machine whose steps are its critical
    sections and the unlocked work between them, so that request threads and the flush thread
    may interleave in any way. */
module WriteBufferModel {
  import opened LogEntries

  const RETRY_BASE_SEC := 2
  const RETRY_MAX_SEC := 60
  const MAX_ATTEMPTS := 100

  /** A batch waiting for a retry. `since` is the time of its first failure; only the
      properties read it. */
  datatype Batch = Batch(rows: seq<Entry>, attempts: nat, nextAt: real, since: real)

  datatype Config = Config(maxSize: int, maxPending: int)

  /** What a thread that holds no lock is about to do. */
  datatype Task =
    | Insert(batch: Batch)
    | Requeue(batch: Batch)
    | CountDropped(rows: seq<Entry>)

  /** An insert may commit and still be reported as failed. */
  datatype Outcome = Stored | StoredButFailed | NotStored

  /** `initial` is the table before the first step; it, `accepted`, `inserted` and `discarded` record
      history, which the code keeps no fields for. */
  datatype State = State(
    queue: seq<Entry>, retry: seq<Batch>, retryRows: int, dropped: int,
    tasks: seq<Task>, db: seq<Entry>, now: real, forced: bool,
    accepted: multiset<Entry>, inserted: multiset<Entry>, discarded: multiset<Entry>, initial: seq<Entry>)

  datatype Step =
    | Add(rows: seq<Entry>)
    | TakeQueue
    | TakeDue(force: bool)
    | EndInsert(task: nat, outcome: Outcome)
    | EndRequeue(task: nat)
    | EndDrop(task: nat)
    | Tick(seconds: real)

  function Init(table: seq<Entry>): State {
    State([], [], 0, 0, [], table, 0.0, false, multiset{}, multiset{}, multiset{}, table)
  }

  // ---------- Batches ----------

  function Pow2(n: nat): nat {
    if n == 0 then 1 else 2 * Pow2(n - 1)
  }

  function Backoff(attempts: nat): nat
    requires attempts >= 1
  {
    var sec := RETRY_BASE_SEC * Pow2(attempts - 1);
    if sec < RETRY_MAX_SEC then sec else RETRY_MAX_SEC
  }

  function NewBatch(rows: seq<Entry>): Batch {
    Batch(rows, 0, 0.0, 0.0)
  }

  predicate Exhausted(b: Batch) {
    b.attempts + 1 >= MAX_ATTEMPTS
  }

  /** `defer`, for a batch that is not exhausted. */
  function Deferred(b: Batch, now: real): Batch {
    Batch(b.rows, b.attempts + 1, now + Backoff(b.attempts + 1) as real,
          if b.attempts == 0 then now else b.since)
  }

  function RowCount(bs: seq<Batch>): nat {
    if bs == [] then 0 else |bs[0].rows| + RowCount(bs[1..])
  }

  function IsDue(b: Batch, now: real, force: bool): bool {
    force || b.nextAt <= now
  }

  function Due(bs: seq<Batch>, now: real, force: bool): seq<Batch> {
    if bs == [] then [] else (if IsDue(bs[0], now, force) then [bs[0]] else []) + Due(bs[1..], now, force)
  }

  function Kept(bs: seq<Batch>, now: real, force: bool): seq<Batch> {
    if bs == [] then [] else (if IsDue(bs[0], now, force) then [] else [bs[0]]) + Kept(bs[1..], now, force)
  }

  /** How many of the oldest batches overflow the limit; the newest batch always stays. */
  function Overflow(bs: seq<Batch>, maxPending: int): (n: nat)
    ensures n <= |bs| && (bs != [] ==> n < |bs|)
  {
    if RowCount(bs) > maxPending && |bs| > 1 then 1 + Overflow(bs[1..], maxPending) else 0
  }

  function Inserts(bs: seq<Batch>): seq<Task> {
    seq(|bs|, i requires 0 <= i < |bs| => Insert(bs[i]))
  }

  function Flatten(bs: seq<Batch>): seq<Entry> {
    if bs == [] then [] else bs[0].rows + Flatten(bs[1..])
  }

  function Without(ts: seq<Task>, i: nat): seq<Task>
    requires i < |ts|
  {
    ts[..i] + ts[i + 1..]
  }

  // ---------- Steps ----------

  ghost predicate Enabled(s: State, step: Step) {
    match step
    case Add(rows) => true
    case TakeQueue => true
    case TakeDue(_) => true
    case EndInsert(i, _) => i < |s.tasks| && s.tasks[i].Insert?
    case EndRequeue(i) => i < |s.tasks| && s.tasks[i].Requeue?
    case EndDrop(i) => i < |s.tasks| && s.tasks[i].CountDropped?
    case Tick(seconds) => seconds >= 0.0
  }

  function Added(cfg: Config, s: State, rows: seq<Entry>): State {
    var q := s.queue + rows;
    var s' := s.(queue := q, accepted := s.accepted + multiset(rows));
    if |q| >= cfg.maxSize && q != [] then s'.(queue := [], tasks := s.tasks + [Insert(NewBatch(q))]) else s'
  }

  function QueueTaken(s: State): State {
    if s.queue == [] then s
    else s.(queue := [], tasks := s.tasks + [Insert(NewBatch(s.queue))])
  }

  function DueTaken(s: State, force: bool): State {
    var due := Due(s.retry, s.now, force);
    s.(retry := Kept(s.retry, s.now, force), retryRows := s.retryRows - RowCount(due),
       tasks := s.tasks + Inserts(due), forced := s.forced || force)
  }

  function InsertEnded(h: Hash, s: State, i: nat, outcome: Outcome): State
    requires i < |s.tasks| && s.tasks[i].Insert?
  {
    var b := s.tasks[i].batch;
    var db := if outcome == NotStored then s.db else InsertAll(h, s.db, b.rows);
    if outcome == Stored then
      s.(db := db, tasks := Without(s.tasks, i), inserted := s.inserted + multiset(b.rows))
    else
      s.(db := db, tasks := Without(s.tasks, i) + [Requeue(b)])
  }

  function Discard(s: State, rows: seq<Entry>): State {
    s.(tasks := s.tasks + [CountDropped(rows)], discarded := s.discarded + multiset(rows))
  }

  function RequeueEnded(cfg: Config, s: State, i: nat): State
    requires i < |s.tasks| && s.tasks[i].Requeue?
  {
    var b := s.tasks[i].batch;
    var s' := s.(tasks := Without(s.tasks, i));
    if Exhausted(b) then Discard(s', b.rows)
    else
      var all := s.retry + [Deferred(b, s.now)];
      var n := Overflow(all, cfg.maxPending);
      var s'' := s'.(retry := all[n..], retryRows := s.retryRows + |b.rows| - RowCount(all[..n]));
      if n == 0 then s'' else Discard(s'', Flatten(all[..n]))
  }

  function DropEnded(s: State, i: nat): State
    requires i < |s.tasks| && s.tasks[i].CountDropped?
  {
    s.(tasks := Without(s.tasks, i), dropped := s.dropped + |s.tasks[i].rows|)
  }

  function Next(cfg: Config, h: Hash, s: State, step: Step): State
    requires Enabled(s, step)
  {
    match step
    case Add(rows) => Added(cfg, s, rows)
    case TakeQueue => QueueTaken(s)
    case TakeDue(force) => DueTaken(s, force)
    case EndInsert(i, outcome) => InsertEnded(h, s, i, outcome)
    case EndRequeue(i) => RequeueEnded(cfg, s, i)
    case EndDrop(i) => DropEnded(s, i)
    case Tick(seconds) => s.(now := s.now + seconds)
  }

  // ---------- The invariant ----------

  function BatchRows(bs: seq<Batch>): multiset<Entry> {
    multiset(Flatten(bs))
  }

  /** The rows a task still has to bring home; dropped rows are already counted as discarded. */
  function HeldBy(t: Task): seq<Entry> {
    match t
    case Insert(b) => b.rows
    case Requeue(b) => b.rows
    case CountDropped(_) => []
  }

  function TaskRows(ts: seq<Task>): seq<Entry> {
    if ts == [] then [] else HeldBy(ts[0]) + TaskRows(ts[1..])
  }

  function InFlight(ts: seq<Task>): multiset<Entry> {
    multiset(TaskRows(ts))
  }

  function Uncounted(ts: seq<Task>): nat {
    if ts == [] then 0 else (if ts[0].CountDropped? then |ts[0].rows| else 0) + Uncounted(ts[1..])
  }

  /** Every accepted row is in exactly one place. */
  ghost predicate Conserved(s: State) {
    s.accepted == s.inserted + multiset(s.queue) + BatchRows(s.retry) + InFlight(s.tasks) + s.discarded
  }

  ghost predicate Counted(s: State) {
    && s.retryRows == RowCount(s.retry)
    && |s.discarded| == s.dropped + Uncounted(s.tasks)
  }

  ghost predicate Bounded(cfg: Config, s: State) {
    && (s.retryRows <= cfg.maxPending || |s.retry| <= 1)
    && (forall i :: 0 <= i < |s.retry| ==> 1 <= s.retry[i].attempts < MAX_ATTEMPTS)
    && (forall i :: 0 <= i < |s.tasks| && !s.tasks[i].CountDropped? ==> s.tasks[i].batch.attempts < MAX_ATTEMPTS)
  }

  ghost predicate Faithful(h: Hash, s: State) {
    && OneRowPerKey(h, s.db)
    && BagKeys(h, s.inserted) + Keys(h, s.initial) <= Keys(h, s.db) <= BagKeys(h, s.accepted) + Keys(h, s.initial)
  }

  // ---------- Sums ----------

  lemma FlattenStep(bs: seq<Batch>)
    ensures Flatten([]) == []
    ensures bs != [] ==> Flatten(bs) == bs[0].rows + Flatten(bs[1..])
  {}

  lemma {:induction false} FlattenConcat(a: seq<Batch>, b: seq<Batch>)
    ensures Flatten(a + b) == Flatten(a) + Flatten(b)
  {
    hide Flatten;
    FlattenStep(a);
    if a == [] {
      assert a + b == b;
    } else {
      FlattenConcat(a[1..], b);
      FlattenStep(a + b);
      assert (a + b)[1..] == a[1..] + b;
    }
  }

  lemma {:induction false} RowCountIs(bs: seq<Batch>)
    ensures RowCount(bs) == |Flatten(bs)|
  {
    if bs != [] { RowCountIs(bs[1..]); }
  }

  lemma BatchRowsConcat(a: seq<Batch>, b: seq<Batch>)
    ensures BatchRows(a + b) == BatchRows(a) + BatchRows(b)
    ensures RowCount(a + b) == RowCount(a) + RowCount(b)
  {
    hide Flatten, RowCount;
    FlattenConcat(a, b);
    RowCountIs(a);
    RowCountIs(b);
    RowCountIs(a + b);
  }

  lemma TaskRowsStep(ts: seq<Task>)
    ensures TaskRows([]) == []
    ensures ts != [] ==> TaskRows(ts) == HeldBy(ts[0]) + TaskRows(ts[1..])
  {}

  lemma {:induction false} TaskRowsConcat(a: seq<Task>, b: seq<Task>)
    ensures TaskRows(a + b) == TaskRows(a) + TaskRows(b)
  {
    hide HeldBy, TaskRows;
    TaskRowsStep(a);
    if a == [] {
      assert a + b == b;
    } else {
      TaskRowsConcat(a[1..], b);
      TaskRowsStep(a + b);
      assert (a + b)[1..] == a[1..] + b;
    }
  }

  lemma {:induction false} UncountedConcat(a: seq<Task>, b: seq<Task>)
    ensures Uncounted(a + b) == Uncounted(a) + Uncounted(b)
  {
    if a == [] {
      assert a + b == b;
    } else {
      UncountedConcat(a[1..], b);
      assert (a + b)[1..] == a[1..] + b;
    }
  }

  lemma InFlightConcat(a: seq<Task>, b: seq<Task>)
    ensures InFlight(a + b) == InFlight(a) + InFlight(b)
    ensures Uncounted(a + b) == Uncounted(a) + Uncounted(b)
  {
    hide TaskRows, Uncounted;
    TaskRowsConcat(a, b);
    UncountedConcat(a, b);
  }

  lemma InFlightOne(t: Task)
    ensures InFlight([t]) == multiset(HeldBy(t))
    ensures Uncounted([t]) == if t.CountDropped? then |t.rows| else 0
  {
    assert [t][1..] == [];
    assert TaskRows([t]) == HeldBy(t) + [] == HeldBy(t);
  }

  lemma InFlightWithout(ts: seq<Task>, i: nat)
    requires i < |ts|
    ensures InFlight(ts) == multiset(HeldBy(ts[i])) + InFlight(Without(ts, i))
    ensures Uncounted(ts) == (if ts[i].CountDropped? then |ts[i].rows| else 0) + Uncounted(Without(ts, i))
  {
    hide InFlight, Uncounted, HeldBy;
    assert ts == ts[..i] + ([ts[i]] + ts[i + 1..]);
    InFlightConcat(ts[..i], [ts[i]] + ts[i + 1..]);
    InFlightConcat([ts[i]], ts[i + 1..]);
    InFlightConcat(ts[..i], ts[i + 1..]);
    InFlightOne(ts[i]);
  }

  lemma {:induction false} InFlightInserts(bs: seq<Batch>)
    ensures TaskRows(Inserts(bs)) == Flatten(bs) && Uncounted(Inserts(bs)) == 0
  {
    if bs != [] {
      assert Inserts(bs)[1..] == Inserts(bs[1..]);
      InFlightInserts(bs[1..]);
    }
  }

  lemma DueStep(bs: seq<Batch>, now: real, force: bool)
    requires bs != []
    ensures Due(bs, now, force) == if IsDue(bs[0], now, force) then [bs[0]] + Due(bs[1..], now, force) else Due(bs[1..], now, force)
    ensures Kept(bs, now, force) == if IsDue(bs[0], now, force) then Kept(bs[1..], now, force) else [bs[0]] + Kept(bs[1..], now, force)
  {
    assert [] + Due(bs[1..], now, force) == Due(bs[1..], now, force);
    assert [] + Kept(bs[1..], now, force) == Kept(bs[1..], now, force);
  }

  lemma {:induction false} DueAndKept(bs: seq<Batch>, now: real, force: bool)
    ensures BatchRows(bs) == BatchRows(Due(bs, now, force)) + BatchRows(Kept(bs, now, force))
    ensures RowCount(bs) == RowCount(Due(bs, now, force)) + RowCount(Kept(bs, now, force))
    ensures |bs| == |Due(bs, now, force)| + |Kept(bs, now, force)|
  {
    hide BatchRows, RowCount, Due, Kept;
    if bs == [] {
      NothingDue(now, force);
      NoBatches(bs);
    } else {
      var d, k := Due(bs[1..], now, force), Kept(bs[1..], now, force);
      DueAndKept(bs[1..], now, force);
      DueStep(bs, now, force);
      assert bs == [bs[0]] + bs[1..];
      BatchRowsConcat([bs[0]], bs[1..]);
      BatchRowsConcat([bs[0]], d);
      BatchRowsConcat([bs[0]], k);
      EitherSide(BatchRows([bs[0]]), BatchRows(d), BatchRows(k));
    }
  }

  lemma NothingDue(now: real, force: bool)
    ensures Due([], now, force) == [] && Kept([], now, force) == []
  {}

  lemma EitherSide(h: multiset<Entry>, d: multiset<Entry>, k: multiset<Entry>)
    ensures h + (d + k) == (h + d) + k && h + (d + k) == d + (h + k)
  {}

  lemma {:induction false} DueAndKeptFrom(bs: seq<Batch>, now: real, force: bool)
    ensures forall b :: b in Due(bs, now, force) ==> b in bs && IsDue(b, now, force)
    ensures forall b :: b in Kept(bs, now, force) ==> b in bs
  {
    if bs != [] { DueAndKeptFrom(bs[1..], now, force); }
  }

  /** After the overflow is cut, the limit holds or one batch is left. */
  lemma {:induction false} OverflowCut(bs: seq<Batch>, maxPending: int)
    requires bs != []
    ensures var n := Overflow(bs, maxPending);
            RowCount(bs[n..]) <= maxPending || |bs[n..]| == 1
  {
    if RowCount(bs) > maxPending && |bs| > 1 {
      OverflowCut(bs[1..], maxPending);
      assert bs[1..][Overflow(bs[1..], maxPending)..] == bs[Overflow(bs, maxPending)..];
    } else {
      assert bs[0..] == bs;
    }
  }

  // ---------- Every step keeps it ----------

  lemma ConservedAdd(cfg: Config, s: State, rows: seq<Entry>)
    requires Conserved(s) && Counted(s)
    ensures Conserved(Added(cfg, s, rows)) && Counted(Added(cfg, s, rows))
  {
    hide InFlight, Uncounted, BatchRows, RowCount;
    var q := s.queue + rows;
    var t := Insert(NewBatch(q));
    InFlightConcat(s.tasks, [t]);
    InFlightOne(t);
    assert multiset(q) == multiset(s.queue) + multiset(rows);
  }

  lemma ConservedTakeQueue(s: State)
    requires Conserved(s) && Counted(s)
    ensures Conserved(QueueTaken(s)) && Counted(QueueTaken(s))
  {
    hide InFlight, Uncounted, BatchRows, RowCount;
    var t := Insert(NewBatch(s.queue));
    InFlightConcat(s.tasks, [t]);
    InFlightOne(t);
  }

  lemma ConservedTakeDue(s: State, force: bool)
    requires Conserved(s) && Counted(s)
    ensures Conserved(DueTaken(s, force)) && Counted(DueTaken(s, force))
  {
    hide Due, Kept, TaskRows, Uncounted, Flatten, RowCount, Inserts;
    var due := Due(s.retry, s.now, force);
    DueAndKept(s.retry, s.now, force);
    InFlightConcat(s.tasks, Inserts(due));
    InFlightInserts(due);
  }

  lemma ConservedInsert(h: Hash, s: State, i: nat, outcome: Outcome)
    requires Conserved(s) && Counted(s) && i < |s.tasks| && s.tasks[i].Insert?
    ensures Conserved(InsertEnded(h, s, i, outcome)) && Counted(InsertEnded(h, s, i, outcome))
  {
    hide InFlight, Uncounted, BatchRows, RowCount, InsertAll, Without;
    var t := Requeue(s.tasks[i].batch);
    InFlightWithout(s.tasks, i);
    InFlightConcat(Without(s.tasks, i), [t]);
    InFlightOne(t);
  }

  lemma ConservedDiscard(s: State, s': State, rows: seq<Entry>)
    requires s' == Discard(s, rows)
    requires s.accepted == s.inserted + multiset(s.queue) + BatchRows(s.retry) + InFlight(s.tasks)
                           + s.discarded + multiset(rows)
    requires Counted(s)
    ensures Conserved(s') && Counted(s')
  {
    hide InFlight, Uncounted, BatchRows, RowCount;
    var t := CountDropped(rows);
    InFlightConcat(s.tasks, [t]);
    InFlightOne(t);
    assert HeldBy(t) == [];
  }

  /** The requeued batch `b` joins the waiting rows `r`, of which `over` leave and `kept` stay. */
  lemma Regroup(acc: multiset<Entry>, ins: multiset<Entry>, q: multiset<Entry>, r: multiset<Entry>,
                b: multiset<Entry>, f: multiset<Entry>, d: multiset<Entry>,
                over: multiset<Entry>, kept: multiset<Entry>)
    requires acc == ins + q + r + (b + f) + d && r + b == over + kept
    ensures acc == ins + q + kept + f + d + over
  {
    assert forall e :: r[e] + b[e] == (r + b)[e] == (over + kept)[e] == over[e] + kept[e];
  }

  lemma ConservedRequeue(cfg: Config, s: State, i: nat)
    requires Conserved(s) && Counted(s) && i < |s.tasks| && s.tasks[i].Requeue?
    ensures Conserved(RequeueEnded(cfg, s, i)) && Counted(RequeueEnded(cfg, s, i))
  {
    hide InFlight, BatchRows, Uncounted, RowCount, Without, Flatten, Overflow, Deferred, Conserved, Counted;
    var b := s.tasks[i].batch;
    if Exhausted(b) { ConservedGiveUp(cfg, s, i); } else { ConservedWait(cfg, s, i); }
  }

  lemma ConservedGiveUp(cfg: Config, s: State, i: nat)
    requires Conserved(s) && Counted(s) && i < |s.tasks| && s.tasks[i].Requeue? && Exhausted(s.tasks[i].batch)
    ensures Conserved(RequeueEnded(cfg, s, i)) && Counted(RequeueEnded(cfg, s, i))
  {
    hide InFlight, BatchRows, Uncounted, RowCount, Without, Flatten, Overflow, Deferred;
    InFlightWithout(s.tasks, i);
    ConservedDiscard(s.(tasks := Without(s.tasks, i)), RequeueEnded(cfg, s, i), s.tasks[i].batch.rows);
  }

  /** The sums over the waiting batches after one was appended and the overflow cut off. */
  lemma OverflowSums(cfg: Config, retry: seq<Batch>, b: Batch, now: real)
    ensures var all := retry + [Deferred(b, now)];
            var n := Overflow(all, cfg.maxPending);
            && BatchRows(retry) + multiset(b.rows) == BatchRows(all[..n]) + BatchRows(all[n..])
            && RowCount(retry) + |b.rows| == RowCount(all[..n]) + RowCount(all[n..])
            && BatchRows(all[..n]) == multiset(Flatten(all[..n])) && RowCount(all[..n]) == |Flatten(all[..n])|
            && (n == 0 ==> BatchRows(all[..n]) == multiset{} && RowCount(all[..n]) == 0)
  {
    hide InFlight, Uncounted, RowCount, Flatten, Overflow, Deferred, BatchRows;
    var all := retry + [Deferred(b, now)];
    var n := Overflow(all, cfg.maxPending);
    DeferredRows(b, now);
    BatchRowsConcat(retry, [Deferred(b, now)]);
    assert all == all[..n] + all[n..];
    BatchRowsConcat(all[..n], all[n..]);
    FlattenIs(all[..n]);
    if n == 0 { NoBatches(all[..n]); }
  }

  lemma ConservedWait(cfg: Config, s: State, i: nat)
    requires Conserved(s) && Counted(s) && i < |s.tasks| && s.tasks[i].Requeue? && !Exhausted(s.tasks[i].batch)
    ensures Conserved(RequeueEnded(cfg, s, i)) && Counted(RequeueEnded(cfg, s, i))
  {
    hide InFlight, BatchRows, Uncounted, RowCount, Without, Flatten, Overflow, Deferred;
    var b := s.tasks[i].batch;
    var all := s.retry + [Deferred(b, s.now)];
    var n := Overflow(all, cfg.maxPending);
    InFlightWithout(s.tasks, i);
    OverflowSums(cfg, s.retry, b, s.now);
    var mid := s.(tasks := Without(s.tasks, i), retry := all[n..], retryRows := s.retryRows + |b.rows| - RowCount(all[..n]));
    Regroup(s.accepted, s.inserted, multiset(s.queue), BatchRows(s.retry), multiset(b.rows),
            InFlight(mid.tasks), s.discarded, BatchRows(all[..n]), BatchRows(all[n..]));
    if n > 0 { ConservedDiscard(mid, RequeueEnded(cfg, s, i), Flatten(all[..n])); }
  }

  lemma DeferredRows(b: Batch, now: real)
    ensures Deferred(b, now).rows == b.rows
    ensures BatchRows([Deferred(b, now)]) == multiset(b.rows) && RowCount([Deferred(b, now)]) == |b.rows|
  {
    var d := Deferred(b, now);
    assert [d][1..] == [];
    assert Flatten([d]) == d.rows + [] == d.rows;
  }

  lemma FlattenIs(bs: seq<Batch>)
    ensures multiset(Flatten(bs)) == BatchRows(bs) && |Flatten(bs)| == RowCount(bs)
  {
    RowCountIs(bs);
  }

  lemma NoBatches(bs: seq<Batch>)
    requires bs == []
    ensures BatchRows(bs) == multiset{} && RowCount(bs) == 0
  {}

  lemma ConservedDrop(s: State, i: nat)
    requires Conserved(s) && Counted(s) && i < |s.tasks| && s.tasks[i].CountDropped?
    ensures Conserved(DropEnded(s, i)) && Counted(DropEnded(s, i))
  {
    hide InFlight, Uncounted, BatchRows, RowCount, Without;
    InFlightWithout(s.tasks, i);
  }

  lemma StepConserves(cfg: Config, h: Hash, s: State, step: Step)
    requires Enabled(s, step) && Conserved(s) && Counted(s)
    ensures Conserved(Next(cfg, h, s, step)) && Counted(Next(cfg, h, s, step))
  {
    hide Conserved, Counted, Added, QueueTaken, DueTaken, InsertEnded, RequeueEnded, DropEnded;
    match step
    case Add(rows) => ConservedAdd(cfg, s, rows);
    case TakeQueue => ConservedTakeQueue(s);
    case TakeDue(force) => ConservedTakeDue(s, force);
    case EndInsert(i, outcome) => ConservedInsert(h, s, i, outcome);
    case EndRequeue(i) => ConservedRequeue(cfg, s, i);
    case EndDrop(i) => ConservedDrop(s, i);
    case Tick(seconds) => ConservedTick(s, seconds);
  }

  lemma ConservedTick(s: State, seconds: real)
    requires Conserved(s) && Counted(s)
    ensures Conserved(s.(now := s.now + seconds)) && Counted(s.(now := s.now + seconds))
  {}
}
