/** What holds of the write buffer over every interleaving of its steps. */
module WriteBufferSafety {
  import opened LogEntries
  import opened WriteBufferModel

  // ---------- Bounds ----------

  lemma DueBounded(bs: seq<Batch>, now: real, force: bool)
    requires forall i :: 0 <= i < |bs| ==> 1 <= bs[i].attempts < MAX_ATTEMPTS
    ensures forall i :: 0 <= i < |Due(bs, now, force)| ==> 1 <= Due(bs, now, force)[i].attempts < MAX_ATTEMPTS
    ensures forall i :: 0 <= i < |Kept(bs, now, force)| ==> 1 <= Kept(bs, now, force)[i].attempts < MAX_ATTEMPTS
  {
    hide Due, Kept;
    DueAndKeptFrom(bs, now, force);
    assert forall b :: b in bs ==> 1 <= b.attempts < MAX_ATTEMPTS;
  }

  lemma TakeDueBounded(cfg: Config, s: State, force: bool)
    requires Counted(s) && Bounded(cfg, s)
    ensures Bounded(cfg, DueTaken(s, force))
  {
    hide Due, Kept, RowCount, Uncounted;
    DueBounded(s.retry, s.now, force);
    DueAndKept(s.retry, s.now, force);
  }

  lemma TakeQueueBounded(cfg: Config, s: State, q: seq<Entry>)
    requires Bounded(cfg, s)
    ensures Bounded(cfg, s.(tasks := s.tasks + [Insert(NewBatch(q))]))
  {}

  lemma TaskSwapBounded(cfg: Config, s: State, i: nat)
    requires Bounded(cfg, s) && i < |s.tasks|
    ensures Bounded(cfg, s.(tasks := Without(s.tasks, i)))
    ensures s.tasks[i].Insert? ==> Bounded(cfg, s.(tasks := Without(s.tasks, i) + [Requeue(s.tasks[i].batch)]))
  {}

  lemma EndRequeueBounded(cfg: Config, s: State, i: nat)
    requires Counted(s) && Bounded(cfg, s) && i < |s.tasks| && s.tasks[i].Requeue?
    ensures Bounded(cfg, RequeueEnded(cfg, s, i))
  {
    hide RowCount, Overflow, Flatten, Backoff, Counted;
    var b := s.tasks[i].batch;
    if !Exhausted(b) { RequeueBounded(cfg, s, b); }
  }

  lemma StepBounded(cfg: Config, h: Hash, s: State, step: Step)
    requires Enabled(s, step) && Counted(s) && Bounded(cfg, s)
    ensures Bounded(cfg, Next(cfg, h, s, step))
  {
    hide DueTaken, RequeueEnded, InsertAll, Counted, Without, RowCount;
    match step
    case Add(rows) => TakeQueueBounded(cfg, s, s.queue + rows);
    case TakeQueue => TakeQueueBounded(cfg, s, s.queue);
    case TakeDue(force) => TakeDueBounded(cfg, s, force);
    case EndInsert(i, _) => TaskSwapBounded(cfg, s, i);
    case EndRequeue(i) => EndRequeueBounded(cfg, s, i);
    case EndDrop(i) => TaskSwapBounded(cfg, s, i);
    case Tick(_) =>
  }

  /** The rows counted after a requeue are those of the batches that stay, within the limit. */
  lemma RequeueBounded(cfg: Config, s: State, b: Batch)
    requires Counted(s)
    ensures var all := s.retry + [Deferred(b, s.now)];
            var n := Overflow(all, cfg.maxPending);
            s.retryRows + |b.rows| - RowCount(all[..n]) <= cfg.maxPending || |all[n..]| == 1
  {
    hide Overflow, RowCount, Deferred, Uncounted;
    var d := Deferred(b, s.now);
    var all := s.retry + [d];
    var n := Overflow(all, cfg.maxPending);
    DeferredRows(b, s.now);
    BatchRowsConcat(s.retry, [d]);
    assert all == all[..n] + all[n..];
    BatchRowsConcat(all[..n], all[n..]);
    OverflowCut(all, cfg.maxPending);
  }

  // ---------- The table ----------

  lemma TaskRowsAccepted(h: Hash, s: State, i: nat)
    requires Conserved(s) && i < |s.tasks|
    ensures Keys(h, HeldBy(s.tasks[i])) <= BagKeys(h, s.accepted)
  {
    hide Without, InFlight, BatchRows;
    InFlightWithout(s.tasks, i);
    forall e | e in HeldBy(s.tasks[i]) ensures e in s.accepted {
      assert e in multiset(HeldBy(s.tasks[i]));
    }
  }

  lemma InsertFaithful(h: Hash, s: State, i: nat, outcome: Outcome)
    requires Conserved(s) && Faithful(h, s) && i < |s.tasks| && s.tasks[i].Insert?
    ensures Faithful(h, InsertEnded(h, s, i, outcome))
    ensures Keys(h, s.db) <= Keys(h, InsertEnded(h, s, i, outcome).db)
  {
    hide InsertAll, Without, Conserved, OneRowPerKey, Keys, BagKeys;
    var rows := s.tasks[i].batch.rows;
    InsertAllKeys(h, s.db, rows);
    TaskRowsAccepted(h, s, i);
    BagKeysOf(h, rows, s.inserted);
  }

  lemma FaithfulFrame(h: Hash, s: State, s': State)
    requires Faithful(h, s)
    requires s'.db == s.db && s'.initial == s.initial && s'.inserted == s.inserted && s.accepted <= s'.accepted
    ensures Faithful(h, s')
  {}

  lemma StepFaithful(cfg: Config, h: Hash, s: State, step: Step)
    requires Enabled(s, step) && Conserved(s) && Faithful(h, s)
    ensures Faithful(h, Next(cfg, h, s, step))
    ensures Keys(h, s.db) <= Keys(h, Next(cfg, h, s, step).db)
  {
    hide Faithful, Due, Kept, RowCount, Overflow, InsertEnded, Flatten, Deferred, Without, Conserved, Inserts;
    match step
    case EndInsert(i, outcome) => InsertFaithful(h, s, i, outcome);
    case _ => FaithfulFrame(h, s, Next(cfg, h, s, step));
  }

  /** Adding hands over the whole queue, as one insert, exactly when it has reached its limit; taking the queue
      starts an insert unless it is empty; an insert that did not take effect leaves the table alone. */
  lemma HandOver(cfg: Config, h: Hash, s: State, step: Step)
    requires Enabled(s, step)
    ensures var r := Next(cfg, h, s, step);
            && (step.Add? ==>
                  var q := s.queue + step.rows;
                  if |q| < cfg.maxSize || q == [] then r.queue == q && r.tasks == s.tasks
                  else r.queue == [] && r.tasks == s.tasks + [Insert(Batch(q, 0, 0.0, 0.0))])
            && (step.TakeQueue? ==>
                  r.queue == [] && r.tasks == if s.queue == [] then s.tasks else s.tasks + [Insert(Batch(s.queue, 0, 0.0, 0.0))])
            && (step.EndInsert? && step.outcome == NotStored ==> r.db == s.db)
  {
    hide Due, Kept, RowCount, Overflow, InsertAll, Inserts, Flatten, Without, RequeueEnded;
  }

  /** Rows are discarded only when a failed batch comes back: the batch itself at its 100th attempt, else the
      oldest batches when the rows waiting and its own exceed the limit. */
  lemma DiscardsOnly(cfg: Config, h: Hash, s: State, step: Step)
    requires Enabled(s, step) && Counted(s)
    ensures Next(cfg, h, s, step).discarded != s.discarded ==>
              && step.EndRequeue?
              && var b := s.tasks[step.task].batch;
                 if b.attempts + 1 >= 100
                 then Next(cfg, h, s, step).discarded == s.discarded + multiset(b.rows)
                 else s.retryRows + |b.rows| > cfg.maxPending
  {
    hide Due, Kept, RowCount, Overflow, InsertAll, Backoff, Inserts, Flatten, Without, Uncounted;
    if step.EndRequeue? {
      var b := s.tasks[step.task].batch;
      if !Exhausted(b) && s.retryRows + |b.rows| <= cfg.maxPending { FitsUncut(s.retry, Deferred(b, s.now), cfg.maxPending); }
    }
  }

  /** Nothing is cut off while all rows fit. */
  lemma FitsUncut(bs: seq<Batch>, b: Batch, maxPending: int)
    requires RowCount(bs) + |b.rows| <= maxPending
    ensures Overflow(bs + [b], maxPending) == 0
  {
    hide RowCount;
    BatchRowsConcat(bs, [b]);
    OneBatch(b);
  }

  lemma OneBatch(b: Batch)
    ensures RowCount([b]) == |b.rows|
  {
    assert [b][1..] == [];
  }

  // ---------- How long a batch is kept ----------

  function WaitSum(n: nat): nat {
    if n == 0 then 0 else WaitSum(n - 1) + Backoff(n)
  }

  lemma {:induction false} Pow2Grows(n: nat)
    requires n >= 5
    ensures Pow2(n) >= 32
  {
    if n > 5 { Pow2Grows(n - 1); } else { assert Pow2(2) == 4; assert Pow2(4) == 16; }
  }

  lemma {:induction false} WaitSumIs(n: nat)
    requires n >= 5
    ensures WaitSum(n) == 62 + 60 * (n - 5)
  {
    if n == 5 {
      assert Pow2(1) == 2 && Pow2(2) == 4 && Pow2(3) == 8 && Pow2(4) == 16;
      assert WaitSum(1) == 2;
      assert WaitSum(2) == 6;
      assert WaitSum(3) == 14;
      assert WaitSum(4) == 30;
    } else {
      WaitSumIs(n - 1);
      Pow2Grows(n - 1);
    }
  }

  ghost predicate BatchAged(b: Batch, at: real) {
    b.attempts >= 1 ==> at >= b.since + WaitSum(b.attempts) as real
  }

  /** Without forced retries a batch is tried again only after all its backoffs have passed. */
  ghost predicate Aged(s: State) {
    !s.forced ==>
      && (forall i :: 0 <= i < |s.retry| ==> BatchAged(s.retry[i], s.retry[i].nextAt))
      && (forall i :: 0 <= i < |s.tasks| && !s.tasks[i].CountDropped? ==> BatchAged(s.tasks[i].batch, s.now))
  }

  lemma DeferredAged(b: Batch, now: real)
    requires BatchAged(b, now)
    ensures BatchAged(Deferred(b, now), Deferred(b, now).nextAt)
  {
    hide Backoff;
  }

  lemma DueAged(s: State, force: bool)
    requires Aged(s)
    ensures Aged(DueTaken(s, force))
  {
    hide Due, Kept, RowCount;
    DueAndKeptFrom(s.retry, s.now, force);
    var due := Due(s.retry, s.now, force);
    var s' := DueTaken(s, force);
    if !s'.forced {
      assert forall b :: b in s.retry ==> BatchAged(b, b.nextAt);
      assert forall b :: b in due ==> BatchAged(b, s.now);
    }
  }

  lemma RequeueAged(cfg: Config, s: State, i: nat)
    requires Aged(s) && i < |s.tasks| && s.tasks[i].Requeue?
    ensures Aged(RequeueEnded(cfg, s, i))
  {
    hide RowCount, Overflow, Flatten, Deferred, BatchAged;
    if !s.forced { DeferredAged(s.tasks[i].batch, s.now); }
  }

  lemma AddAged(cfg: Config, s: State, rows: seq<Entry>)
    requires Aged(s)
    ensures Aged(Added(cfg, s, rows))
  {
    hide WaitSum;
  }

  lemma TakeQueueAged(s: State)
    requires Aged(s) && Enabled(s, TakeQueue)
    ensures Aged(QueueTaken(s))
  {
    hide WaitSum;
  }

  lemma EndInsertAged(h: Hash, s: State, i: nat, outcome: Outcome)
    requires Aged(s) && i < |s.tasks| && s.tasks[i].Insert?
    ensures Aged(InsertEnded(h, s, i, outcome))
  {
    hide InsertAll, BatchAged;
  }

  lemma EndDropAged(s: State, i: nat)
    requires Aged(s) && i < |s.tasks| && s.tasks[i].CountDropped?
    ensures Aged(DropEnded(s, i))
  {
    hide BatchAged;
  }

  lemma TickAged(s: State, seconds: real)
    requires Aged(s) && seconds >= 0.0
    ensures Aged(s.(now := s.now + seconds))
  {
    hide WaitSum;
  }

  lemma StepAged(cfg: Config, h: Hash, s: State, step: Step)
    requires Enabled(s, step) && Aged(s)
    ensures Aged(Next(cfg, h, s, step))
  {
    hide Aged, Added, QueueTaken, DueTaken, InsertEnded, RequeueEnded, DropEnded;
    match step
    case Add(rows) => AddAged(cfg, s, rows);
    case TakeQueue => TakeQueueAged(s);
    case TakeDue(force) => DueAged(s, force);
    case EndInsert(i, outcome) => EndInsertAged(h, s, i, outcome);
    case EndRequeue(i) => RequeueAged(cfg, s, i);
    case EndDrop(i) => EndDropAged(s, i);
    case Tick(seconds) => TickAged(s, seconds);
  }

  // ---------- Runs ----------

  ghost predicate Inv(cfg: Config, h: Hash, s: State) {
    Conserved(s) && Counted(s) && Bounded(cfg, s) && Faithful(h, s) && Aged(s)
  }

  ghost predicate Legal(cfg: Config, h: Hash, s: State, steps: seq<Step>)
    decreases steps
  {
    steps == [] || (Enabled(s, steps[0]) && Legal(cfg, h, Next(cfg, h, s, steps[0]), steps[1..]))
  }

  function Run(cfg: Config, h: Hash, s: State, steps: seq<Step>): State
    requires Legal(cfg, h, s, steps)
    decreases steps
  {
    if steps == [] then s else Run(cfg, h, Next(cfg, h, s, steps[0]), steps[1..])
  }

  lemma StepKeeps(cfg: Config, h: Hash, s: State, step: Step)
    requires Enabled(s, step) && Inv(cfg, h, s)
    ensures Inv(cfg, h, Next(cfg, h, s, step))
    ensures Keys(h, s.db) <= Keys(h, Next(cfg, h, s, step).db)
  {
    hide Next, Conserved, Counted, Bounded, Faithful, Aged, Enabled;
    StepConserves(cfg, h, s, step);
    StepBounded(cfg, h, s, step);
    StepFaithful(cfg, h, s, step);
    StepAged(cfg, h, s, step);
  }

  lemma {:induction false} RunKeeps(cfg: Config, h: Hash, s: State, steps: seq<Step>)
    requires Inv(cfg, h, s) && Legal(cfg, h, s, steps)
    ensures Inv(cfg, h, Run(cfg, h, s, steps))
    ensures Keys(h, s.db) <= Keys(h, Run(cfg, h, s, steps).db)
    decreases steps
  {
    hide Inv, Next, Enabled;
    if steps != [] {
      StepKeeps(cfg, h, s, steps[0]);
      RunKeeps(cfg, h, Next(cfg, h, s, steps[0]), steps[1..]);
    }
  }

  lemma InitHolds(cfg: Config, h: Hash, table: seq<Entry>)
    requires OneRowPerKey(h, table)
    ensures Inv(cfg, h, Init(table))
  {
    hide BatchRows, InFlight;
    assert BatchRows([]) == multiset{} by { NoBatches([]); }
    NoTasks();
  }

  lemma NoTasks()
    ensures InFlight([]) == multiset{}
  {}

  /** What the invariant says: each accepted row is inserted, queued, waiting, in flight or
      discarded; the counters say what they should; the limits hold; and the keys of inserted rows and
      of the table at the start are in the table, which has one row per key and no other row that was
      not accepted. */
  ghost predicate Sound(cfg: Config, h: Hash, s: State) {
    && s.accepted == s.inserted + multiset(s.queue) + BatchRows(s.retry) + InFlight(s.tasks) + s.discarded
    && s.retryRows == RowCount(s.retry)
    && (s.retryRows <= cfg.maxPending || |s.retry| <= 1)
    && (forall i :: 0 <= i < |s.retry| ==> s.retry[i].attempts < MAX_ATTEMPTS)
    && (s.tasks == [] ==> s.dropped == |s.discarded|)
    && OneRowPerKey(h, s.db)
    && BagKeys(h, s.inserted) + Keys(h, s.initial) <= Keys(h, s.db) <= BagKeys(h, s.accepted) + Keys(h, s.initial)
  }

  lemma Reachable(cfg: Config, h: Hash, table: seq<Entry>, steps: seq<Step>)
    requires OneRowPerKey(h, table) && Legal(cfg, h, Init(table), steps)
    ensures Sound(cfg, h, Run(cfg, h, Init(table), steps))
  {
    hide *;
    InitHolds(cfg, h, table);
    RunKeeps(cfg, h, Init(table), steps);
    InvMeans(cfg, h, Run(cfg, h, Init(table), steps));
  }

  lemma InvMeans(cfg: Config, h: Hash, s: State)
    requires Inv(cfg, h, s)
    ensures Sound(cfg, h, s)
  {
    hide BatchRows, InFlight, RowCount, Aged;
  }

  /** An insert that committed but was reported as failed stays in the table, and no retry of
      its batch, however much later, adds a row. */
  lemma HiddenCommit(cfg: Config, h: Hash, s: State, i: nat, steps: seq<Step>)
    requires Inv(cfg, h, s) && i < |s.tasks| && s.tasks[i].Insert?
    requires Legal(cfg, h, InsertEnded(h, s, i, StoredButFailed), steps)
    ensures var s' := Run(cfg, h, InsertEnded(h, s, i, StoredButFailed), steps);
            InsertAll(h, s'.db, s.tasks[i].batch.rows) == s'.db
  {
    hide Inv, Legal, Run, InsertAll;
    var rows := s.tasks[i].batch.rows;
    var mid := InsertEnded(h, s, i, StoredButFailed);
    InsertAllKeys(h, s.db, rows);
    StepKeeps(cfg, h, s, EndInsert(i, StoredButFailed));
    RunKeeps(cfg, h, mid, steps);
    InsertAgain(h, Run(cfg, h, mid, steps).db, rows);
  }

  /** While no retry was forced, a batch given up for its attempts first failed at least
      5702 seconds ago. */
  lemma GivenUpLate(cfg: Config, h: Hash, table: seq<Entry>, steps: seq<Step>, i: nat)
    requires OneRowPerKey(h, table) && Legal(cfg, h, Init(table), steps)
    requires var s := Run(cfg, h, Init(table), steps);
             !s.forced && i < |s.tasks| && s.tasks[i].Requeue? && Exhausted(s.tasks[i].batch)
    ensures var s := Run(cfg, h, Init(table), steps);
            s.now >= s.tasks[i].batch.since + 5702.0
  {
    hide Legal, Run, Conserved, Counted, Faithful, WaitSum;
    InitHolds(cfg, h, table);
    RunKeeps(cfg, h, Init(table), steps);
    WaitSumIs(99);
  }
}
