/** What the write buffer achieves when the database works again: within a minute everything that
    waits is in the table, and nothing more is lost. */
module WriteBufferProgress {
  import opened LogEntries
  import opened WriteBufferModel
  import opened WriteBufferSafety

  /** No batch waits for more than a minute. */
  ghost predicate Soon(s: State) {
    forall i :: 0 <= i < |s.retry| ==> s.retry[i].nextAt <= s.now + 60.0
  }

  lemma BackoffWithin(n: nat)
    requires n >= 1
    ensures Backoff(n) <= 60
  {
    hide Pow2;
  }

  lemma RequeueSoon(cfg: Config, s: State, i: nat)
    requires Soon(s) && i < |s.tasks| && s.tasks[i].Requeue?
    ensures Soon(RequeueEnded(cfg, s, i))
  {
    hide RowCount, Overflow, Backoff, Flatten, Without;
    BackoffWithin(s.tasks[i].batch.attempts + 1);
  }

  lemma StepSoon(cfg: Config, h: Hash, s: State, step: Step)
    requires Enabled(s, step) && Soon(s)
    ensures Soon(Next(cfg, h, s, step))
  {
    hide Due, Kept, RowCount, Overflow, InsertAll, Backoff, Inserts, Flatten, RequeueEnded, Without;
    match step {
      case TakeDue(force) =>
        DueAndKeptFrom(s.retry, s.now, force);
        var kept := Kept(s.retry, s.now, force);
        forall i | 0 <= i < |kept| ensures kept[i].nextAt <= s.now + 60.0 { assert kept[i] in s.retry; }
      case EndRequeue(i) => RequeueSoon(cfg, s, i);
      case _ =>
    }
  }

  lemma {:induction false} RunSoon(cfg: Config, h: Hash, s: State, steps: seq<Step>)
    requires Soon(s) && Legal(cfg, h, s, steps)
    ensures Soon(Run(cfg, h, s, steps))
    decreases steps
  {
    hide Soon, Next, Enabled;
    if steps != [] {
      StepSoon(cfg, h, s, steps[0]);
      RunSoon(cfg, h, Next(cfg, h, s, steps[0]), steps[1..]);
    }
  }

  lemma {:induction false} AllDue(bs: seq<Batch>, now: real)
    requires forall i :: 0 <= i < |bs| ==> bs[i].nextAt <= now
    ensures Due(bs, now, false) == bs && Kept(bs, now, false) == []
  {
    if bs != [] {
      AllDue(bs[1..], now);
      assert bs == [bs[0]] + bs[1..];
    }
  }

  /** Every task is an insert. */
  ghost predicate Writing(ts: seq<Task>) {
    forall i :: 0 <= i < |ts| ==> ts[i].Insert?
  }

  /** The inserts succeed one after the other. */
  lemma {:induction false} FinishAll(cfg: Config, h: Hash, s: State) returns (steps: seq<Step>)
    requires Writing(s.tasks)
    ensures Legal(cfg, h, s, steps)
    ensures var r := Run(cfg, h, s, steps);
            r == s.(tasks := [], db := r.db, inserted := s.inserted + InFlight(s.tasks))
    decreases |s.tasks|
  {
    hide Without, InsertAll;
    if s.tasks == [] {
      steps := [];
      NoneInFlight();
    } else {
      var n := Next(cfg, h, s, EndInsert(0, Stored));
      FirstDone(s.tasks);
      var rest := FinishAll(cfg, h, n);
      steps := [EndInsert(0, Stored)] + rest;
      assert steps[1..] == rest;
    }
  }

  lemma NoneInFlight()
    ensures InFlight([]) == multiset{}
  {}

  lemma FirstDone(ts: seq<Task>)
    requires ts != [] && ts[0].Insert?
    ensures Without(ts, 0) == ts[1..] && InFlight(ts) == multiset(ts[0].batch.rows) + InFlight(ts[1..])
  {
    assert ts[..0] + ts[1..] == ts[1..];
  }

  lemma {:induction false} InsertsHold(bs: seq<Batch>)
    ensures Writing(Inserts(bs)) && InFlight(Inserts(bs)) == BatchRows(bs)
  {
    hide Inserts, InFlight;
    InsertsStep(bs);
    if bs == [] {
      NoneInFlight();
    } else {
      InsertsHold(bs[1..]);
      FirstDone(Inserts(bs));
    }
  }

  lemma InsertsStep(bs: seq<Batch>)
    ensures |Inserts(bs)| == |bs| && (bs == [] ==> Inserts(bs) == [])
    ensures bs != [] ==> Inserts(bs)[0] == Insert(bs[0]) && Inserts(bs)[1..] == Inserts(bs[1..])
    ensures forall i :: 0 <= i < |bs| ==> Inserts(bs)[i].Insert?
    ensures BatchRows([]) == multiset{}
    ensures bs != [] ==> BatchRows(bs) == multiset(bs[0].rows) + BatchRows(bs[1..])
  {}

  /** With no write in progress: after a minute the flush thread takes every waiting batch and the queue,
      and when the database works all of it is inserted. */
  lemma Drain(cfg: Config, h: Hash, s: State) returns (steps: seq<Step>)
    requires Soon(s) && s.tasks == []
    ensures Legal(cfg, h, s, steps)
    ensures var r := Run(cfg, h, s, steps);
            && r.queue == [] && r.retry == [] && r.tasks == [] && r.now == s.now + 60.0 && r.forced == s.forced
            && r.accepted == s.accepted && r.discarded == s.discarded && r.dropped == s.dropped
  {
    hide Due, Kept, RowCount, Inserts, InFlight, Legal, Run;
    var s1 := s.(now := s.now + 60.0);
    AllDue(s.retry, s1.now);
    InsertsHold(s.retry);
    var s2 := DueTaken(s1, false);
    assert s2.tasks == Inserts(s.retry) by { assert [] + Inserts(s.retry) == Inserts(s.retry); }
    var s3 := QueueTaken(s2);
    var last := FinishAll(cfg, h, s3);
    var t3 := [TakeQueue] + last;
    StepTo(cfg, h, s2, TakeQueue, s3, last);
    var t2 := [TakeDue(false)] + t3;
    StepTo(cfg, h, s1, TakeDue(false), s2, t3);
    steps := [Tick(60.0)] + t2;
    StepTo(cfg, h, s, Tick(60.0), s1, t2);
  }

  lemma StepTo(cfg: Config, h: Hash, s: State, step: Step, s': State, rest: seq<Step>)
    requires Enabled(s, step) && Next(cfg, h, s, step) == s' && Legal(cfg, h, s', rest)
    ensures Legal(cfg, h, s, [step] + rest) && Run(cfg, h, s, [step] + rest) == Run(cfg, h, s', rest)
  {
    hide Enabled, Next;
    assert ([step] + rest)[1..] == rest;
  }

  /** After any run, however long the database failed: when no write is in progress and the database works
      again, a minute is enough. Then every row accepted and not discarded before is in the table, and
      nothing more was discarded. */
  lemma Recovers(cfg: Config, h: Hash, table: seq<Entry>, steps: seq<Step>) returns (more: seq<Step>)
    requires OneRowPerKey(h, table) && Legal(cfg, h, Init(table), steps) && Run(cfg, h, Init(table), steps).tasks == []
    ensures Legal(cfg, h, Run(cfg, h, Init(table), steps), more)
    ensures var s := Run(cfg, h, Init(table), steps);
            var r := Run(cfg, h, s, more);
            && r.queue == [] && r.retry == [] && r.tasks == [] && r.now == s.now + 60.0
            && r.accepted == s.accepted && r.discarded == s.discarded
            && r.accepted == r.inserted + r.discarded && BagKeys(h, r.inserted) <= Keys(h, r.db)
  {
    hide Legal, Run, Sound, Inv, Keys, BagKeys, OneRowPerKey;
    var s := Run(cfg, h, Init(table), steps);
    assert Soon(Init(table));
    RunSoon(cfg, h, Init(table), steps);
    more := Drain(cfg, h, s);
    InitHolds(cfg, h, table);
    RunKeeps(cfg, h, Init(table), steps);
    RunKeeps(cfg, h, s, more);
    AtRest(cfg, h, Run(cfg, h, s, more));
  }

  lemma AtRest(cfg: Config, h: Hash, s: State)
    requires Inv(cfg, h, s) && s.queue == [] && s.retry == [] && s.tasks == []
    ensures s.accepted == s.inserted + s.discarded && BagKeys(h, s.inserted) <= Keys(h, s.db)
  {
    hide Keys, BagKeys, Counted, Bounded, Aged;
  }
}
