/** `WriteBuffer` of was/app/write_buffer.py, one thread at a time: what each of its operations
    does to the queue, the retry list and the log table. Interleavings of its critical sections
    are the subject of WriteBufferModel. */
module WriteBuffer {
  import opened LogEntries
  import M = WriteBufferModel

  /** The database behind the session factory. What becomes of each attempt to insert is given:
      it may fail before or after the commit took effect. */
  class LogTable {
    const h: Hash
    const outcomes: nat -> M.Outcome
    var rows: seq<Entry>
    var tries: nat

    constructor (h: Hash, outcomes: nat -> M.Outcome)
      ensures this.h == h && this.outcomes == outcomes && rows == [] && tries == 0
    {
      this.h, this.outcomes := h, outcomes;
      rows, tries := [], 0;
    }

    /** One bulk insert. */
    method Insert(batch: seq<Entry>) returns (ok: bool)
      modifies this
      ensures tries == old(tries) + 1 && ok == (outcomes(old(tries)) == M.Stored)
      ensures rows == if outcomes(old(tries)) == M.NotStored then old(rows) else InsertAll(h, old(rows), batch)
    {
      var outcome := outcomes(tries);
      tries := tries + 1;
      if outcome != M.NotStored { rows := InsertAll(h, rows, batch); }
      ok := outcome == M.Stored;
    }
  }

  class Batch {
    const rows: seq<Entry>
    var attempts: nat
    var nextAt: real

    constructor (rows: seq<Entry>)
      ensures this.rows == rows && attempts == 0 && nextAt == 0.0
    {
      this.rows := rows;
      this.attempts := 0;
      this.nextAt := 0.0;
    }

    method Defer(now: real) returns (ok: bool)
      modifies this
      ensures attempts == old(attempts) + 1 && ok == (attempts < M.MAX_ATTEMPTS)
      ensures nextAt == if ok then now + M.Backoff(attempts) as real else old(nextAt)
    {
      attempts := attempts + 1;
      if attempts >= M.MAX_ATTEMPTS { return false; }
      nextAt := now + M.Backoff(attempts) as real;
      return true;
    }
  }

  function Rows(bs: seq<Batch>): seq<Entry> {
    if bs == [] then [] else bs[0].rows + Rows(bs[1..])
  }

  lemma RowsStep(bs: seq<Batch>)
    ensures Rows([]) == []
    ensures bs != [] ==> Rows(bs) == bs[0].rows + Rows(bs[1..])
  {}

  lemma {:induction false} RowsConcat(a: seq<Batch>, b: seq<Batch>)
    ensures Rows(a + b) == Rows(a) + Rows(b)
  {
    hide Rows;
    RowsStep(a);
    if a == [] {
      assert a + b == b;
    } else {
      RowsConcat(a[1..], b);
      RowsStep(a + b);
      assert (a + b)[1..] == a[1..] + b;
    }
  }

  /** One batch less from the front. */
  lemma OldestOff(all: seq<Batch>, n: nat)
    requires n < |all|
    ensures all[n..][1..] == all[n + 1..] && all[..n] + [all[n]] == all[..n + 1]
    ensures |Rows(all[n..])| == |all[n].rows| + |Rows(all[n + 1..])|
  {
    hide Rows;
    RowsStep(all[n..]);
    assert all[n..][1..] == all[n + 1..];
  }

  lemma Appended(before: seq<Batch>, batch: Batch)
    ensures |Rows(before + [batch])| == |Rows(before)| + |batch.rows|
    ensures Distinct(before) && batch !in before ==> Distinct(before + [batch])
  {
    hide Rows;
    RowsConcat(before, [batch]);
    RowsOne(batch);
  }

  lemma RowsOne(b: Batch)
    ensures Rows([b]) == b.rows
  {
    assert [b][1..] == [];
  }

  ghost predicate Distinct(bs: seq<Batch>) {
    forall i, j :: 0 <= i < j < |bs| ==> bs[i] != bs[j]
  }

  /** Every accepted row is in exactly one place. */
  ghost predicate Balanced(accepted: multiset<Entry>, inserted: multiset<Entry>, queue: seq<Entry>,
                           retry: seq<Batch>, inFlight: multiset<Entry>, discarded: multiset<Entry>) {
    accepted == inserted + multiset(queue) + multiset(Rows(retry)) + inFlight + discarded
  }

  /** What overflow leaves of the waiting batches: the newest ones, and no fewer than needed to
      come down to the limit. */
  ghost predicate CutTo(all: seq<Batch>, kept: seq<Batch>, limit: int) {
    && 1 <= |kept| <= |all| && kept == all[|all| - |kept|..]
    && (|kept| < |all| ==> |Rows(all[|all| - |kept| - 1..])| > limit)
  }

  function CutOff(all: seq<Batch>, kept: seq<Batch>): seq<Batch>
    requires |kept| <= |all|
  {
    all[..|all| - |kept|]
  }

  /** The batches a retry round takes, in order, and those it leaves. */
  function DueOf(bs: seq<Batch>, now: real, force: bool): seq<Batch>
    reads bs
    decreases |bs|
  {
    if bs == [] then []
    else
      var last := bs[|bs| - 1];
      DueOf(bs[..|bs| - 1], now, force) + if force || last.nextAt <= now then [last] else []
  }

  function NotDueOf(bs: seq<Batch>, now: real, force: bool): seq<Batch>
    reads bs
    decreases |bs|
  {
    if bs == [] then []
    else
      var last := bs[|bs| - 1];
      NotDueOf(bs[..|bs| - 1], now, force) + if force || last.nextAt <= now then [] else [last]
  }

  lemma DistinctRest(all: seq<Batch>, cut: seq<Batch>, kept: seq<Batch>)
    requires cut + kept == all
    ensures Distinct(all) ==> Distinct(kept)
    ensures forall b :: b in kept ==> b in all
  {
    assert forall i :: 0 <= i < |kept| ==> kept[i] == all[|cut| + i];
  }

  lemma CutToPart(all: seq<Batch>, kept: seq<Batch>, limit: int)
    requires CutTo(all, kept, limit)
    ensures 1 <= |kept| <= |all| && CutOff(all, kept) + kept == all && kept[|kept| - 1] == all[|all| - 1]
    ensures forall b :: b in kept ==> b in all
  {
    hide Rows;
  }

  lemma SubSize(rows: seq<Entry>, bag: multiset<Entry>)
    requires multiset(rows) <= bag
    ensures |rows| <= |bag|
  {
    assert bag == bag - multiset(rows) + multiset(rows);
  }

  /** Nothing is cut off while all rows fit. */
  lemma NothingCut(before: seq<Batch>, batch: Batch, kept: seq<Batch>, limit: int)
    requires CutTo(before + [batch], kept, limit) && |Rows(before)| + |batch.rows| <= limit
    ensures CutOff(before + [batch], kept) == []
  {
    hide Rows;
    var all := before + [batch];
    RowsConcat(before, [batch]);
    RowsOne(batch);
    if |kept| < |all| {
      var k := |all| - |kept| - 1;
      assert all == all[..k] + all[k..];
      RowsConcat(all[..k], all[k..]);
    }
  }

  // ---------- What becomes of the waiting batches ----------

  /** Batches that no longer wait had their rows discarded. */
  ghost predicate Thinned(before: seq<Batch>, retry: seq<Batch>, gone: multiset<Entry>, discarded: multiset<Entry>) {
    gone <= discarded && forall b :: b in before ==> b in retry || multiset(b.rows) <= discarded - gone
  }

  lemma FirstIn(bs: seq<Batch>)
    ensures bs != [] ==> bs[0] in bs
  {}

  lemma KeysNone(h: Hash, present: set<Key>)
    ensures Keys(h, []) <= present
  {}

  lemma SameThinned(retry: seq<Batch>, discarded: multiset<Entry>)
    ensures Thinned(retry, retry, discarded, discarded)
  {}

  lemma {:induction false} RowsHold(bs: seq<Batch>, b: Batch)
    requires b in bs
    ensures multiset(b.rows) <= multiset(Rows(bs))
  {
    hide Rows;
    RowsStep(bs);
    if b != bs[0] { RowsHold(bs[1..], b); }
  }

  lemma ThinnedByCut(before: seq<Batch>, batch: Batch, overflow: seq<Batch>, retry: seq<Batch>,
                     gone: multiset<Entry>, discarded: multiset<Entry>)
    requires overflow + retry == before + [batch] && discarded == gone + multiset(Rows(overflow))
    ensures Thinned(before, retry, gone, discarded)
  {
    hide Rows;
    assert discarded - gone == multiset(Rows(overflow));
    forall b | b in before && b !in retry ensures multiset(b.rows) <= discarded - gone {
      assert b in before + [batch];
      RowsHold(overflow, b);
    }
  }

  /** What is seen of a waiting batch. */
  datatype Seen = Seen(attempts: nat, nextAt: real)

  function SeenOf(b: Batch): Seen
    reads b
  {
    Seen(b.attempts, b.nextAt)
  }

  /** The waiting batches, the discarded rows and the keys of the table at a moment. */
  datatype Moment = Moment(retry: seq<Batch>, discarded: multiset<Entry>, present: set<Key>)

  ghost predicate Lost(b: Batch, at: Moment, gone: multiset<Entry>) {
    b !in at.retry && gone <= at.discarded && multiset(b.rows) <= at.discarded - gone
  }

  /** What a retry round does to one waiting batch, `ok` being whether its insert succeeds. A due
      batch is in the table and no longer waits, or counts one attempt more: the 100th ends it, else
      it waits for its next time. The others are left alone. Overflow may discard any that waits. */
  ghost predicate Fate(h: Hash, b: Batch, was: Seen, seen: Seen, at: Moment, due: bool, ok: bool, now: real, gone: multiset<Entry>) {
    if !due then seen == was && (b in at.retry || Lost(b, at, gone))
    else if ok then seen == was && b !in at.retry && Keys(h, b.rows) <= at.present
    else
      && seen.attempts == was.attempts + 1
      && if seen.attempts >= M.MAX_ATTEMPTS then Lost(b, at, gone)
         else seen.nextAt == now + M.Backoff(seen.attempts) as real && (b in at.retry || Lost(b, at, gone))
  }

  /** Later in the round a batch keeps its fate, or overflow discards it. */
  lemma FateOn(h: Hash, b: Batch, was: Seen, seen: Seen, at: Moment, later: Moment, due: bool, ok: bool, now: real, gone: multiset<Entry>)
    requires Fate(h, b, was, seen, at, due, ok, now, gone)
    requires gone <= at.discarded && Thinned(at.retry, later.retry, at.discarded, later.discarded) && at.present <= later.present
    requires b in later.retry ==> b in at.retry
    ensures Fate(h, b, was, seen, later, due, ok, now, gone) && gone <= later.discarded
  {
    hide Keys;
    if b !in later.retry {
      assert gone <= later.discarded;
      assert later.discarded - at.discarded <= later.discarded - gone;
      assert at.discarded - gone <= later.discarded - gone;
    }
  }

  /** The round has come to the k-th due batch; `was` is how the due ones looked before it. */
  ghost predicate Fates(h: Hash, outcomes: nat -> M.Outcome, due: seq<Batch>, was: seq<Seen>, seen: seq<Seen>, k: nat, start: nat,
                        at: Moment, now: real, gone: multiset<Entry>)
  {
    && |was| == |seen| == |due| && k <= |due| && gone <= at.discarded
    && (forall j :: 0 <= j < k ==> Fate(h, due[j], was[j], seen[j], at, true, outcomes(start + j) == M.Stored, now, gone))
    && forall j :: k <= j < |due| ==> seen[j] == was[j]
  }

  /** ... and the batches that were not due. */
  ghost predicate LeftAlone(h: Hash, rest: seq<Batch>, was: seq<Seen>, seen: seq<Seen>, at: Moment, now: real, gone: multiset<Entry>) {
    && |was| == |seen| == |rest| && gone <= at.discarded
    && forall j :: 0 <= j < |rest| ==> Fate(h, rest[j], was[j], seen[j], at, false, false, now, gone)
  }

  /** What a write of something else does to the batches `bs`. */
  ghost predicate Moves(bs: seq<Batch>, at: Moment, later: Moment) {
    && Thinned(at.retry, later.retry, at.discarded, later.discarded) && at.present <= later.present
    && forall b :: b in bs && b in later.retry ==> b in at.retry
  }

  lemma FatesNext(h: Hash, outcomes: nat -> M.Outcome, due: seq<Batch>, was: seq<Seen>, seen: seq<Seen>, seen': seq<Seen>,
                  k: nat, start: nat, at: Moment, later: Moment, now: real, gone: multiset<Entry>)
    requires Fates(h, outcomes, due, was, seen, k, start, at, now, gone) && k < |due| && Distinct(due)
    requires Moves(due[..k], at, later) && |seen'| == |due| && forall j :: 0 <= j < |due| && j != k ==> seen'[j] == seen[j]
    requires Fate(h, due[k], seen[k], seen'[k], later, true, outcomes(start + k) == M.Stored, now, at.discarded)
    ensures Fates(h, outcomes, due, was, seen', k + 1, start, later, now, gone)
  {
    hide Fate;
    FateSince(h, due[k], was[k], seen'[k], later, true, outcomes(start + k) == M.Stored, now, at.discarded, gone);
    forall j | 0 <= j < k ensures Fate(h, due[j], was[j], seen'[j], later, true, outcomes(start + j) == M.Stored, now, gone) {
      assert due[j] in due[..k];
      FateOn(h, due[j], was[j], seen[j], at, later, true, outcomes(start + j) == M.Stored, now, gone);
    }
  }

  lemma FateSince(h: Hash, b: Batch, was: Seen, seen: Seen, at: Moment, due: bool, ok: bool, now: real, gone: multiset<Entry>, before: multiset<Entry>)
    requires Fate(h, b, was, seen, at, due, ok, now, gone) && before <= gone <= at.discarded
    ensures Fate(h, b, was, seen, at, due, ok, now, before)
  {
    hide Keys;
    assert at.discarded - gone <= at.discarded - before;
  }

  lemma LeftOn(h: Hash, rest: seq<Batch>, was: seq<Seen>, seen: seq<Seen>, at: Moment, later: Moment, now: real, gone: multiset<Entry>)
    requires LeftAlone(h, rest, was, seen, at, now, gone) && Moves(rest, at, later)
    ensures LeftAlone(h, rest, was, seen, later, now, gone)
  {
    hide Fate;
    forall j | 0 <= j < |rest| ensures Fate(h, rest[j], was[j], seen[j], later, false, false, now, gone) {
      FateOn(h, rest[j], was[j], seen[j], at, later, false, false, now, gone);
    }
  }

  lemma FatesOn(h: Hash, outcomes: nat -> M.Outcome, due: seq<Batch>, was: seq<Seen>, seen: seq<Seen>, start: nat,
                at: Moment, later: Moment, now: real, gone: multiset<Entry>)
    requires Fates(h, outcomes, due, was, seen, |due|, start, at, now, gone) && Moves(due, at, later)
    ensures Fates(h, outcomes, due, was, seen, |due|, start, later, now, gone)
  {
    hide Fate;
    forall j | 0 <= j < |due| ensures Fate(h, due[j], was[j], seen[j], later, true, outcomes(start + j) == M.Stored, now, gone) {
      FateOn(h, due[j], was[j], seen[j], at, later, true, outcomes(start + j) == M.Stored, now, gone);
    }
  }

  /** Before the round. */
  lemma FatesStart(h: Hash, outcomes: nat -> M.Outcome, due: seq<Batch>, rest: seq<Batch>, seen: seq<Seen>, seenRest: seq<Seen>,
                   start: nat, at: Moment, now: real)
    requires rest == at.retry && |seen| == |due| && |seenRest| == |rest|
    ensures Fates(h, outcomes, due, seen, seen, 0, start, at, now, at.discarded)
    ensures LeftAlone(h, rest, seenRest, seenRest, at, now, at.discarded)
  {}

  /** `y` comes after `x`. */
  ghost predicate Before(bs: seq<Batch>, x: Batch, y: Batch) {
    exists i, j :: 0 <= i < j < |bs| && bs[i] == x && bs[j] == y
  }

  ghost predicate SameOrder(part: seq<Batch>, all: seq<Batch>) {
    forall x, y :: x in part && y in part && Before(part, x, y) ==> Before(all, x, y)
  }

  lemma OrderMore(part: seq<Batch>, all: seq<Batch>, last: Batch)
    requires SameOrder(part, all) && forall i :: 0 <= i < |part| ==> part[i] in all
    ensures SameOrder(part, all + [last]) && SameOrder(part + [last], all + [last])
  {
    var more := all + [last];
    forall x, y | x in part + [last] && y in part + [last] && Before(part + [last], x, y) ensures Before(more, x, y) {
      var i, j :| 0 <= i < j <= |part| && (part + [last])[i] == x && (part + [last])[j] == y;
      if j < |part| {
        assert Before(part, x, y);
        var i', j' :| 0 <= i' < j' < |all| && all[i'] == x && all[j'] == y;
        assert more[i'] == x && more[j'] == y;
      } else {
        assert part[i] in all;
        var i' :| 0 <= i' < |all| && all[i'] == x;
        assert more[i'] == x && more[|all|] == y;
      }
    }
    forall x, y | x in part && y in part && Before(part, x, y) ensures Before(more, x, y) {
      var i', j' :| 0 <= i' < j' < |all| && all[i'] == x && all[j'] == y;
      assert more[i'] == x && more[j'] == y;
    }
  }

  lemma {:induction false} DueOrder(bs: seq<Batch>, now: real, force: bool)
    ensures SameOrder(DueOf(bs, now, force), bs) && SameOrder(NotDueOf(bs, now, force), bs)
    decreases |bs|
  {
    hide SameOrder, DueOf, NotDueOf;
    DueStep(bs, 0, now, force);
    if bs == [] {
      NoOrder();
    } else {
      var n := |bs| - 1;
      var init, last := bs[..n], bs[n];
      DueOrder(init, now, force);
      DueMembers(init, now, force);
      DueStep(bs, n, now, force);
      assert bs == init + [last] && bs[..|bs|] == bs;
      OrderMore(DueOf(init, now, force), init, last);
      OrderMore(NotDueOf(init, now, force), init, last);
      assert DueOf(init, now, force) + [] == DueOf(init, now, force);
      assert NotDueOf(init, now, force) + [] == NotDueOf(init, now, force);
    }
  }

  lemma {:induction false} DueIn(bs: seq<Batch>, now: real, force: bool, i: nat)
    requires i < |DueOf(bs, now, force)|
    ensures DueOf(bs, now, force)[i] in bs && (force || DueOf(bs, now, force)[i].nextAt <= now)
    decreases |bs|
  {
    hide DueOf, NotDueOf;
    DueStep(bs, 0, now, force);
    assert bs[..|bs|] == bs;
    if bs != [] {
      var n := |bs| - 1;
      DueStep(bs, n, now, force);
      if i < |DueOf(bs[..n], now, force)| { DueIn(bs[..n], now, force, i); }
    }
  }

  lemma {:induction false} NotDueIn(bs: seq<Batch>, now: real, force: bool, i: nat)
    requires i < |NotDueOf(bs, now, force)|
    ensures NotDueOf(bs, now, force)[i] in bs && !force && NotDueOf(bs, now, force)[i].nextAt > now
    decreases |bs|
  {
    hide DueOf, NotDueOf;
    DueStep(bs, 0, now, force);
    assert bs[..|bs|] == bs;
    if bs != [] {
      var n := |bs| - 1;
      DueStep(bs, n, now, force);
      if i < |NotDueOf(bs[..n], now, force)| { NotDueIn(bs[..n], now, force, i); }
    }
  }

  lemma {:induction false} DueAll(bs: seq<Batch>, now: real, force: bool, i: nat)
    requires i < |bs|
    ensures bs[i] in if force || bs[i].nextAt <= now then DueOf(bs, now, force) else NotDueOf(bs, now, force)
    decreases |bs|
  {
    hide DueOf, NotDueOf;
    var n := |bs| - 1;
    DueStep(bs, n, now, force);
    assert bs[..|bs|] == bs;
    if i < n {
      DueAll(bs[..n], now, force, i);
      assert bs[..n][i] == bs[i];
    }
  }

  lemma DueMembers(bs: seq<Batch>, now: real, force: bool)
    ensures forall i :: 0 <= i < |DueOf(bs, now, force)| ==>
              DueOf(bs, now, force)[i] in bs && (force || DueOf(bs, now, force)[i].nextAt <= now)
    ensures forall i :: 0 <= i < |NotDueOf(bs, now, force)| ==>
              NotDueOf(bs, now, force)[i] in bs && !force && NotDueOf(bs, now, force)[i].nextAt > now
    ensures forall i :: 0 <= i < |bs| ==>
              bs[i] in if force || bs[i].nextAt <= now then DueOf(bs, now, force) else NotDueOf(bs, now, force)
  {
    hide DueOf, NotDueOf;
    forall i | 0 <= i < |DueOf(bs, now, force)|
      ensures DueOf(bs, now, force)[i] in bs && (force || DueOf(bs, now, force)[i].nextAt <= now)
    {
      DueIn(bs, now, force, i);
    }
    forall i | 0 <= i < |NotDueOf(bs, now, force)|
      ensures NotDueOf(bs, now, force)[i] in bs && !force && NotDueOf(bs, now, force)[i].nextAt > now
    {
      NotDueIn(bs, now, force, i);
    }
    forall i | 0 <= i < |bs|
      ensures bs[i] in if force || bs[i].nextAt <= now then DueOf(bs, now, force) else NotDueOf(bs, now, force)
    {
      DueAll(bs, now, force, i);
    }
  }

  /** The due batches are those whose time has come, or all when forced; both parts keep their order. */
  lemma DueMeans(bs: seq<Batch>, now: real, force: bool)
    ensures forall i :: 0 <= i < |DueOf(bs, now, force)| ==>
              DueOf(bs, now, force)[i] in bs && (force || DueOf(bs, now, force)[i].nextAt <= now)
    ensures forall i :: 0 <= i < |NotDueOf(bs, now, force)| ==>
              NotDueOf(bs, now, force)[i] in bs && !force && NotDueOf(bs, now, force)[i].nextAt > now
    ensures forall i :: 0 <= i < |bs| ==>
              bs[i] in if force || bs[i].nextAt <= now then DueOf(bs, now, force) else NotDueOf(bs, now, force)
    ensures SameOrder(DueOf(bs, now, force), bs) && SameOrder(NotDueOf(bs, now, force), bs)
  {
    hide SameOrder, DueOf, NotDueOf;
    DueMembers(bs, now, force);
    DueOrder(bs, now, force);
  }

  lemma NoOrder()
    ensures SameOrder([], [])
  {}

  class WriteBuffer {
    const maxSize: int
    const maxPending: int
    const db: LogTable
    var queue: seq<Entry>
    var retry: seq<Batch>
    var retryRows: int
    var dropped: int
    /** What happened to the rows so far; `inFlight` is in the hands of the running operation. */
    ghost var accepted: multiset<Entry>
    ghost var inserted: multiset<Entry>
    ghost var inFlight: multiset<Entry>
    ghost var discarded: multiset<Entry>

    ghost predicate Stored()
      reads `inserted, db
    {
      OneRowPerKey(db.h, db.rows) && BagKeys(db.h, inserted) <= Keys(db.h, db.rows)
    }

    ghost predicate Waiting()
      reads `retry, `retryRows, retry
    {
      && Distinct(retry) && retryRows == |Rows(retry)|
      && (retryRows <= maxPending || |retry| <= 1)
      && forall b :: b in retry ==> 1 <= b.attempts < M.MAX_ATTEMPTS
    }

    ghost predicate Accounted()
      reads `accepted, `inserted, `queue, `retry, `inFlight, `discarded, `dropped
    {
      Balanced(accepted, inserted, queue, retry, inFlight, discarded) && dropped == |discarded|
    }

    ghost predicate Valid()
      reads this, db, retry
    {
      Stored() && Waiting() && Accounted()
    }

    /** All rows on the way to the table. */
    ghost function Held(): int
      reads `queue, `retryRows, `inFlight
    {
      |queue| + retryRows + |inFlight|
    }

    constructor (db: LogTable, maxSize: int, maxPending: int)
      requires OneRowPerKey(db.h, db.rows)
      ensures Valid() && this.db == db && this.maxSize == maxSize && this.maxPending == maxPending
      ensures queue == [] && retry == [] && retryRows == 0 && dropped == 0
      ensures inFlight == accepted == inserted == discarded == multiset{}
    {
      this.db, this.maxSize, this.maxPending := db, maxSize, maxPending;
      queue, retry, retryRows, dropped := [], [], 0, 0;
      accepted, inserted, inFlight, discarded := multiset{}, multiset{}, multiset{}, multiset{};
    }

    method PendingRows() returns (n: int)
      ensures n == |queue| + retryRows
    {
      n := |queue| + retryRows;
    }

    method Saturated() returns (b: bool)
      ensures b <==> |queue| + retryRows >= maxPending
    {
      var n := PendingRows();
      b := n >= maxPending;
    }

    method Insert(batch: seq<Entry>) returns (ok: bool)
      requires Stored() && Accounted() && multiset(batch) <= inFlight
      modifies db, this`inserted, this`inFlight
      ensures Stored() && Accounted() && Keys(db.h, old(db.rows)) <= Keys(db.h, db.rows)
      ensures inserted == if ok then old(inserted) + multiset(batch) else old(inserted)
      ensures inFlight == if ok then old(inFlight) - multiset(batch) else old(inFlight)
      ensures db.tries == old(db.tries) + 1 && ok == (db.outcomes(old(db.tries)) == M.Stored)
      ensures ok ==> Keys(db.h, batch) <= Keys(db.h, db.rows)
    {
      hide InsertAll, OneRowPerKey, Keys, BagKeys, Rows, Balanced;
      InsertAllKeys(db.h, db.rows, batch);
      BagKeysOf(db.h, batch, inserted);
      ok := db.Insert(batch);
      if ok {
        inserted := inserted + multiset(batch);
        inFlight := inFlight - multiset(batch);
        MoveIn(accepted, old(inserted), queue, retry, old(inFlight), discarded, batch);
      }
    }

    method Drop(rows: seq<Entry>)
      modifies this`dropped, this`discarded
      ensures dropped == old(dropped) + |rows| && discarded == old(discarded) + multiset(rows)
    {
      dropped := dropped + |rows|;
      discarded := discarded + multiset(rows);
    }

    /** Cuts the waiting batches to the limit, oldest first; the newest batch always stays. */
    method CutOverflow() returns (overflow: seq<Batch>)
      requires retryRows == |Rows(retry)| && |retry| >= 1
      modifies `retry, `retryRows
      ensures overflow + retry == old(retry) && retryRows == |Rows(retry)|
      ensures CutTo(old(retry), retry, maxPending)
      ensures retryRows <= maxPending || |retry| == 1
    {
      hide Rows;
      overflow := [];
      ghost var all := retry;
      ghost var n := 0;
      assert all[0..] == all && all[..0] == [];
      while retryRows > maxPending && |retry| > 1
        invariant 0 <= n < |all| && overflow == all[..n] && retry == all[n..]
        invariant retryRows == |Rows(all[n..])|
        invariant n > 0 ==> |Rows(all[n - 1..])| > maxPending
        decreases |retry|
      {
        OldestOff(all, n);
        var oldest := retry[0];
        retry := retry[1..];
        retryRows := retryRows - |oldest.rows|;
        overflow := overflow + [oldest];
        n := n + 1;
      }
      assert all[..n] + all[n..] == all;
    }

    /** The locked part of a requeue. */
    method AppendRetry(batch: Batch) returns (overflow: seq<Batch>)
      requires Waiting() && batch !in retry && 1 <= batch.attempts < M.MAX_ATTEMPTS
      modifies `retry, `retryRows
      ensures Waiting() && overflow + retry == old(retry) + [batch]
      ensures CutTo(old(retry) + [batch], retry, maxPending)
      ensures retryRows == old(retryRows) + |batch.rows| - |Rows(overflow)|
    {
      hide Rows, CutTo, Distinct;
      Appended(retry, batch);
      retry := retry + [batch];
      retryRows := retryRows + |batch.rows|;
      ghost var all := retry;
      overflow := CutOverflow();
      RowsConcat(overflow, retry);
      DistinctRest(all, overflow, retry);
    }

    /** The batch used up its attempts and was discarded, or waits after one more. */
    ghost predicate Requeued(batch: Batch, tries: nat, now: real, before: seq<Batch>, gone: multiset<Entry>)
      reads `retry, `discarded, batch
    {
      && batch.attempts == tries + 1
      && if batch.attempts == M.MAX_ATTEMPTS then retry == before && discarded == gone + multiset(batch.rows)
         else batch.nextAt == now + M.Backoff(batch.attempts) as real && Waits(before, batch, gone)
    }

    /** A failed batch waits for its next try, unless it has used up its attempts. */
    method Requeue(batch: Batch, now: real)
      requires Waiting() && Accounted() && batch !in retry && batch.attempts < M.MAX_ATTEMPTS
      requires multiset(batch.rows) <= inFlight
      modifies batch, `retry, `retryRows, `dropped, `discarded, `inFlight
      ensures Waiting() && Accounted() && Requeued(batch, old(batch.attempts), now, old(retry), old(discarded))
      ensures batch.attempts < M.MAX_ATTEMPTS && old(retryRows) + |batch.rows| <= maxPending ==> discarded == old(discarded)
      ensures forall b :: b in retry ==> b in old(retry) || b == batch
      ensures Thinned(old(retry), retry, old(discarded), discarded)
      ensures batch in retry || (batch.attempts == M.MAX_ATTEMPTS && multiset(batch.rows) <= discarded - old(discarded))
      ensures inFlight == old(inFlight) - multiset(batch.rows)
      ensures Held() <= old(Held())
    {
      hide Rows, Accounted, Waiting, Held, Waits;
      var ok := batch.Defer(now);
      if ok { Wait(batch); } else { GiveUp(batch); }
    }

    /** The batch is dropped for its attempts. */
    method GiveUp(batch: Batch)
      requires Accounted() && multiset(batch.rows) <= inFlight
      modifies `dropped, `discarded, `inFlight
      ensures Accounted() && discarded == old(discarded) + multiset(batch.rows)
      ensures inFlight == old(inFlight) - multiset(batch.rows)
      ensures Held() <= old(Held())
    {
      hide Rows, Balanced;
      Drop(batch.rows);
      inFlight := inFlight - multiset(batch.rows);
      MoveOut(accepted, inserted, queue, retry, old(inFlight), old(discarded), batch.rows);
    }

    lemma RowsCounted()
      requires Waiting()
      ensures retryRows == |Rows(retry)|
    {
      hide Rows;
    }

    /** The batch was appended to the waiting ones, and what overflow then cut off was discarded. */
    ghost predicate Waits(before: seq<Batch>, batch: Batch, gone: multiset<Entry>)
      reads `retry, `discarded
    {
      CutTo(before + [batch], retry, maxPending)
      && discarded == gone + multiset(Rows(CutOff(before + [batch], retry)))
    }

    method Wait(batch: Batch)
      requires Waiting() && Accounted() && batch !in retry && 1 <= batch.attempts < M.MAX_ATTEMPTS
      requires multiset(batch.rows) <= inFlight
      modifies `retry, `retryRows, `dropped, `discarded, `inFlight
      ensures Waiting() && Accounted()
      ensures Waits(old(retry), batch, old(discarded))
      ensures old(retryRows) + |batch.rows| <= maxPending ==> discarded == old(discarded)
      ensures forall b :: b in retry ==> b in old(retry) || b == batch
      ensures Thinned(old(retry), retry, old(discarded), discarded) && batch in retry
      ensures inFlight == old(inFlight) - multiset(batch.rows)
      ensures Held() <= old(Held())
    {
      hide Rows, Balanced, Waiting, CutTo, Accounted, Thinned;
      ghost var before := retry;
      RowsCounted();
      Accounts();
      var overflow := AppendRetry(batch);
      DropOverflow(before, batch, overflow);
      CutToPart(before + [batch], retry, maxPending);
      assert overflow == CutOff(before + [batch], retry);
      ThinnedByCut(before, batch, overflow, retry, old(discarded), discarded);
      if old(retryRows) + |batch.rows| <= maxPending {
        NothingCut(before, batch, retry, maxPending);
        NoRows();
      }
    }

    lemma Accounts()
      requires Accounted()
      ensures Balanced(accepted, inserted, queue, retry, inFlight, discarded) && dropped == |discarded|
    {
      hide Balanced;
    }

    /** The batch has left the hands of the operation, and the overflow is dropped. */
    method DropOverflow(ghost before: seq<Batch>, batch: Batch, overflow: seq<Batch>)
      requires overflow + retry == before + [batch] && multiset(batch.rows) <= inFlight
      requires Balanced(accepted, inserted, queue, before, inFlight, discarded) && dropped == |discarded|
      modifies `dropped, `discarded, `inFlight
      ensures Accounted() && discarded == old(discarded) + multiset(Rows(overflow))
      ensures inFlight == old(inFlight) - multiset(batch.rows) && |inFlight| == |old(inFlight)| - |batch.rows|
    {
      hide Rows, Balanced;
      Overflowed(before, batch, overflow, retry);
      MoveOver(accepted, inserted, queue, before, inFlight, discarded, batch, overflow, retry);
      inFlight := inFlight - multiset(batch.rows);
      if overflow != [] {
        Drop(Rows(overflow));
      } else {
        NoRows();
        assert discarded + multiset(Rows(overflow)) == discarded;
      }
    }

    /** The rows became the newest waiting batch. */
    ghost predicate PutOff(rows: seq<Entry>, now: real, before: seq<Batch>, gone: multiset<Entry>)
      reads `retry, `discarded, retry
    {
      retry != [] &&
      var batch := retry[|retry| - 1];
      && batch.rows == rows && batch.attempts == 1 && batch.nextAt == now + M.Backoff(1) as real
      && Waits(before, batch, gone)
    }

    /** A fresh batch of rows that could not be written. */
    method Keep(rows: seq<Entry>, now: real)
      requires Waiting() && Accounted() && multiset(rows) <= inFlight
      modifies `retry, `retryRows, `dropped, `discarded, `inFlight
      ensures Waiting() && Accounted() && PutOff(rows, now, old(retry), old(discarded))
      ensures old(Held()) <= maxPending ==> discarded == old(discarded)
      ensures forall b :: b in retry ==> b in old(retry) || fresh(b)
      ensures Thinned(old(retry), retry, old(discarded), discarded) && NewestIs(rows) && fresh(retry[|retry| - 1])
      ensures inFlight == old(inFlight) - multiset(rows) && Held() <= old(Held())
    {
      hide Rows, Accounted, Waiting, CutTo, Thinned;
      SubSize(rows, inFlight);
      var batch := new Batch(rows);
      Requeue(batch, now);
      CutToPart(old(retry) + [batch], retry, maxPending);
    }

    /** The rows are inserted and nothing else moved. */
    ghost predicate Settled(rows: seq<Entry>, before: seq<Batch>, already: multiset<Entry>, gone: multiset<Entry>)
      reads `retry, `inserted, `discarded
    {
      inserted == already + multiset(rows) && retry == before && discarded == gone
    }

    /** The rows are inserted, or put off. */
    ghost predicate Written(ok: bool, rows: seq<Entry>, now: real, before: seq<Batch>, already: multiset<Entry>, gone: multiset<Entry>)
      reads `retry, `inserted, `discarded, retry
    {
      if ok then Settled(rows, before, already, gone) else inserted == already && PutOff(rows, now, before, gone)
    }

    /** Whether the next insert succeeds. */
    ghost predicate Works()
      reads db
    {
      db.outcomes(db.tries) == M.Stored
    }

    /** Writes rows taken from the queue, keeping them for a retry when that fails. */
    method Write(rows: seq<Entry>, now: real)
      requires Valid() && multiset(rows) <= inFlight
      modifies this, db
      ensures Valid() && Keys(db.h, old(db.rows)) <= Keys(db.h, db.rows)
      ensures queue == old(queue) && accepted == old(accepted)
      ensures Written(rows == [] || old(Works()), rows, now, old(retry), old(inserted), old(discarded))
      ensures db.tries == old(db.tries) + if rows == [] then 0 else 1
      ensures rows == [] || old(Works()) ==> Keys(db.h, rows) <= Keys(db.h, db.rows)
      ensures rows != [] && !old(Works()) ==> NewestIs(rows) && fresh(retry[|retry| - 1])
      ensures old(Held()) <= maxPending ==> discarded == old(discarded)
      ensures forall b :: b in retry ==> b in old(retry) || fresh(b)
      ensures Thinned(old(retry), retry, old(discarded), discarded)
      ensures inFlight == old(inFlight) - multiset(rows) && Held() <= old(Held())
    {
      hide Rows, Accounted, Stored, Waiting, PutOff, Keys, Thinned, Waits, NewestIs;
      SameThinned(retry, discarded);
      if rows == [] { KeysNone(db.h, Keys(db.h, db.rows)); return; }
      hide Written, Works;
      WriteSome(rows, now);
    }

    method WriteSome(rows: seq<Entry>, now: real)
      requires Valid() && multiset(rows) <= inFlight && rows != []
      modifies this, db
      ensures Valid() && Keys(db.h, old(db.rows)) <= Keys(db.h, db.rows)
      ensures queue == old(queue) && accepted == old(accepted)
      ensures Written(old(Works()), rows, now, old(retry), old(inserted), old(discarded))
      ensures db.tries == old(db.tries) + 1 && (old(Works()) ==> Keys(db.h, rows) <= Keys(db.h, db.rows))
      ensures !old(Works()) ==> NewestIs(rows) && fresh(retry[|retry| - 1])
      ensures old(Held()) <= maxPending ==> discarded == old(discarded)
      ensures forall b :: b in retry ==> b in old(retry) || fresh(b)
      ensures Thinned(old(retry), retry, old(discarded), discarded)
      ensures inFlight == old(inFlight) - multiset(rows) && Held() <= old(Held())
    {
      hide Rows, Accounted, Stored, Waiting, PutOff, Keys, Thinned, Waits, NewestIs;
      SameThinned(retry, discarded);
      var ok := Insert(rows);
      if !ok { Keep(rows, now); }
    }

    /** Takes all queued rows; the lock is released before they are written. */
    method TakeQueue() returns (rows: seq<Entry>)
      requires Accounted()
      modifies `queue, `inFlight
      ensures Accounted() && rows == old(queue) && queue == []
      ensures inFlight == old(inFlight) + multiset(rows) && Held() == old(Held())
    {
      hide Rows, Balanced;
      TakeUp(accepted, inserted, queue, retry, inFlight, discarded);
      rows := queue;
      queue := [];
      inFlight := inFlight + multiset(rows);
    }

    /** The locked part of an add. */
    method Enqueue(rows: seq<Entry>)
      requires Accounted()
      modifies `queue, `accepted
      ensures Accounted() && queue == old(queue) + rows && accepted == old(accepted) + multiset(rows)
      ensures Held() == old(Held()) + |rows|
    {
      hide Rows, Balanced;
      Joined(accepted, inserted, queue, retry, inFlight, discarded, rows);
      accepted := accepted + multiset(rows);
      queue := queue + rows;
    }

    /** Takes the queue and writes it. */
    method WriteQueue(now: real)
      requires Valid()
      modifies this, db
      ensures Valid() && Keys(db.h, old(db.rows)) <= Keys(db.h, db.rows)
      ensures queue == [] && accepted == old(accepted) && inFlight == old(inFlight)
      ensures Written(old(queue) == [] || old(Works()), old(queue), now, old(retry), old(inserted), old(discarded))
      ensures db.tries == old(db.tries) + if old(queue) == [] then 0 else 1
      ensures old(queue) == [] || old(Works()) ==> Keys(db.h, old(queue)) <= Keys(db.h, db.rows)
      ensures old(queue) != [] && !old(Works()) ==> NewestIs(old(queue)) && fresh(retry[|retry| - 1])
      ensures forall b :: b in retry ==> b in old(retry) || fresh(b)
      ensures Thinned(old(retry), retry, old(discarded), discarded)
      ensures Held() <= old(Held()) && (old(Held()) <= maxPending ==> discarded == old(discarded))
    {
      hide Rows, Keys, Stored, Waiting, Accounted, Held, Written, Thinned, NewestIs;
      var batch := TakeQueue();
      Write(batch, now);
      assert inFlight == old(inFlight);
    }

    method Add(rows: seq<Entry>, now: real)
      requires Valid()
      modifies this, db
      ensures Valid() && Keys(db.h, old(db.rows)) <= Keys(db.h, db.rows)
      ensures accepted == old(accepted) + multiset(rows) && inFlight == old(inFlight)
      ensures |old(queue)| + |rows| < maxSize ==> queue == old(queue) + rows && Settled([], old(retry), old(inserted), old(discarded))
      ensures |old(queue)| + |rows| >= maxSize ==>
                queue == [] && Written(old(queue) + rows == [] || old(Works()), old(queue) + rows, now,
                                       old(retry), old(inserted), old(discarded))
      ensures |old(queue)| + |rows| < maxSize ==> db.tries == old(db.tries) && db.rows == old(db.rows)
      ensures forall b :: b in retry ==> b in old(retry) || fresh(b)
      ensures Held() <= old(Held()) + |rows|
      ensures old(Held()) + |rows| <= maxPending ==> discarded == old(discarded)
    {
      hide Rows, Keys, Stored, Waiting, Accounted, Held, Written, Thinned, NewestIs, Works;
      Enqueue(rows);
      if |queue| >= maxSize { WriteQueue(now); }
    }

    /** The locked part of a retry round: the batches whose time has come leave the list. */
    method TakeDue(now: real, force: bool) returns (due: seq<Batch>)
      requires Waiting() && Accounted()
      modifies `retry, `retryRows, `inFlight
      ensures Waiting() && Accounted()
      ensures due == DueOf(old(retry), now, force) && retry == NotDueOf(old(retry), now, force)
      ensures forall b :: b in old(retry) <==> b in due || b in retry
      ensures forall b :: b in due <==> b in old(retry) && (force || b.nextAt <= now)
      ensures SameOrder(due, old(retry)) && SameOrder(retry, old(retry))
      ensures forall b :: b in due ==> b !in retry && b.attempts < M.MAX_ATTEMPTS
      ensures Distinct(due) && inFlight == old(inFlight) + multiset(Rows(due))
      ensures Held() == old(Held())
    {
      hide Rows, Balanced, DueOf, NotDueOf, SameOrder;
      var keep: seq<Batch>;
      DueMeans(retry, now, force);
      due, keep := SplitDue(retry, now, force);
      TakeOut(accepted, inserted, queue, retry, inFlight, discarded, due, keep);
      retry := keep;
      retryRows := retryRows - |Rows(due)|;
      inFlight := inFlight + multiset(Rows(due));
    }

    ghost function Now(): Moment
      reads `retry, `discarded, db
    {
      Moment(retry, discarded, Keys(db.h, db.rows))
    }

    /** The due batches are tried one after the other, in order; each meets the fate of its own insert. */
    method RetryDue(now: real, force: bool) returns (ghost due: seq<Batch>, ghost rest: seq<Batch>)
      requires Valid()
      modifies this, db, retry
      ensures Valid() && Keys(db.h, old(db.rows)) <= Keys(db.h, db.rows)
      ensures queue == old(queue) && accepted == old(accepted) && inFlight == old(inFlight)
      ensures forall b :: b in due <==> b in old(retry) && (force || old(b.nextAt) <= now)
      ensures forall b :: b in rest <==> b in old(retry) && !(force || old(b.nextAt) <= now)
      ensures SameOrder(due, old(retry)) && Distinct(due)
      ensures due == old(DueOf(retry, now, force)) && rest == old(NotDueOf(retry, now, force))
      ensures Retried(due, rest, old(SeenAll(DueOf(retry, now, force))), old(SeenAll(NotDueOf(retry, now, force))),
                      old(db.tries), now, old(discarded))
      ensures db.tries == old(db.tries) + |due|
      ensures forall b :: b in retry ==> b in old(retry)
      ensures Held() <= old(Held())
      ensures old(Held()) <= maxPending && old(Calm(retry, 0)) ==> discarded == old(discarded)
    {
      hide Rows, Keys, Stored, Waiting, Accounted, Held, DueOf, NotDueOf, Calm, SameOrder, Fates, LeftAlone;
      DueMeans(retry, now, force);
      var todo := TakeDue(now, force);
      due, rest := todo, retry;
      ghost var wasDue, wasRest := SeenAll(due), SeenAll(rest);
      RoundStarts(due, old(inFlight), old(retry));
      FatesStart(db.h, db.outcomes, due, rest, wasDue, wasRest, db.tries, Now(), now);
      RetryEach(todo, rest, now, old(inFlight), wasDue, wasRest);
    }

    /** The loop over the batches taken. */
    method RetryEach(due: seq<Batch>, ghost rest: seq<Batch>, now: real, ghost flying: multiset<Entry>,
                     ghost wasDue: seq<Seen>, ghost wasRest: seq<Seen>)
      requires InRound(due, 0, flying) && Fates(db.h, db.outcomes, due, wasDue, SeenAll(due), 0, db.tries, Now(), now, discarded)
      requires LeftAlone(db.h, rest, wasRest, SeenAll(rest), Now(), now, discarded) && forall b :: b in rest ==> b !in due
      modifies this, db, due
      ensures Valid() && Keys(db.h, old(db.rows)) <= Keys(db.h, db.rows)
      ensures queue == old(queue) && accepted == old(accepted) && inFlight == flying
      ensures Retried(due, rest, wasDue, wasRest, old(db.tries), now, old(discarded))
      ensures db.tries == old(db.tries) + |due|
      ensures forall b :: b in retry ==> b in old(retry) || b in due
      ensures Held() <= old(Held())
      ensures old(Held()) <= maxPending && old(Calm(due, 0)) ==> discarded == old(discarded)
    {
      hide Rows, Keys, Stored, Waiting, Accounted, Held, Calm, Fates, LeftAlone;
      ghost var calm := Held() <= maxPending && Calm(due, 0);
      for k := 0 to |due|
        invariant InRound(due, k, flying) && Held() <= old(Held())
        invariant Keys(db.h, old(db.rows)) <= Keys(db.h, db.rows)
        invariant queue == old(queue) && accepted == old(accepted)
        invariant calm ==> discarded == old(discarded) && Calm(due, k)
        invariant forall b :: b in retry ==> b in old(retry) || b in due
        invariant db.tries == old(db.tries) + k
        invariant Fates(db.h, db.outcomes, due, wasDue, SeenAll(due), k, old(db.tries), Now(), now, old(discarded))
        invariant LeftAlone(db.h, rest, wasRest, SeenAll(rest), Now(), now, old(discarded))
      {
        RetryNext(due, rest, k, now, flying, wasDue, wasRest, old(db.tries), old(discarded));
      }
      RoundEnds(due, flying);
    }

    /** How the batches look. */
    ghost function SeenAll(bs: seq<Batch>): seq<Seen>
      reads bs
    {
      seq(|bs|, i requires 0 <= i < |bs| reads bs => SeenOf(bs[i]))
    }

    /** The j-th due batch met the outcome of insert start + j, and the rest was left alone. */
    ghost predicate Retried(due: seq<Batch>, rest: seq<Batch>, wasDue: seq<Seen>, wasRest: seq<Seen>, start: nat,
                            now: real, gone: multiset<Entry>)
      reads `retry, `discarded, db, due, rest
    {
      && Fates(db.h, db.outcomes, due, wasDue, SeenAll(due), |due|, start, Now(), now, gone)
      && LeftAlone(db.h, rest, wasRest, SeenAll(rest), Now(), now, gone)
    }

    /** The round has come to the k-th due batch: the rows from there on are still in its hands. */
    ghost predicate InRound(due: seq<Batch>, k: nat, flying: multiset<Entry>)
      reads this, db, retry, due
    {
      && k <= |due| && Valid() && Distinct(due)
      && inFlight == flying + multiset(Rows(due[k..]))
      && forall j :: k <= j < |due| ==> due[j] !in retry && due[j].attempts < M.MAX_ATTEMPTS
    }

    lemma RoundStarts(due: seq<Batch>, flying: multiset<Entry>, before: seq<Batch>)
      requires Valid() && Distinct(due) && inFlight == flying + multiset(Rows(due))
      requires forall b :: b in due ==> b !in retry && b.attempts < M.MAX_ATTEMPTS && b in before
      ensures InRound(due, 0, flying)
      ensures Calm(before, 0) ==> Calm(due, 0)
    {
      hide Rows, Stored, Waiting, Accounted;
      assert due[0..] == due;
    }

    lemma RoundEnds(due: seq<Batch>, flying: multiset<Entry>)
      requires InRound(due, |due|, flying)
      ensures inFlight == flying
    {
      hide Rows, Stored, Waiting, Accounted;
      assert due[|due|..] == [];
      NoRows();
    }

    method RetryNext(due: seq<Batch>, ghost rest: seq<Batch>, k: nat, now: real, ghost flying: multiset<Entry>,
                     ghost wasDue: seq<Seen>, ghost wasRest: seq<Seen>, ghost start: nat, ghost gone: multiset<Entry>)
      requires k < |due| && InRound(due, k, flying) && db.tries == start + k
      requires Fates(db.h, db.outcomes, due, wasDue, SeenAll(due), k, start, Now(), now, gone)
      requires LeftAlone(db.h, rest, wasRest, SeenAll(rest), Now(), now, gone) && forall b :: b in rest ==> b !in due
      modifies this, db, due[k]
      ensures InRound(due, k + 1, flying) && Held() <= old(Held())
      ensures Keys(db.h, old(db.rows)) <= Keys(db.h, db.rows)
      ensures queue == old(queue) && accepted == old(accepted)
      ensures old(Held()) <= maxPending && old(Calm(due, k)) ==> discarded == old(discarded) && Calm(due, k + 1)
      ensures forall b :: b in retry ==> b in old(retry) || b == due[k]
      ensures db.tries == start + k + 1
      ensures Fates(db.h, db.outcomes, due, wasDue, SeenAll(due), k + 1, start, Now(), now, gone)
      ensures LeftAlone(db.h, rest, wasRest, SeenAll(rest), Now(), now, gone)
    {
      hide Rows, Keys, Stored, Waiting, Accounted, Held, Settled, Requeued, Fate, Thinned, Fates, LeftAlone;
      ghost var before, seen, seenRest := Now(), SeenAll(due), SeenAll(rest);
      RowsCons(due, k, flying);
      Retry(due[k], now);
      FatesNext(db.h, db.outcomes, due, wasDue, seen, SeenAll(due), k, start, before, Now(), now, gone);
      forall j | 0 <= j < |rest| ensures rest[j] != due[k] { assert rest[j] in rest && due[k] in due; }
      assert SeenAll(rest) == seenRest;
      LeftOn(db.h, rest, wasRest, seenRest, before, Now(), now, gone);
    }

    /** One batch of a retry round. */
    method Retry(batch: Batch, now: real)
      requires Valid() && batch !in retry && batch.attempts < M.MAX_ATTEMPTS
      requires multiset(batch.rows) <= inFlight
      modifies this, db, batch
      ensures Valid() && Keys(db.h, old(db.rows)) <= Keys(db.h, db.rows)
      ensures queue == old(queue) && accepted == old(accepted)
      ensures inFlight == old(inFlight) - multiset(batch.rows)
      ensures db.tries == old(db.tries) + 1
      ensures if old(Works()) then Settled(batch.rows, old(retry), old(inserted), old(discarded))
              else inserted == old(inserted) && Requeued(batch, old(batch.attempts), now, old(retry), old(discarded))
      ensures Thinned(old(retry), retry, old(discarded), discarded)
      ensures Fate(db.h, batch, old(SeenOf(batch)), SeenOf(batch), Now(), true, old(Works()), now, old(discarded))
      ensures forall b :: b in retry ==> b in old(retry) || b == batch
      ensures Held() <= old(Held())
      ensures old(Held()) <= maxPending && old(batch.attempts) + 1 < M.MAX_ATTEMPTS ==> discarded == old(discarded)
    {
      hide Rows, Accounted, Keys, Stored, Waiting, Waits, Thinned;
      SubSize(batch.rows, inFlight);
      SameThinned(retry, discarded);
      var ok := Insert(batch.rows);
      if !ok { Requeue(batch, now); }
    }

    /** One tick of the flush loop: the batches whose time has come meet the fates of their inserts, then
        the queue is written, or waits as a new batch. */
    method Flush(now: real) returns (ghost due: seq<Batch>, ghost rest: seq<Batch>)
      requires Valid()
      modifies this, db, retry
      ensures Valid() && Keys(db.h, old(db.rows)) <= Keys(db.h, db.rows)
      ensures queue == [] && accepted == old(accepted) && inFlight == old(inFlight)
      ensures forall b :: b in due <==> b in old(retry) && old(b.nextAt) <= now
      ensures forall b :: b in rest <==> b in old(retry) && old(b.nextAt) > now
      ensures SameOrder(due, old(retry)) && Distinct(due)
      ensures due == old(DueOf(retry, now, false)) && rest == old(NotDueOf(retry, now, false))
      ensures Retried(due, rest, old(SeenAll(DueOf(retry, now, false))), old(SeenAll(NotDueOf(retry, now, false))),
                      old(db.tries), now, old(discarded))
      ensures old(queue) != [] && db.outcomes(old(db.tries) + |due|) == M.Stored ==> Keys(db.h, old(queue)) <= Keys(db.h, db.rows)
      ensures old(queue) != [] && db.outcomes(old(db.tries) + |due|) != M.Stored ==>
                NewestIs(old(queue)) && fresh(retry[|retry| - 1])
      ensures db.tries == old(db.tries) + |due| + if old(queue) == [] then 0 else 1
      ensures forall b :: b in retry ==> b in old(retry) || fresh(b)
      ensures Held() <= old(Held())
      ensures old(Held()) <= maxPending && old(Calm(retry, 0)) ==> discarded == old(discarded)
    {
      hide Rows, Keys, Stored, Waiting, Accounted, Held, SameOrder, Retried, DueOf, NotDueOf, Calm, Distinct, NewestIs;
      ghost var wasDue, wasRest := SeenAll(DueOf(retry, now, false)), SeenAll(NotDueOf(retry, now, false));
      due, rest := RetryDue(now, false);
      FlushQueue(now, due, rest, wasDue, wasRest, old(db.tries), old(discarded));
    }

    /** The second half of the tick. */
    method FlushQueue(now: real, ghost due: seq<Batch>, ghost rest: seq<Batch>, ghost wasDue: seq<Seen>, ghost wasRest: seq<Seen>,
                      ghost start: nat, ghost gone: multiset<Entry>)
      requires Valid() && Retried(due, rest, wasDue, wasRest, start, now, gone)
      modifies this, db
      ensures Valid() && Keys(db.h, old(db.rows)) <= Keys(db.h, db.rows)
      ensures queue == [] && accepted == old(accepted) && inFlight == old(inFlight)
      ensures Retried(due, rest, wasDue, wasRest, start, now, gone)
      ensures old(queue) != [] && old(Works()) ==> Keys(db.h, old(queue)) <= Keys(db.h, db.rows)
      ensures old(queue) != [] && !old(Works()) ==> NewestIs(old(queue)) && fresh(retry[|retry| - 1])
      ensures db.tries == old(db.tries) + if old(queue) == [] then 0 else 1
      ensures forall b :: b in retry ==> b in old(retry) || fresh(b)
      ensures Held() <= old(Held()) && (old(Held()) <= maxPending ==> discarded == old(discarded))
    {
      hide Rows, Stored, Waiting, Accounted, Held, Fates, LeftAlone, Thinned, Waits, Keys, Written;
      if queue == [] { return; }
      ghost var before, seen, seenRest := Now(), SeenAll(due), SeenAll(rest);
      WriteQueue(now);
      assert SeenAll(due) == seen && SeenAll(rest) == seenRest;
      FatesOn(db.h, db.outcomes, due, wasDue, seen, start, before, Now(), now, gone);
      LeftOn(db.h, rest, wasRest, seenRest, before, Now(), now, gone);
    }

    /** Every insert from now on succeeds. */
    ghost predicate WorksOn()
      reads db
    {
      forall n :: n >= db.tries ==> db.outcomes(n) == M.Stored
    }

    /** The end of the service: a last tick, then every batch still waiting is tried once more, whatever
        its time. With a database that works again nothing is left behind. */
    method Stop(now: real) returns (left: int)
      requires Valid()
      modifies this, db, set b | b in retry
      ensures Valid() && Keys(db.h, old(db.rows)) <= Keys(db.h, db.rows)
      ensures queue == [] && left == retryRows && accepted == old(accepted) && inFlight == old(inFlight)
      ensures old(WorksOn()) ==> left == 0 && retry == []
    {
      hide Rows, Keys, Stored, Waiting, Accounted, Held, SameOrder, Retried, DueOf, NotDueOf, Calm, Distinct, NewestIs;
      ghost var due, rest;
      due, rest := Flush(now);
      ghost var waiting, seen := retry, SeenAll(DueOf(retry, now, true));
      ghost var start, gone := db.tries, discarded;
      assert forall b :: b in retry ==> b in old(retry) || fresh(b);
      ghost var restSeen := SeenAll(NotDueOf(retry, now, true));
      due, rest := RetryDue(now, true);
      if old(WorksOn()) { AllGone(waiting, due, rest, seen, restSeen, start, now, gone); }
      left := PendingRows();
    }

    /** When every insert of a forced round succeeds, no batch waits any longer. */
    lemma AllGone(waiting: seq<Batch>, due: seq<Batch>, rest: seq<Batch>, wasDue: seq<Seen>, wasRest: seq<Seen>,
                  start: nat, now: real, gone: multiset<Entry>)
      requires Waiting() && Retried(due, rest, wasDue, wasRest, start, now, gone)
      requires forall n :: n >= start ==> db.outcomes(n) == M.Stored
      requires (forall b :: b in waiting ==> b in due) && forall b :: b in retry ==> b in waiting
      ensures retry == [] && retryRows == 0
    {
      hide Rows, Keys;
      forall j | 0 <= j < |due| ensures due[j] !in retry { assert db.outcomes(start + j) == M.Stored; }
      FirstIn(retry);
      NoRows();
    }

    ghost predicate NewestIs(rows: seq<Entry>)
      reads `retry, retry
    {
      retry != [] && retry[|retry| - 1].rows == rows
    }
  }

  /** The batches to retry now, and those to keep waiting. */
  method SplitDue(bs: seq<Batch>, now: real, force: bool) returns (due: seq<Batch>, keep: seq<Batch>)
    requires Distinct(bs)
    ensures due == DueOf(bs, now, force) && keep == NotDueOf(bs, now, force)
    ensures Distinct(due) && Distinct(keep) && |due| + |keep| == |bs|
    ensures forall b :: b in bs <==> b in due || b in keep
    ensures forall b :: b in due ==> b !in keep
    ensures multiset(Rows(bs)) == multiset(Rows(due)) + multiset(Rows(keep)) && |Rows(bs)| == |Rows(due)| + |Rows(keep)|
  {
    hide Rows, DueOf, NotDueOf;
    due, keep := [], [];
    NoRows();
    DueStep(bs, 0, now, force);
    for k := 0 to |bs|
      invariant due == DueOf(bs[..k], now, force) && keep == NotDueOf(bs[..k], now, force)
      invariant Distinct(due) && Distinct(keep) && |due| + |keep| == k
      invariant forall b :: b in bs[..k] <==> b in due || b in keep
      invariant forall b :: b in due ==> b !in keep
      invariant multiset(Rows(bs[..k])) == multiset(Rows(due)) + multiset(Rows(keep))
      invariant |Rows(bs[..k])| == |Rows(due)| + |Rows(keep)|
      modifies {}
    {
      var b := bs[k];
      DueStep(bs, k, now, force);
      assert bs[..k + 1] == bs[..k] + [b] && b !in bs[..k];
      RowsSnoc(bs[..k], b);
      RowsSnoc(due, b);
      RowsSnoc(keep, b);
      if force || b.nextAt <= now { due := due + [b]; } else { keep := keep + [b]; }
    }
    assert bs[..|bs|] == bs;
  }

  lemma DueStep(bs: seq<Batch>, k: nat, now: real, force: bool)
    requires k <= |bs|
    ensures DueOf(bs[..0], now, force) == [] && NotDueOf(bs[..0], now, force) == []
    ensures k < |bs| ==>
              var take := force || bs[k].nextAt <= now;
              && DueOf(bs[..k + 1], now, force) == DueOf(bs[..k], now, force) + (if take then [bs[k]] else [])
              && NotDueOf(bs[..k + 1], now, force) == NotDueOf(bs[..k], now, force) + (if take then [] else [bs[k]])
  {
    if k < |bs| { assert bs[..k + 1][..k] == bs[..k]; }
  }

  lemma RowsSnoc(bs: seq<Batch>, b: Batch)
    ensures multiset(Rows(bs + [b])) == multiset(Rows(bs)) + multiset(b.rows)
    ensures |Rows(bs + [b])| == |Rows(bs)| + |b.rows|
  {
    RowsConcat(bs, [b]);
    RowsOne(b);
  }

  /** None of the batches from the k-th on is on its last attempt. */
  ghost predicate Calm(bs: seq<Batch>, k: nat)
    reads bs
  {
    forall j :: k <= j < |bs| ==> bs[j].attempts + 1 < M.MAX_ATTEMPTS
  }

  lemma RowsCons(bs: seq<Batch>, k: nat, f: multiset<Entry>)
    requires k < |bs|
    ensures f + multiset(Rows(bs[k..])) - multiset(bs[k].rows) == f + multiset(Rows(bs[k + 1..]))
    ensures multiset(bs[k].rows) <= f + multiset(Rows(bs[k..]))
  {
    hide Rows;
    assert bs[k..] == [bs[k]] + bs[k + 1..];
    RowsConcat([bs[k]], bs[k + 1..]);
    RowsOne(bs[k]);
  }

  lemma TakeOut(acc: multiset<Entry>, ins: multiset<Entry>, q: seq<Entry>, r: seq<Batch>,
                f: multiset<Entry>, d: multiset<Entry>, due: seq<Batch>, keep: seq<Batch>)
    requires Balanced(acc, ins, q, r, f, d)
    requires multiset(Rows(r)) == multiset(Rows(due)) + multiset(Rows(keep))
    ensures Balanced(acc, ins, q, keep, f + multiset(Rows(due)), d)
  {
    hide Rows;
  }

  lemma Overflowed(retry: seq<Batch>, b: Batch, over: seq<Batch>, retry': seq<Batch>)
    requires over + retry' == retry + [b]
    ensures Rows(retry) + b.rows == Rows(over) + Rows(retry')
    ensures forall x :: x in retry' ==> x in retry || x == b
  {
    hide Rows;
    RowsConcat(retry, [b]);
    RowsOne(b);
    RowsConcat(over, retry');
    assert forall x :: x in retry' ==> x in over + retry';
  }

  // ---------- Moving rows between the places ----------

  lemma NoRows()
    ensures Rows([]) == []
  {}

  lemma Joined(acc: multiset<Entry>, ins: multiset<Entry>, q: seq<Entry>, r: seq<Batch>,
               f: multiset<Entry>, d: multiset<Entry>, rows: seq<Entry>)
    requires Balanced(acc, ins, q, r, f, d)
    ensures Balanced(acc + multiset(rows), ins, q + rows, r, f, d)
  {
    assert multiset(q + rows) == multiset(q) + multiset(rows);
  }

  lemma TakeUp(acc: multiset<Entry>, ins: multiset<Entry>, q: seq<Entry>, r: seq<Batch>,
               f: multiset<Entry>, d: multiset<Entry>)
    requires Balanced(acc, ins, q, r, f, d)
    ensures Balanced(acc, ins, [], r, f + multiset(q), d)
  {}

  lemma MoveIn(acc: multiset<Entry>, ins: multiset<Entry>, q: seq<Entry>, r: seq<Batch>,
               f: multiset<Entry>, d: multiset<Entry>, rows: seq<Entry>)
    requires Balanced(acc, ins, q, r, f, d) && multiset(rows) <= f
    ensures Balanced(acc, ins + multiset(rows), q, r, f - multiset(rows), d)
    ensures |f - multiset(rows)| == |f| - |rows|
  {}

  lemma MoveOut(acc: multiset<Entry>, ins: multiset<Entry>, q: seq<Entry>, r: seq<Batch>,
                f: multiset<Entry>, d: multiset<Entry>, rows: seq<Entry>)
    requires Balanced(acc, ins, q, r, f, d) && multiset(rows) <= f
    ensures Balanced(acc, ins, q, r, f - multiset(rows), d + multiset(rows))
    ensures |f - multiset(rows)| == |f| - |rows|
  {}

  lemma Shift(acc: multiset<Entry>, ins: multiset<Entry>, q: multiset<Entry>, r: multiset<Entry>,
              f: multiset<Entry>, d: multiset<Entry>, b: multiset<Entry>, over: multiset<Entry>, r': multiset<Entry>)
    requires acc == ins + q + r + f + d && b <= f && r + b == over + r'
    ensures acc == ins + q + r' + (f - b) + (d + over)
  {
    assert forall e :: r[e] + b[e] == (r + b)[e] == (over + r')[e] == over[e] + r'[e];
    assert forall e :: (f - b)[e] == f[e] - b[e];
  }

  lemma MoveOver(acc: multiset<Entry>, ins: multiset<Entry>, q: seq<Entry>, r: seq<Batch>,
                 f: multiset<Entry>, d: multiset<Entry>, b: Batch, over: seq<Batch>, r': seq<Batch>)
    requires Balanced(acc, ins, q, r, f, d) && multiset(b.rows) <= f
    requires Rows(r) + b.rows == Rows(over) + Rows(r')
    ensures Balanced(acc, ins, q, r', f - multiset(b.rows), d + multiset(Rows(over)))
    ensures |f - multiset(b.rows)| == |f| - |b.rows|
  {
    hide Rows;
    assert multiset(Rows(r)) + multiset(b.rows) == multiset(Rows(r) + b.rows);
    assert multiset(Rows(over)) + multiset(Rows(r')) == multiset(Rows(over) + Rows(r'));
    Shift(acc, ins, multiset(q), multiset(Rows(r)), f, d, multiset(b.rows), multiset(Rows(over)), multiset(Rows(r')));
  }
}
