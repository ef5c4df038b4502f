/** `WasClient._post` and `send_logs` of ftp-daemon/soltrace_daemon.py: how one batch of entries
    becomes requests. */
module WasClient {
  import opened Wrappers

  const MAX_BATCH := 500

  /** What comes back for one attempt: 200, anything that fails, 403, or 401 and 404. */
  datatype Reply = Accepted | Failed | Disabled | Removed

  /** The replies still to come, attempt by attempt. */
  type Replies = nat -> Reply

  /** The attempts start .. end - 1 are those of one request: the first reply that is no failure
      settles it, and only as many failures as attempts are allowed, one at least, end it too. */
  ghost predicate Attempts(replies: Replies, start: nat, end: nat, retryMax: int) {
    var allowed := if retryMax > 1 then retryMax else 1;
    && start < end <= start + allowed
    && (forall k :: start <= k < end - 1 ==> replies(k) == Failed)
    && (replies(end - 1) == Failed ==> end == start + allowed)
  }

  /** Where the attempts of a request end is decided by the replies. */
  lemma AttemptsUnique(replies: Replies, start: nat, end: nat, end': nat, retryMax: int)
    requires Attempts(replies, start, end, retryMax) && Attempts(replies, start, end', retryMax)
    ensures end == end'
  {}

  /** Repeats a request until a reply settles it, `retryMax` times at most and once at least. */
  method Post(replies: Replies, start: nat, retryMax: int) returns (answer: Reply, next: nat)
    ensures Attempts(replies, start, next, retryMax) && answer == replies(next - 1)
  {
    var max := if retryMax > 1 then retryMax else 1;
    next := start;
    for attempt := 1 to max + 1
      invariant next == start + attempt - 1
      invariant forall k :: start <= k < next ==> replies(k) == Failed
    {
      answer := replies(next);
      next := next + 1;
      if answer != Failed { return; }
    }
    answer := Failed;
  }

  /** `min(batch_size or MAX_BATCH, MAX_BATCH)` */
  function Size(batchSize: Option<int>): (size: int)
    ensures batchSize == None || batchSize == Some(0) ==> size == MAX_BATCH
    ensures batchSize.Some? && batchSize.value >= MAX_BATCH ==> size == MAX_BATCH
    ensures batchSize.Some? && batchSize.value != 0 && batchSize.value < MAX_BATCH ==> size == batchSize.value
  {
    var size := if batchSize.Some? && batchSize.value != 0 then batchSize.value else MAX_BATCH;
    if size < MAX_BATCH then size else MAX_BATCH
  }

  /** The i-th request takes the attempts ends[i] .. ends[i + 1] - 1, from the first reply on and
      without a gap. */
  ghost predicate Rounds(replies: Replies, ends: seq<nat>, n: nat, retryMax: int) {
    && |ends| == n + 1 && ends[0] == 0
    && forall i :: 0 <= i < n ==> Attempts(replies, ends[i], ends[i + 1], retryMax)
  }

  /** The reply that settled the i-th request. */
  ghost function Verdict(replies: Replies, ends: seq<nat>, i: nat): Reply
    requires i + 1 < |ends|
  {
    if ends[i + 1] > 0 then replies(ends[i + 1] - 1) else Failed
  }

  /** Sends the entries in order, each once, in requests of the size asked for, as far as the server
      takes them; stops at the first request that fails for good, and answers as that one was
      answered. Accepted means that all were sent, except that a negative batch size sends nothing
      and still reports success. */
  method SendLogs<T>(entries: seq<T>, batchSize: Option<int>, retryMax: int, replies: Replies)
    returns (answer: Reply, posted: seq<seq<T>>, ghost ends: seq<nat>)
    ensures Concat(posted) <= entries
    ensures forall i :: 0 <= i < |posted| - 1 ==> |posted[i]| == Size(batchSize)
    ensures posted != [] ==> 1 <= |posted[|posted| - 1]| <= Size(batchSize) <= MAX_BATCH
    ensures posted != [] ==> |posted[|posted| - 1]| == Size(batchSize) || Concat(posted) == entries
    ensures Rounds(replies, ends, |posted|, retryMax)
    ensures forall i :: 0 <= i < |posted| - 1 ==> Verdict(replies, ends, i) == Accepted
    ensures answer == if posted == [] then Accepted else Verdict(replies, ends, |posted| - 1)
    ensures answer == Accepted <==> forall i :: 0 <= i < |posted| ==> Verdict(replies, ends, i) == Accepted
    ensures answer == Accepted ==> (Concat(posted) == entries <==> Size(batchSize) > 0 || entries == [])
    ensures posted == [] <==> Size(batchSize) < 0 || entries == []
  {
    hide Attempts, Rounds, Verdict, Size;
    var size := Size(batchSize);
    posted, ends := [], [0];
    RoundsNone(replies, retryMax);
    SizeFits(batchSize);
    answer := Accepted;
    if size < 0 { return; }
    var i, next := 0, 0;
    while i < |entries|
      invariant 0 <= i <= |entries| && Concat(posted) == entries[..i]
      invariant forall k :: 0 <= k < |posted| - 1 ==> |posted[k]| == size
      invariant posted != [] ==> 1 <= |posted[|posted| - 1]| <= size && (|posted[|posted| - 1]| == size || i == |entries|)
      invariant |ends| == |posted| + 1 && Rounds(replies, ends, |posted|, retryMax) && ends[|posted|] == next
      invariant forall k :: 0 <= k < |posted| ==> Verdict(replies, ends, k) == Accepted
      invariant answer == Accepted && (posted == [] <==> i == 0)
    {
      var end := if i + size < |entries| then i + size else |entries|;
      ConcatNext(posted, entries, i, end);
      ghost var n, before := |posted|, ends;
      posted := posted + [entries[i..end]];
      answer, next := Post(replies, next, retryMax);
      ends := ends + [next];
      RoundsMore(replies, before, n, next, retryMax);
      if answer != Accepted { return; }
      i := end;
    }
    assert entries[..|entries|] == entries;
  }

  lemma RoundsMore(replies: Replies, ends: seq<nat>, n: nat, next: nat, retryMax: int)
    requires Rounds(replies, ends, n, retryMax) && Attempts(replies, ends[n], next, retryMax)
    ensures Rounds(replies, ends + [next], n + 1, retryMax)
    ensures |ends| == n + 1 && next > 0 && Verdict(replies, ends + [next], n) == replies(next - 1)
    ensures forall k :: 0 <= k < n ==> Verdict(replies, ends + [next], k) == Verdict(replies, ends, k)
  {}

  lemma RoundsNone(replies: Replies, retryMax: int)
    ensures Rounds(replies, [0], 0, retryMax)
  {}

  lemma SizeFits(batchSize: Option<int>)
    ensures Size(batchSize) <= MAX_BATCH && Size(batchSize) != 0
  {}

  lemma ConcatNext<T>(posted: seq<seq<T>>, entries: seq<T>, i: nat, end: nat)
    requires i <= end <= |entries| && Concat(posted) == entries[..i]
    ensures Concat(posted + [entries[i..end]]) == entries[..end]
  {
    assert (posted + [entries[i..end]])[..|posted|] == posted;
    assert entries[..i] + entries[i..end] == entries[..end];
  }
}
