/** `ingest_logs` of was/app/routers/ingest.py. */
module Ingest {
  import opened Wrappers
  import opened LogEntries
  import opened WriteBuffer

  datatype DeviceStatus = Active | Disabled

  /** 401, 403, 503, or the counts of accepted and rejected entries. */
  datatype Response = Unauthorized | Forbidden | Unavailable | Done(accepted: nat, rejected: nat)

  const MAX_BATCH := 500

  function Storables(logs: seq<Entry>): (r: seq<Entry>)
    ensures |r| <= |logs|
  {
    if logs == [] then []
    else if Storable(logs[0]) then [logs[0]] + Storables(logs[1..]) else Storables(logs[1..])
  }

  lemma StorablesStep(logs: seq<Entry>)
    ensures Storables([]) == []
    ensures logs != [] ==> Storables(logs) == (if Storable(logs[0]) then [logs[0]] else []) + Storables(logs[1..])
  {
    if logs != [] && !Storable(logs[0]) { assert [] + Storables(logs[1..]) == Storables(logs[1..]); }
  }

  lemma {:induction false} StorablesConcat(a: seq<Entry>, b: seq<Entry>)
    ensures Storables(a + b) == Storables(a) + Storables(b)
  {
    hide Storable, Storables;
    StorablesStep(a);
    if a == [] {
      assert a + b == b;
    } else {
      StorablesConcat(a[1..], b);
      StorablesStep(a + b);
      assert (a + b)[1..] == a[1..] + b;
    }
  }

  /** The validating loop: the storable entries, and how many are not. */
  method Sift(logs: seq<Entry>) returns (entries: seq<Entry>, accepted: nat, rejected: nat)
    ensures entries == Storables(logs) && accepted == |entries| && accepted + rejected == |logs|
  {
    hide Storable, Storables;
    entries, accepted, rejected := [], 0, 0;
    StorablesStep([]);
    for k := 0 to |logs|
      invariant entries == Storables(logs[..k]) && accepted == |entries| && accepted + rejected == k
    {
      assert logs[..k + 1] == logs[..k] + [logs[k]];
      StorablesConcat(logs[..k], [logs[k]]);
      StorablesStep([logs[k]]);
      assert [logs[k]][1..] == [];
      if Storable(logs[k]) { entries, accepted := entries + [logs[k]], accepted + 1; } else { rejected := rejected + 1; }
    }
    assert logs[..|logs|] == logs;
  }

  /** Nothing is taken in when the buffer is saturated; otherwise exactly the storable entries
      are, and they are all accounted for before the reply says so. When each request carries at
      most 500 entries and handlers do not interleave, the rows on their way never exceed
      maxPending + 499. */
  method IngestLogs(device: Option<DeviceStatus>, logs: seq<Entry>, buf: WriteBuffer, now: real)
    returns (r: Response)
    requires buf.Valid()
    modifies buf, buf.db
    ensures buf.Valid() && buf.inFlight == old(buf.inFlight)
    ensures device == None ==> r == Unauthorized
    ensures device == Some(Disabled) ==> r == Forbidden
    ensures device == Some(Active) ==>
              r == if |old(buf.queue)| + old(buf.retryRows) >= buf.maxPending then Unavailable
                   else Done(|Storables(logs)|, |logs| - |Storables(logs)|)
    ensures buf.accepted == if r.Done? then old(buf.accepted) + multiset(Storables(logs)) else old(buf.accepted)
    ensures Storables(logs) == [] ==> buf.queue == old(buf.queue) && buf.retry == old(buf.retry) && buf.db.tries == old(buf.db.tries)
    ensures !r.Done? ==> buf.queue == old(buf.queue) && buf.retry == old(buf.retry) && buf.db.rows == old(buf.db.rows)
    ensures forall b :: b in buf.retry ==> b in old(buf.retry) || fresh(b)
    ensures |logs| <= MAX_BATCH && old(buf.inFlight) == multiset{} && old(buf.Held()) <= buf.maxPending + 499
            ==> buf.Held() <= buf.maxPending + 499
  {
    hide Rows, Keys, OneRowPerKey, Balanced, Distinct, Storable, Storables;
    match device {
      case None => return Unauthorized;
      case Some(Disabled) => return Forbidden;
      case Some(Active) =>
    }
    var full := buf.Saturated();
    if full { return Unavailable; }
    var entries, accepted, rejected := Sift(logs);
    if entries != [] { buf.Add(entries, now); }
    else { assert old(buf.accepted) + multiset(entries) == buf.accepted; }
    return Done(accepted, rejected);
  }

  /** A request, or a tick of the flush loop (was/app/write_buffer.py). */
  datatype Call = Ingestion(device: Option<DeviceStatus>, logs: seq<Entry>, now: real) | FlushTick(now: real)

  /** Any run of requests and flush ticks that do not interleave, from any state within the bound,
      such as the empty buffer: the pending rows never exceed maxPending + 499, since a run may end
      after any call. */
  method Serve(buf: WriteBuffer, calls: seq<Call>)
    requires buf.Valid() && buf.inFlight == multiset{} && buf.Held() <= buf.maxPending + 499
    requires forall i :: 0 <= i < |calls| && calls[i].Ingestion? ==> |calls[i].logs| <= MAX_BATCH
    modifies buf, buf.db, set b | b in buf.retry
    ensures buf.Valid() && buf.inFlight == multiset{}
    ensures |buf.queue| + buf.retryRows <= buf.maxPending + 499
  {
    hide Storable, Storables, Rows, OneRowPerKey;
    for i := 0 to |calls|
      invariant buf.Valid() && buf.inFlight == multiset{} && buf.Held() <= buf.maxPending + 499
      invariant forall b :: b in buf.retry ==> b in old(buf.retry) || fresh(b)
    {
      match calls[i] {
        case Ingestion(device, logs, now) => var _ := IngestLogs(device, logs, buf, now);
        case FlushTick(now) =>
          assert forall b :: b in buf.retry ==> b in old(buf.retry) || fresh(b);
          ghost var due, rest;
          due, rest := buf.Flush(now);
      }
    }
  }
}
