/** What a bounded session dictionary holds after any run of operations, against the history
    without bound. */
module SessionHistory {
  import opened Wrappers
  import opened SessionStore

  datatype Op<V> =
    | Remember(pid: string, value: V, now: real)
    | Forget(pid: string)
    | Flush(now: real)

  function Apply<V>(d: Dict<V>, op: Op<V>): Dict<V> {
    match op
    case Remember(pid, value, now) => Put(d, pid, value, now)
    case Forget(pid) => Removed(d, {pid})
    case Flush(now) => Removed(d, Stale(d.values, now))
  }

  function After<V>(ops: seq<Op<V>>): Dict<V> {
    if ops == [] then Dict([], map[]) else Apply(After(ops[..|ops| - 1]), ops[|ops| - 1])
  }

  /** The value last remembered for `pid`, unless it was forgotten since. */
  function Latest<V>(ops: seq<Op<V>>, pid: string): Option<V> {
    if ops == [] then None
    else
      var last := ops[|ops| - 1];
      if last.Remember? && last.pid == pid then Some(last.value)
      else if last.Forget? && last.pid == pid then None
      else Latest(ops[..|ops| - 1], pid)
  }

  /** In every state the dictionary is within its bound and every value in it is the latest. */
  lemma {:induction false} HoldsLatest<V>(ops: seq<Op<V>>)
    ensures After(ops).Valid()
    ensures forall pid :: pid in After(ops).values ==> Latest(ops, pid) == Some(After(ops).values[pid].value)
  {
    hide Trimmed, Filter, Stale;
    if ops != [] {
      var before := ops[..|ops| - 1];
      HoldsLatest(before);
      match ops[|ops| - 1] {
        case Remember(pid, value, now) =>
          PutValid(After(before), pid, value, now);
          PutValues(After(before), pid, value, now);
        case Forget(pid) => RemovedValid(After(before), {pid});
        case Flush(now) => RemovedValid(After(before), Stale(After(before).values, now));
      }
    }
  }

  lemma PutValues<V>(d: Dict<V>, pid: string, value: V, now: real)
    ensures Put(d, pid, value, now).values.Keys <= d.values.Keys + {pid}
    ensures forall q :: q in Put(d, pid, value, now).values ==>
              Put(d, pid, value, now).values[q] == d.values[pid := Stored(value, now)][q]
  {}

  /** The number of values remembered. */
  function Remembers<V>(ops: seq<Op<V>>): nat {
    if ops == [] then 0 else Remembers(ops[..|ops| - 1]) + if ops[|ops| - 1].Remember? then 1 else 0
  }

  /** The operations leave a value of `pid` stored at time `at` alone. */
  ghost predicate Spares<V>(op: Op<V>, pid: string, at: real) {
    match op
    case Remember(q, _, _) => q != pid
    case Forget(q) => q != pid
    case Flush(now) => now - at <= SESSION_TTL
  }

  ghost predicate AllSpare<V>(ops: seq<Op<V>>, pid: string, at: real) {
    forall i :: 0 <= i < |ops| ==> Spares(ops[i], pid, at)
  }

  lemma SparedHolds<V>(d: Dict<V>, op: Op<V>, pid: string, stored: Stored<V>, n: nat)
    requires d.Valid() && Held(d, pid, stored, n) && Spares(op, pid, stored.at)
    requires op.Remember? ==> n + 1 < MAX_SESSIONS / 2
    ensures Held(Apply(d, op), pid, stored, n + if op.Remember? then 1 else 0)
  {
    hide Held, Filter, Trimmed;
    match op
    case Remember(q, value, now) => PutKeeps(d, pid, stored, n, q, value, now);
    case Forget(q) => RemovedKeeps(d, pid, stored, n, {q});
    case Flush(now) =>
      assert pid !in Stale(d.values, now) by { HeldValue(d, pid, stored, n); }
      RemovedKeeps(d, pid, stored, n, Stale(d.values, now));
  }

  lemma HeldValue<V>(d: Dict<V>, pid: string, stored: Stored<V>, n: nat)
    requires Held(d, pid, stored, n)
    ensures pid in d.values && d.values[pid] == stored
  {}

  lemma {:induction false} HeldOn<V>(before: seq<Op<V>>, after: seq<Op<V>>, pid: string, stored: Stored<V>, n: nat)
    requires Held(After(before), pid, stored, n) && AllSpare(after, pid, stored.at)
    requires n + Remembers(after) < MAX_SESSIONS / 2
    ensures Held(After(before + after), pid, stored, n + Remembers(after))
    decreases |after|
  {
    hide Held, Apply, Spares;
    if after == [] {
      assert before + after == before;
    } else {
      var k := |after| - 1;
      HeldOn(before, after[..k], pid, stored, n);
      assert (before + after)[..|before + after| - 1] == before + after[..k];
      HoldsLatest(before + after[..k]);
      SparedHolds(After(before + after[..k]), after[k], pid, stored, n + Remembers(after[..k]));
    }
  }

  /** A key that is there has at most n newer ones. */
  ghost predicate Young<V>(d: Dict<V>, pid: string, n: nat) {
    pid in d.values ==> Held(d, pid, d.values[pid], n)
  }

  lemma YoungOn<V>(d: Dict<V>, op: Op<V>, pid: string, n: nat)
    requires d.Valid() && Young(d, pid, n) && n + (if op.Remember? then 1 else 0) < MAX_SESSIONS / 2
    ensures Young(Apply(d, op), pid, n + if op.Remember? then 1 else 0)
  {
    hide Held, Filter, Trimmed, Removed, Stale;
    match op
    case Remember(q, value, now) =>
      if q == pid {
        PutAgain(d, pid, value, now, n);
        HeldValue(Apply(d, op), pid, Stored(value, now), n);
        HeldWeaker(Apply(d, op), pid, Stored(value, now), n);
      } else if pid in d.values {
        PutKeeps(d, pid, d.values[pid], n, q, value, now);
        HeldValue(Apply(d, op), pid, d.values[pid], n + 1);
      } else {
        PutValues(d, q, value, now);
      }
    case Forget(q) => YoungRemoved(d, pid, n, {q});
    case Flush(now) => YoungRemoved(d, pid, n, Stale(d.values, now));
  }

  lemma HeldWeaker<V>(d: Dict<V>, pid: string, stored: Stored<V>, n: nat)
    requires Held(d, pid, stored, n)
    ensures Held(d, pid, stored, n + 1)
  {}

  lemma YoungRemoved<V>(d: Dict<V>, pid: string, n: nat, gone: set<string>)
    requires Young(d, pid, n)
    ensures Young(Removed(d, gone), pid, n)
  {
    hide Held, Filter;
    if pid in d.values && pid !in gone {
      RemovedKeeps(d, pid, d.values[pid], n, gone);
    }
  }

  /** Remembered anew a key keeps its place, or becomes the newest. */
  lemma PutAgain<V>(d: Dict<V>, pid: string, value: V, now: real, n: nat)
    requires d.Valid() && Young(d, pid, n) && n < MAX_SESSIONS / 2
    ensures Held(Put(d, pid, value, now), pid, Stored(value, now), n)
  {
    hide Newer;
    if pid !in d.values { PutHolds(d, pid, value, now); }
  }

  lemma {:induction false} YoungAfter<V>(before: seq<Op<V>>, since: seq<Op<V>>, pid: string)
    requires Latest(before, pid) == None && Remembers(since) < MAX_SESSIONS / 2
    ensures Young(After(before + since), pid, Remembers(since))
    decreases |since|
  {
    hide Young, Apply, Latest;
    if since == [] {
      assert before + since == before;
      HoldsLatest(before);
      NotThere(before, pid);
    } else {
      var k := |since| - 1;
      YoungAfter(before, since[..k], pid);
      assert (before + since)[..|before + since| - 1] == before + since[..k];
      HoldsLatest(before + since[..k]);
      YoungOn(After(before + since[..k]), since[k], pid, Remembers(since[..k]));
    }
  }

  lemma NotThere<V>(ops: seq<Op<V>>, pid: string)
    requires Latest(ops, pid) == None
    ensures Young(After(ops), pid, 0)
  {
    hide Latest, After;
    HoldsLatest(ops);
  }

  /** The latest value for `pid` is still found, if it was not forgotten or replaced, no flush came after
      its time to live, and fewer than half the capacity of values were remembered since some moment
      before it at which `pid` had none. */
  lemma Survives<V>(before: seq<Op<V>>, since: seq<Op<V>>, pid: string, value: V, at: real, after: seq<Op<V>>)
    requires Latest(before, pid) == None
    requires AllSpare(after, pid, at) && Remembers(since) + Remembers(after) < MAX_SESSIONS / 2
    ensures Lookup(After(before + since + [Remember(pid, value, at)] + after), pid) == Some(value)
  {
    hide Latest, AllSpare, Remembers, Put, Young;
    YoungAfter(before, since, pid);
    HoldsLatest(before + since);
    var start := before + since + [Remember(pid, value, at)];
    assert start[..|start| - 1] == before + since;
    PutAgain(After(before + since), pid, value, at, Remembers(since));
    HeldOn(start, after, pid, Stored(value, at), Remembers(since));
    HeldValue(After(start + after), pid, Stored(value, at), Remembers(since) + Remembers(after));
  }

  /** After a flush no value older than its time to live is found. */
  lemma FlushedFresh<V>(d: Dict<V>, now: real, pid: string)
    ensures pid in Apply(d, Flush(now)).values <==> pid in d.values && now - d.values[pid].at <= 300.0
    ensures pid in Apply(d, Flush(now)).values ==> Apply(d, Flush(now)).values[pid] == d.values[pid]
  {}
}
