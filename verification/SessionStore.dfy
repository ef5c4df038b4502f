/** The bounded, insertion-ordered session dictionaries of ftp-daemon/soltrace_daemon.py. */
module SessionStore {
  import opened Wrappers

  const MAX_SESSIONS := 20000
  const SESSION_TTL := 300.0

  datatype Stored<V> = Stored(value: V, at: real)

  /** A dictionary with its keys in insertion order. */
  datatype Dict<V> = Dict(order: seq<string>, values: map<string, Stored<V>>) {
    /** The order lists the keys, each once. */
    ghost predicate Ordered() {
      Distinct(order) && forall p :: p in order <==> p in values
    }

    ghost predicate Valid() {
      |order| <= MAX_SESSIONS && Ordered()
    }
  }

  ghost predicate Distinct(order: seq<string>) {
    forall i, j :: 0 <= i < j < |order| ==> order[i] != order[j]
  }

  function Filter(order: seq<string>, gone: set<string>): seq<string> {
    if order == [] then []
    else if order[0] in gone then Filter(order[1..], gone)
    else [order[0]] + Filter(order[1..], gone)
  }

  function Elements(order: seq<string>): set<string> {
    set p | p in order
  }

  // ---------- The three operations ----------

  /** Assigning to a known key keeps its place. */
  function Assigned<V>(d: Dict<V>, pid: string, value: V, now: real): Dict<V> {
    Dict(if pid in d.values then d.order else d.order + [pid], d.values[pid := Stored(value, now)])
  }

  /** When the dictionary has grown too large only the newest half stays. */
  function Trimmed<V>(d: Dict<V>): Dict<V> {
    if |d.order| > MAX_SESSIONS then
      var cut := |d.order| - MAX_SESSIONS / 2;
      Dict(d.order[cut..], d.values - Elements(d.order[..cut]))
    else d
  }

  /** `_remember` */
  function Put<V>(d: Dict<V>, pid: string, value: V, now: real): Dict<V> {
    Trimmed(Assigned(d, pid, value, now))
  }

  function Removed<V>(d: Dict<V>, gone: set<string>): Dict<V> {
    Dict(Filter(d.order, gone), d.values - gone)
  }

  function Stale<V>(values: map<string, Stored<V>>, now: real): set<string> {
    set p | p in values && now - values[p].at > SESSION_TTL
  }

  function Lookup<V>(d: Dict<V>, pid: string): Option<V> {
    if pid in d.values then Some(d.values[pid].value) else None
  }

  lemma ElementsGrow(order: seq<string>, i: nat)
    requires i < |order|
    ensures Elements(order[..i + 1]) == Elements(order[..i]) + {order[i]}
  {}

  // ---------- Filtering ----------

  lemma {:induction false} FilterElements(order: seq<string>, gone: set<string>)
    ensures forall p :: p in Filter(order, gone) <==> p in order && p !in gone
    ensures |Filter(order, gone)| <= |order|
    ensures Distinct(order) ==> Distinct(Filter(order, gone))
  {
    if order != [] {
      FilterElements(order[1..], gone);
      assert order == [order[0]] + order[1..];
    }
  }

  lemma {:induction false} FilterTwice(order: seq<string>, a: set<string>, b: set<string>)
    ensures Filter(Filter(order, a), b) == Filter(order, a + b)
  {
    if order != [] {
      FilterTwice(order[1..], a, b);
      var rest := Filter(order[1..], a);
      if order[0] !in a { assert ([order[0]] + rest)[1..] == rest; }
    }
  }

  lemma {:induction false} FilterNone(order: seq<string>, gone: set<string>)
    requires forall p :: p in order ==> p !in gone
    ensures Filter(order, gone) == order
  {
    if order != [] {
      FilterNone(order[1..], gone);
    }
  }

  lemma FilterFirst(order: seq<string>)
    requires order != [] && Distinct(order)
    ensures Filter(order, {order[0]}) == order[1..]
  {
    FilterNone(order[1..], {order[0]});
  }

  /** The first n keys are gone. */
  function WithoutFirst<V>(d: Dict<V>, n: nat): Dict<V>
    requires n <= |d.order|
  {
    Dict(d.order[n..], d.values - Elements(d.order[..n]))
  }

  lemma NoneDeleted<V>(d: Dict<V>)
    ensures WithoutFirst(d, 0) == d
  {
    assert d.order[0..] == d.order && d.order[..0] == [];
  }

  lemma TrimIs<V>(d: Dict<V>)
    ensures Trimmed(d) == if |d.order| > MAX_SESSIONS then WithoutFirst(d, |d.order| - MAX_SESSIONS / 2) else d
  {}

  lemma DeletesNext<V>(d: Dict<V>, oldest: seq<string>, i: nat)
    requires d.Ordered() && i < |oldest| <= |d.order| && oldest == d.order[..|oldest|]
    ensures Removed(WithoutFirst(d, i), {oldest[i]}) == WithoutFirst(d, i + 1)
  {
    hide Filter;
    var rest := d.order[i..];
    assert rest[0] == oldest[i] && rest[1..] == d.order[i + 1..];
    assert Distinct(rest);
    FilterFirst(rest);
    ElementsGrow(d.order, i);
  }

  // ---------- Validity ----------

  lemma PartsDiffer(order: seq<string>, cut: nat)
    requires Distinct(order) && cut <= |order|
    ensures forall p :: p in order[cut..] <==> p in order && p !in order[..cut]
  {
    assert order == order[..cut] + order[cut..];
    forall p | p in order[cut..] ensures p !in order[..cut] {
      var j :| 0 <= j < |order[cut..]| && order[cut..][j] == p;
      assert order[cut + j] == p;
    }
  }

  lemma TrimValid<V>(d: Dict<V>)
    requires d.Ordered()
    ensures Trimmed(d).Valid()
    ensures d.order != [] ==> var last := d.order[|d.order| - 1]; Lookup(Trimmed(d), last) == Lookup(d, last)
  {
    if |d.order| > MAX_SESSIONS {
      var cut := |d.order| - MAX_SESSIONS / 2;
      PartsDiffer(d.order, cut);
      assert d.order[cut..][|d.order| - cut - 1] == d.order[|d.order| - 1];
      assert Distinct(d.order[cut..]);
    }
  }

  lemma AssignedOrdered<V>(d: Dict<V>, pid: string, value: V, now: real)
    requires d.Ordered()
    ensures Assigned(d, pid, value, now).Ordered()
  {}

  /** The dictionary stays within its bound, and the key just remembered is never evicted. */
  lemma PutValid<V>(d: Dict<V>, pid: string, value: V, now: real)
    requires d.Valid()
    ensures Put(d, pid, value, now).Valid()
    ensures Lookup(Put(d, pid, value, now), pid) == Some(value)
  {
    AssignedOrdered(d, pid, value, now);
    TrimValid(Assigned(d, pid, value, now));
  }

  /** Up to 20000 keys nothing is evicted; beyond that exactly the 10000 that were inserted last stay, with
      their values. */
  lemma PutExactly<V>(d: Dict<V>, pid: string, value: V, now: real)
    requires d.Valid()
    ensures var keys := if pid in d.order then d.order else d.order + [pid];
            var d' := Put(d, pid, value, now);
            && d'.order == (if |keys| <= 20000 then keys else keys[|keys| - 10000..])
            && forall p :: p in d'.order ==> p in d'.values && d'.values[p] == if p == pid then Stored(value, now) else d.values[p]
  {
    hide Distinct, Trimmed;
    AssignedOrdered(d, pid, value, now);
    TrimExactly(Assigned(d, pid, value, now));
  }

  lemma TrimExactly<V>(d: Dict<V>)
    requires d.Ordered()
    ensures Trimmed(d).order == if |d.order| <= 20000 then d.order else d.order[|d.order| - 10000..]
    ensures forall p :: p in Trimmed(d).order ==> p in Trimmed(d).values && p in d.values && Trimmed(d).values[p] == d.values[p]
  {
    hide Distinct;
    if |d.order| > MAX_SESSIONS {
      OrderDistinct(d);
      PartsDiffer(d.order, |d.order| - MAX_SESSIONS / 2);
    }
  }

  lemma OrderDistinct<V>(d: Dict<V>)
    requires d.Ordered()
    ensures Distinct(d.order)
  {}

  lemma RemovedValid<V>(d: Dict<V>, gone: set<string>)
    requires d.Valid()
    ensures Removed(d, gone).Valid()
  {
    FilterElements(d.order, gone);
  }

  // ---------- The dictionary in place ----------

  class Store<V> {
    var order: seq<string>
    var values: map<string, Stored<V>>

    ghost function Contents(): Dict<V>
      reads this
    {
      Dict(order, values)
    }

    constructor ()
      ensures Contents() == Dict([], map[]) && Contents().Valid()
    {
      order, values := [], map[];
    }

    method Delete(pid: string)
      modifies this
      ensures Contents() == Removed(old(Contents()), {pid})
    {
      order, values := Filter(order, {pid}), values - {pid};
    }

    method Remember(pid: string, value: V, now: real)
      requires Contents().Valid()
      modifies this
      ensures Contents().Valid() && Contents() == Put(old(Contents()), pid, value, now)
    {
      hide Trimmed, Distinct;
      PutValid(Contents(), pid, value, now);
      ghost var grown := Assigned(Contents(), pid, value, now);
      assert grown.Ordered() by { AssignedOrdered(Contents(), pid, value, now); }
      if pid !in values { order := order + [pid]; }
      values := values[pid := Stored(value, now)];
      Trim();
    }

    method Trim()
      requires Contents().Ordered()
      modifies this
      ensures Contents() == Trimmed(old(Contents()))
    {
      hide Removed, WithoutFirst, Trimmed, Distinct;
      ghost var all := Contents();
      TrimIs(all);
      if |order| <= MAX_SESSIONS { return; }
      var oldest := order[..|order| - MAX_SESSIONS / 2];
      NoneDeleted(all);
      var i := 0;
      while i < |oldest|
        invariant 0 <= i <= |oldest| && Contents() == WithoutFirst(all, i)
      {
        DeletesNext(all, oldest, i);
        Delete(oldest[i]);
        i := i + 1;
      }
    }

    method Pop(pid: string) returns (r: Option<V>)
      requires Contents().Valid()
      modifies this
      ensures Contents().Valid() && Contents() == Removed(old(Contents()), {pid})
      ensures r == Lookup(old(Contents()), pid)
    {
      RemovedValid(Contents(), {pid});
      if pid !in values {
        FilterNone(order, {pid});
        assert values - {pid} == values;
        return None;
      }
      r := Some(values[pid].value);
      Delete(pid);
    }

    method FlushStale(now: real)
      requires Contents().Valid()
      modifies this
      ensures Contents().Valid() && Contents() == Removed(old(Contents()), Stale(old(values), now))
    {
      hide Filter, Distinct;
      RemovedValid(Contents(), Stale(values, now));
      var stale := StaleKeys(now);
      ghost var all, before := order, values;
      FilterNone(order, Elements([]));
      var i := 0;
      while i < |stale|
        invariant 0 <= i <= |stale|
        invariant order == Filter(all, Elements(stale[..i])) && values == before - Elements(stale[..i])
      {
        FilterTwice(all, Elements(stale[..i]), {stale[i]});
        ElementsGrow(stale, i);
        Delete(stale[i]);
        i := i + 1;
      }
      assert stale[..i] == stale;
    }

    method StaleKeys(now: real) returns (stale: seq<string>)
      requires Contents().Valid()
      ensures Elements(stale) == Stale(values, now)
    {
      stale := [];
      for i := 0 to |order|
        invariant forall p :: p in stale <==> p in order[..i] && now - values[p].at > SESSION_TTL
      {
        assert order[..i + 1] == order[..i] + [order[i]];
        if now - values[order[i]].at > SESSION_TTL { stale := stale + [order[i]]; }
      }
      assert order[..|order|] == order;
    }
  }

  // ---------- What survives ----------

  /** How many keys were inserted after `pid`. */
  function Newer(order: seq<string>, pid: string): nat
    requires pid in order
  {
    if order[0] == pid then |order| - 1 else Newer(order[1..], pid)
  }

  lemma {:induction false} NewerAppend(order: seq<string>, pid: string, q: string)
    requires pid in order
    ensures Newer(order + [q], pid) == Newer(order, pid) + 1
  {
    if order[0] != pid {
      NewerAppend(order[1..], pid, q);
      assert (order + [q])[1..] == order[1..] + [q];
    }
  }

  lemma {:induction false} NewerFilter(order: seq<string>, pid: string, gone: set<string>)
    requires pid in order && pid !in gone
    ensures pid in Filter(order, gone) && Newer(Filter(order, gone), pid) <= Newer(order, pid)
  {
    if order[0] == pid {
      FilterElements(order[1..], gone);
    } else {
      NewerFilter(order[1..], pid, gone);
      var rest := Filter(order[1..], gone);
      if order[0] !in gone { assert ([order[0]] + rest)[1..] == rest; }
    }
  }

  lemma {:induction false} NewerSuffix(order: seq<string>, pid: string, cut: nat)
    requires pid in order && cut <= |order| && Newer(order, pid) < |order| - cut
    ensures pid in order[cut..] && Newer(order[cut..], pid) <= Newer(order, pid)
  {
    if cut == 0 {
      assert order[0..] == order;
    } else if order[0] != pid {
      NewerSuffix(order[1..], pid, cut - 1);
      assert order[1..][cut - 1..] == order[cut..];
    }
  }

  /** Held: the value and the time it was stored with, and at most `n` newer keys. */
  ghost predicate Held<V>(d: Dict<V>, pid: string, stored: Stored<V>, n: nat) {
    pid in d.order && pid in d.values && d.values[pid] == stored && Newer(d.order, pid) <= n
  }

  /** A key just remembered for the first time has no newer ones. */
  lemma PutHolds<V>(d: Dict<V>, pid: string, value: V, now: real)
    requires d.Valid() && pid !in d.values
    ensures Held(Put(d, pid, value, now), pid, Stored(value, now), 0)
  {
    var a := Assigned(d, pid, value, now);
    NewerLast(d.order, pid);
    AssignedOrdered(d, pid, value, now);
    TrimKeeps(a, pid, Stored(value, now), 0);
  }

  /** Trimming evicts only what has as many newer keys as half the capacity. */
  lemma TrimKeeps<V>(d: Dict<V>, pid: string, stored: Stored<V>, n: nat)
    requires d.Ordered() && Held(d, pid, stored, n) && n < MAX_SESSIONS / 2
    ensures Held(Trimmed(d), pid, stored, n)
  {
    hide Newer, Distinct, Trimmed;
    TrimIs(d);
    if |d.order| > MAX_SESSIONS {
      var cut := |d.order| - MAX_SESSIONS / 2;
      NewerSuffix(d.order, pid, cut);
      OrderDistinct(d);
      PartsDiffer(d.order, cut);
    }
  }

  lemma {:induction false} NewerLast(order: seq<string>, pid: string)
    requires pid !in order
    ensures Newer(order + [pid], pid) == 0
  {
    if order != [] {
      NewerLast(order[1..], pid);
      assert (order + [pid])[1..] == order[1..] + [pid];
    }
  }

  /** Remembering another key makes one newer key at most. */
  lemma PutKeeps<V>(d: Dict<V>, pid: string, stored: Stored<V>, n: nat, q: string, value: V, now: real)
    requires d.Valid() && Held(d, pid, stored, n) && q != pid && n + 1 < MAX_SESSIONS / 2
    ensures Held(Put(d, q, value, now), pid, stored, n + 1)
  {
    var a := Assigned(d, q, value, now);
    if q !in d.values { NewerAppend(d.order, pid, q); }
    AssignedOrdered(d, q, value, now);
    TrimKeeps(a, pid, stored, n + 1);
  }

  lemma RemovedKeeps<V>(d: Dict<V>, pid: string, stored: Stored<V>, n: nat, gone: set<string>)
    requires Held(d, pid, stored, n) && pid !in gone
    ensures Held(Removed(d, gone), pid, stored, n)
  {
    NewerFilter(d.order, pid, gone);
  }
}
