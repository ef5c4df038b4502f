/** Pairing USER with PASS and RNFR with RNTO in `parse_extended_log`
    (ftp-daemon/soltrace_daemon.py), for lines already split into their fields. */
module ExtendedLog {
  import opened Wrappers
  import opened SessionStore
  import opened SessionHistory

  datatype Command = User | Pass | Quit | Rnfr | Rnto | Other

  /** `argument` is the client's command argument, trimmed; `path` the resolved path, if any. */
  datatype Line = Line(
    pid: string, command: Command, status: int, username: Option<string>,
    argument: string, path: Option<string>)

  datatype Action = Login | Logout | Rename

  datatype Parsed = Parsed(pid: string, action: Action, success: bool, username: Option<string>, filePath: Option<string>)

  datatype Sessions = Sessions(users: Dict<string>, renames: Dict<Option<string>>)

  /** Python truth of an optional string. */
  predicate Truthy(s: Option<string>) {
    s.Some? && s.value != ""
  }

  /** An optional string inside an f-string. */
  function Text(s: Option<string>): string {
    if s.Some? then s.value else "None"
  }

  /** The entry a line yields, given what is known of its session. */
  function Output(line: Line, user: Option<string>, source: Option<Option<string>>): Option<Parsed> {
    match line.command
    case Pass =>
      if line.status == 230 then Some(Parsed(line.pid, Login, true, line.username, None))
      else
        var name := if Truthy(line.username) then line.username else user;
        if Truthy(name) then Some(Parsed(line.pid, Login, false, name, None)) else None
    case Quit => Some(Parsed(line.pid, Logout, true, line.username, None))
    case Rnto =>
      if line.status != 250 then None
      else
        var from := if source.Some? then source.value else None;
        var file := if Truthy(from) then Some(from.value + " -> " + Text(line.path)) else line.path;
        Some(Parsed(line.pid, Rename, true, line.username, file))
    case _ => None
  }

  /** What a line does to the two dictionaries. */
  function UserOp(line: Line, now: real): seq<Op<string>> {
    match line.command
    case User => if line.argument != "" then [Remember(line.pid, line.argument, now)] else []
    case Pass => [Forget(line.pid)]
    case Quit => [Forget(line.pid)]
    case _ => []
  }

  function RenameOp(line: Line, now: real): seq<Op<Option<string>>> {
    match line.command
    case Rnfr => [Remember(line.pid, line.path, now)]
    case Rnto => if line.status == 250 then [Forget(line.pid)] else []
    case _ => []
  }

  function Applied<V>(d: Dict<V>, ops: seq<Op<V>>): Dict<V> {
    if ops == [] then d else Apply(Applied(d, ops[..|ops| - 1]), ops[|ops| - 1])
  }

  class Parser {
    const users: Store<string>
    const renames: Store<Option<string>>

    ghost function Contents(): Sessions
      reads users, renames
    {
      Sessions(users.Contents(), renames.Contents())
    }

    ghost predicate Valid()
      reads users, renames
    {
      users.Contents().Valid() && renames.Contents().Valid()
    }

    constructor ()
      ensures Valid() && Contents() == Sessions(Dict([], map[]), Dict([], map[]))
      ensures fresh(users) && fresh(renames)
    {
      users := new Store();
      renames := new Store();
    }

    method Parse(line: Line, now: real) returns (r: Option<Parsed>)
      requires Valid()
      modifies users, renames
      ensures Valid()
      ensures users.Contents() == Applied(old(users.Contents()), UserOp(line, now))
      ensures renames.Contents() == Applied(old(renames.Contents()), RenameOp(line, now))
      ensures r == Output(line, Lookup(old(users.Contents()), line.pid), Lookup(old(renames.Contents()), line.pid))
    {
      match line.command {
        case User =>
          if line.argument != "" { users.Remember(line.pid, line.argument, now); }
          return None;
        case Pass =>
          var name := users.Pop(line.pid);
          if line.status == 230 { return Some(Parsed(line.pid, Login, true, line.username, None)); }
          if Truthy(line.username) { name := line.username; }
          if Truthy(name) { return Some(Parsed(line.pid, Login, false, name, None)); }
          return None;
        case Quit =>
          var _ := users.Pop(line.pid);
          return Some(Parsed(line.pid, Logout, true, line.username, None));
        case Rnfr =>
          renames.Remember(line.pid, line.path, now);
          return None;
        case Rnto =>
          if line.status != 250 { return None; }
          var source := renames.Pop(line.pid);
          var file := line.path;
          if source.Some? && Truthy(source.value) { file := Some(source.value.value + " -> " + Text(line.path)); }
          return Some(Parsed(line.pid, Rename, true, line.username, file));
        case Other => return None;
      }
    }

    method FlushStaleSessions(now: real)
      requires Valid()
      modifies users, renames
      ensures Valid()
      ensures users.Contents() == Apply(old(users.Contents()), Flush(now))
      ensures renames.Contents() == Apply(old(renames.Contents()), Flush(now))
    {
      renames.FlushStale(now);
      users.FlushStale(now);
    }
  }

  // ---------- Runs ----------

  /** A line read, or a flush of stale sessions, with the clock at that moment. */
  datatype Event = Read(line: Line, now: real) | Expire(now: real)

  /** The operations that the events make on one of the dictionaries, `f` giving those of an event. */
  function Ops<V>(events: seq<Event>, f: Event -> seq<Op<V>>): seq<Op<V>> {
    if events == [] then [] else Ops(events[..|events| - 1], f) + f(events[|events| - 1])
  }

  function UserEvent(e: Event): seq<Op<string>> {
    if e.Expire? then [Flush(e.now)] else UserOp(e.line, e.now)
  }

  function RenameEvent(e: Event): seq<Op<Option<string>>> {
    if e.Expire? then [Flush(e.now)] else RenameOp(e.line, e.now)
  }

  function UserOps(events: seq<Event>): seq<Op<string>> {
    Ops(events, UserEvent)
  }

  function RenameOps(events: seq<Event>): seq<Op<Option<string>>> {
    Ops(events, RenameEvent)
  }

  function AfterEvent(s: Sessions, e: Event): Sessions {
    match e
    case Read(line, now) => Sessions(Applied(s.users, UserOp(line, now)), Applied(s.renames, RenameOp(line, now)))
    case Expire(now) => Sessions(Apply(s.users, Flush(now)), Apply(s.renames, Flush(now)))
  }

  function Run(events: seq<Event>): Sessions {
    if events == [] then Sessions(Dict([], map[]), Dict([], map[]))
    else AfterEvent(Run(events[..|events| - 1]), events[|events| - 1])
  }

  lemma AppliedOne<V>(ops: seq<Op<V>>, more: seq<Op<V>>)
    requires |more| <= 1
    ensures After(ops + more) == Applied(After(ops), more)
  {
    if more == [] {
      assert ops + more == ops;
    } else {
      assert (ops + more)[..|ops + more| - 1] == ops;
      assert more[..0] == [];
    }
  }

  /** Each dictionary sees its own operations only. */
  lemma {:induction false} RunSplits(events: seq<Event>)
    ensures Run(events) == Sessions(After(UserOps(events)), After(RenameOps(events)))
  {
    hide After, Apply;
    if events == [] {
      NothingDone();
    } else {
      var last := events[|events| - 1];
      var users, renames := UserOps(events[..|events| - 1]), RenameOps(events[..|events| - 1]);
      RunSplits(events[..|events| - 1]);
      assert UserOps(events) == users + UserEvent(last) && RenameOps(events) == renames + RenameEvent(last);
      if last.Expire? {
        AppliedOne(users, [Flush(last.now)]);
        AppliedOne(renames, [Flush(last.now)]);
        AppliedFlush(After(users), last.now);
        AppliedFlush(After(renames), last.now);
      } else {
        AppliedOne(users, UserOp(last.line, last.now));
        AppliedOne(renames, RenameOp(last.line, last.now));
      }
    }
  }

  lemma NothingDone()
    ensures After<string>([]) == Dict([], map[]) && After<Option<string>>([]) == Dict([], map[])
  {}

  lemma AppliedFlush<V>(d: Dict<V>, now: real)
    ensures Applied(d, [Flush(now)]) == Apply(d, Flush(now))
  {
    var ops: seq<Op<V>> := [Flush(now)];
    assert ops[..0] == [];
  }

  /** The account and the rename source of a session without any bound on the dictionaries. */
  function LatestUser(events: seq<Event>, pid: string): Option<string> {
    Latest(UserOps(events), pid)
  }

  function LatestSource(events: seq<Event>, pid: string): Option<Option<string>> {
    Latest(RenameOps(events), pid)
  }

  /** In every state both dictionaries are within their bound, and what is found in them is the
      session's own latest value. */
  lemma FindsOwn(events: seq<Event>, pid: string)
    ensures Run(events).users.Valid() && Run(events).renames.Valid()
    ensures Lookup(Run(events).users, pid) in {None, LatestUser(events, pid)}
    ensures Lookup(Run(events).renames, pid) in {None, LatestSource(events, pid)}
  {
    hide After, Latest;
    RunSplits(events);
    HoldsLatest(UserOps(events));
    HoldsLatest(RenameOps(events));
  }

  /** The entry is the one the unbounded history gives, or differs from it only in lacking what
      the dictionaries no longer hold. A filled-in account or rename source is the session's own. */
  lemma OutputRefines(events: seq<Event>, line: Line)
    ensures var s := Run(events);
            var u, f := Lookup(s.users, line.pid), Lookup(s.renames, line.pid);
            var r, full := Output(line, u, f), Output(line, LatestUser(events, line.pid), LatestSource(events, line.pid));
            || r == full
            || (u == None && LatestUser(events, line.pid) != None && r == None)
            || (f == None && LatestSource(events, line.pid) != None && r.Some? && r.value.filePath == line.path)
    ensures var r := Output(line, Lookup(Run(events).users, line.pid), Lookup(Run(events).renames, line.pid));
            r.Some? && r.value.username != line.username ==> r.value.username == LatestUser(events, line.pid)
    ensures var r := Output(line, Lookup(Run(events).users, line.pid), Lookup(Run(events).renames, line.pid));
            r.Some? && r.value.action == Rename && r.value.filePath != line.path ==>
              var source := LatestSource(events, line.pid);
              source.Some? && Truthy(source.value) && r.value.filePath == Some(source.value.value + " -> " + Text(line.path))
  {
    hide Run, LatestUser, LatestSource, Lookup;
    FindsOwn(events, line.pid);
  }

  // ---------- Sessions, event by event ----------

  /** The account the event makes known for the session, and whether it ends that. */
  function Names(pid: string): Event -> Option<string> {
    (e: Event) => if e.Read? && e.line.pid == pid && e.line.command == User && e.line.argument != "" then Some(e.line.argument) else None
  }

  function EndsNaming(pid: string): Event -> bool {
    (e: Event) => e.Read? && e.line.pid == pid && (e.line.command == Pass || e.line.command == Quit)
  }

  /** The same for the path to rename, which may be missing. */
  function Sources(pid: string): Event -> Option<Option<string>> {
    (e: Event) => if e.Read? && e.line.pid == pid && e.line.command == Rnfr then Some(e.line.path) else None
  }

  function EndsRename(pid: string): Event -> bool {
    (e: Event) => e.Read? && e.line.pid == pid && e.line.command == Rnto && e.line.status == 250
  }

  /** `v` was the last thing made known, and nothing ended it since. */
  ghost predicate Pending<V(!new)>(events: seq<Event>, sets: Event -> Option<V>, ends: Event -> bool, v: V) {
    exists i :: 0 <= i < |events| && SetAt(events, i, sets, ends, v)
  }

  ghost predicate SetAt<V>(events: seq<Event>, i: nat, sets: Event -> Option<V>, ends: Event -> bool, v: V)
    requires i < |events|
  {
    sets(events[i]) == Some(v) && Untouched(events[i + 1..], sets, ends)
  }

  ghost predicate Untouched<V>(events: seq<Event>, sets: Event -> Option<V>, ends: Event -> bool) {
    forall j :: 0 <= j < |events| ==> sets(events[j]) == None && !ends(events[j])
  }

  /** Whatever was made known has been ended. */
  ghost predicate NonePending<V>(events: seq<Event>, sets: Event -> Option<V>, ends: Event -> bool) {
    forall i :: 0 <= i < |events| && sets(events[i]).Some? ==> exists j :: i < j < |events| && ends(events[j])
  }

  /** `f` does on the dictionary what `sets` and `ends` say of the session. */
  ghost predicate Does<V>(e: Event, f: Event -> seq<Op<V>>, pid: string, sets: Event -> Option<V>, ends: Event -> bool) {
    if sets(e).Some? then f(e) == [Remember(pid, sets(e).value, e.now)] && !ends(e)
    else if ends(e) then f(e) == [Forget(pid)]
    else f(e) == [] || (|f(e)| == 1 && (f(e)[0].Flush? || f(e)[0].pid != pid))
  }

  lemma UserDoes(e: Event, pid: string)
    ensures Does(e, UserEvent, pid, Names(pid), EndsNaming(pid))
  {}

  lemma RenameDoes(e: Event, pid: string)
    ensures Does(e, RenameEvent, pid, Sources(pid), EndsRename(pid))
  {}

  lemma UntouchedStep<V>(events: seq<Event>, e: Event, sets: Event -> Option<V>, ends: Event -> bool)
    ensures Untouched(events + [e], sets, ends) <==> Untouched(events, sets, ends) && sets(e) == None && !ends(e)
  {
    assert (events + [e])[|events|] == e;
    if Untouched(events + [e], sets, ends) {
      forall j | 0 <= j < |events| ensures sets(events[j]) == None && !ends(events[j]) {
        assert (events + [e])[j] == events[j];
      }
    }
  }

  lemma SetAtStep<V>(before: seq<Event>, e: Event, i: nat, sets: Event -> Option<V>, ends: Event -> bool, v: V)
    requires i <= |before|
    ensures SetAt(before + [e], i, sets, ends, v) <==>
            if i == |before| then sets(e) == Some(v) else SetAt(before, i, sets, ends, v) && sets(e) == None && !ends(e)
  {
    var all := before + [e];
    if i == |before| {
      assert all[i] == e && all[i + 1..] == [];
    } else {
      assert all[i] == before[i] && all[i + 1..] == before[i + 1..] + [e];
      UntouchedStep(before[i + 1..], e, sets, ends);
    }
  }

  lemma PendingStep<V(!new)>(before: seq<Event>, e: Event, sets: Event -> Option<V>, ends: Event -> bool, v: V)
    ensures Pending(before + [e], sets, ends, v) <==>
            if sets(e).Some? then sets(e).value == v else !ends(e) && Pending(before, sets, ends, v)
  {
    hide SetAt;
    var all := before + [e];
    forall i | 0 <= i < |all|
      ensures SetAt(all, i, sets, ends, v) <==>
              if i == |before| then sets(e) == Some(v) else SetAt(before, i, sets, ends, v) && sets(e) == None && !ends(e)
    {
      SetAtStep(before, e, i, sets, ends, v);
    }
    if sets(e) == Some(v) { assert SetAt(all, |before|, sets, ends, v); }
    if Pending(before, sets, ends, v) && sets(e) == None && !ends(e) {
      var i :| 0 <= i < |before| && SetAt(before, i, sets, ends, v);
      assert SetAt(all, i, sets, ends, v);
    }
  }

  lemma NoneStep<V>(before: seq<Event>, e: Event, sets: Event -> Option<V>, ends: Event -> bool)
    requires sets(e).Some? ==> !ends(e)
    ensures NonePending(before + [e], sets, ends) <==> sets(e) == None && (ends(e) || NonePending(before, sets, ends))
  {
    var all := before + [e];
    assert all[|before|] == e;
    if NonePending(all, sets, ends) && !ends(e) {
      forall i | 0 <= i < |before| && sets(before[i]).Some? ensures exists j :: i < j < |before| && ends(before[j]) {
        assert all[i] == before[i];
        var j :| i < j < |all| && ends(all[j]);
        assert ends(before[j]);
      }
    }
    if sets(e) == None && NonePending(before, sets, ends) {
      forall i | 0 <= i < |all| && sets(all[i]).Some? ensures exists j :: i < j < |all| && ends(all[j]) {
        var j :| i < j < |before| && ends(before[j]);
        assert ends(all[j]);
      }
    }
  }

  lemma LatestStep<V>(ops: seq<Op<V>>, more: seq<Op<V>>, pid: string)
    requires |more| <= 1
    ensures Latest(ops + more, pid) ==
            if more != [] && more[0].Remember? && more[0].pid == pid then Some(more[0].value)
            else if more != [] && more[0].Forget? && more[0].pid == pid then None
            else Latest(ops, pid)
  {
    if more == [] { assert ops + more == ops; } else { assert (ops + more)[..|ops + more| - 1] == ops; }
  }

  /** The unbounded history in the terms of the events. */
  lemma {:induction false} PendingMeans<V(!new)>(events: seq<Event>, f: Event -> seq<Op<V>>, pid: string, sets: Event -> Option<V>, ends: Event -> bool)
    requires forall e :: Does(e, f, pid, sets, ends)
    ensures forall v :: Latest(Ops(events, f), pid) == Some(v) <==> Pending(events, sets, ends, v)
    ensures Latest(Ops(events, f), pid) == None <==> NonePending(events, sets, ends)
    decreases |events|
  {
    hide Latest, Pending, NonePending;
    if events == [] {
      NothingPending(pid, sets, ends);
    } else {
      var before, e := events[..|events| - 1], events[|events| - 1];
      assert events == before + [e];
      PendingMeans(before, f, pid, sets, ends);
      assert Does(e, f, pid, sets, ends);
      LatestStep(Ops(before, f), f(e), pid);
      NoneStep(before, e, sets, ends);
      forall v ensures Latest(Ops(events, f), pid) == Some(v) <==> Pending(events, sets, ends, v) {
        PendingStep(before, e, sets, ends, v);
      }
    }
  }

  lemma NothingPending<V(!new)>(pid: string, sets: Event -> Option<V>, ends: Event -> bool)
    ensures Latest<V>([], pid) == None && NonePending([], sets, ends) && forall v :: !Pending([], sets, ends, v)
  {}

  /** An account or a path is what a session last sent, unless it was ended since. */
  lemma SessionMeans(events: seq<Event>, pid: string)
    ensures forall v :: LatestUser(events, pid) == Some(v) <==> Pending(events, Names(pid), EndsNaming(pid), v)
    ensures LatestUser(events, pid) == None <==> NonePending(events, Names(pid), EndsNaming(pid))
    ensures forall v :: LatestSource(events, pid) == Some(v) <==> Pending(events, Sources(pid), EndsRename(pid), v)
    ensures LatestSource(events, pid) == None <==> NonePending(events, Sources(pid), EndsRename(pid))
  {
    hide Does, Pending, NonePending, Latest, Ops;
    forall e ensures Does(e, UserEvent, pid, Names(pid), EndsNaming(pid)) { UserDoes(e, pid); }
    forall e ensures Does(e, RenameEvent, pid, Sources(pid), EndsRename(pid)) { RenameDoes(e, pid); }
    PendingMeans(events, UserEvent, pid, Names(pid), EndsNaming(pid));
    PendingMeans(events, RenameEvent, pid, Sources(pid), EndsRename(pid));
  }

  // ---------- What a line yields ----------

  /** The entry `Parse` makes of a line after these events. */
  function Entry(events: seq<Event>, line: Line): Option<Parsed> {
    Output(line, Lookup(Run(events).users, line.pid), Lookup(Run(events).renames, line.pid))
  }

  /** What a line yields whatever the dictionaries hold, and what it yields for a session of which
      nothing is pending. */
  lemma EntryMeans(events: seq<Event>, line: Line)
    ensures line.command == Pass && line.status == 230 ==> Entry(events, line) == Some(Parsed(line.pid, Login, true, line.username, None))
    ensures line.command == Pass && line.status != 230 && line.username != None && line.username != Some("") ==>
              Entry(events, line) == Some(Parsed(line.pid, Login, false, line.username, None))
    ensures line.command == Pass && line.status != 230 && (line.username == None || line.username == Some("")) ==>
              (NonePending(events, Names(line.pid), EndsNaming(line.pid)) ==> Entry(events, line) == None)
    ensures line.command == Quit ==> Entry(events, line) == Some(Parsed(line.pid, Logout, true, line.username, None))
    ensures line.command == Rnto && line.status == 250 && NonePending(events, Sources(line.pid), EndsRename(line.pid)) ==>
              Entry(events, line) == Some(Parsed(line.pid, Rename, true, line.username, line.path))
    ensures line.command in {User, Rnfr, Other} || (line.command == Rnto && line.status != 250) ==> Entry(events, line) == None
  {
    hide Run, LatestUser, LatestSource, Lookup, NonePending, Pending;
    FindsOwn(events, line.pid);
    SessionMeans(events, line.pid);
  }

  /** A pid used again after PASS or QUIT has no account, and after RNTO 250 no path, until it sends one. */
  lemma ReusedPid(before: seq<Event>, end: Event, after: seq<Event>, pid: string)
    ensures EndsNaming(pid)(end) && (forall j :: 0 <= j < |after| ==> Names(pid)(after[j]) == None) ==>
              NonePending(before + [end] + after, Names(pid), EndsNaming(pid))
    ensures EndsRename(pid)(end) && (forall j :: 0 <= j < |after| ==> Sources(pid)(after[j]) == None) ==>
              NonePending(before + [end] + after, Sources(pid), EndsRename(pid))
  {
    var events := before + [end] + after;
    assert events[|before|] == end;
    assert forall i :: |before| < i < |events| ==> events[i] == after[i - |before| - 1];
  }

  // ---------- What is still known in time ----------

  /** Nothing of the session and no flush past its time. */
  ghost predicate InTime<V>(after: seq<Event>, sets: Event -> Option<V>, ends: Event -> bool, at: real) {
    Untouched(after, sets, ends) && forall j :: 0 <= j < |after| && after[j].Expire? ==> after[j].now - at <= 300.0
  }

  /** How many of the events remember something. */
  function Number(events: seq<Event>, p: Event -> bool): nat {
    if events == [] then 0 else Number(events[..|events| - 1], p) + if p(events[|events| - 1]) then 1 else 0
  }

  function Naming(): Event -> bool {
    (e: Event) => e.Read? && e.line.command == User && e.line.argument != ""
  }

  function Renaming(): Event -> bool {
    (e: Event) => e.Read? && e.line.command == Rnfr
  }

  lemma RemembersStep<V>(ops: seq<Op<V>>, more: seq<Op<V>>)
    requires |more| <= 1
    ensures Remembers(ops + more) == Remembers(ops) + if more != [] && more[0].Remember? then 1 else 0
  {
    if more == [] { assert ops + more == ops; } else { assert (ops + more)[..|ops + more| - 1] == ops; }
  }

  lemma {:induction false} NumberMeans<V>(events: seq<Event>, f: Event -> seq<Op<V>>, p: Event -> bool)
    requires forall e :: |f(e)| <= 1 && (p(e) <==> f(e) != [] && f(e)[0].Remember?)
    ensures Remembers(Ops(events, f)) == Number(events, p)
    decreases |events|
  {
    hide Remembers;
    if events == [] {
      NoRemembers<V>();
    } else {
      NumberMeans(events[..|events| - 1], f, p);
      RemembersStep(Ops(events[..|events| - 1], f), f(events[|events| - 1]));
    }
  }

  lemma NoRemembers<V>()
    ensures Remembers<V>([]) == 0
  {}

  lemma {:induction false} OpsConcat<V>(a: seq<Event>, b: seq<Event>, f: Event -> seq<Op<V>>)
    ensures Ops(a + b, f) == Ops(a, f) + Ops(b, f)
    decreases |b|
  {
    if b == [] {
      assert a + b == a;
    } else {
      OpsConcat(a, b[..|b| - 1], f);
      assert (a + b)[..|a + b| - 1] == a + b[..|b| - 1];
      assert Ops(a, f) + (Ops(b[..|b| - 1], f) + f(b[|b| - 1])) == Ops(a, f) + Ops(b[..|b| - 1], f) + f(b[|b| - 1]);
    }
  }

  lemma {:induction false} Spared<V>(after: seq<Event>, f: Event -> seq<Op<V>>, pid: string, sets: Event -> Option<V>, ends: Event -> bool, at: real)
    requires forall e :: Does(e, f, pid, sets, ends) && (e.Expire? <==> f(e) != [] && f(e)[0].Flush?)
    requires forall e :: f(e) != [] && f(e)[0].Flush? ==> f(e)[0].now == e.now
    requires InTime(after, sets, ends, at)
    ensures AllSpare(Ops(after, f), pid, at)
    decreases |after|
  {
    if after != [] {
      var n := |after| - 1;
      Spared(after[..n], f, pid, sets, ends, at);
      assert Does(after[n], f, pid, sets, ends) && sets(after[n]) == None && !ends(after[n]);
    }
  }

  /** What a session made known is still found, within the limits. */
  lemma Kept<V(!new)>(before: seq<Event>, since: seq<Event>, e: Event, after: seq<Event>, f: Event -> seq<Op<V>>, pid: string,
                sets: Event -> Option<V>, ends: Event -> bool, p: Event -> bool)
    requires forall e :: Does(e, f, pid, sets, ends) && (e.Expire? <==> f(e) != [] && f(e)[0].Flush?)
    requires forall e :: f(e) != [] && f(e)[0].Flush? ==> f(e)[0].now == e.now
    requires forall e :: |f(e)| <= 1 && (p(e) <==> f(e) != [] && f(e)[0].Remember?)
    requires sets(e).Some? && NonePending(before, sets, ends) && InTime(after, sets, ends, e.now)
    requires Number(since, p) + Number(after, p) < 10000
    ensures Lookup(After(Ops(before + since + [e] + after, f)), pid) == sets(e)
  {
    hide Latest, AllSpare, Remembers, After, NonePending, Pending, InTime, Number, Lookup;
    PendingMeans(before, f, pid, sets, ends);
    NumberMeans(since, f, p);
    NumberMeans(after, f, p);
    Spared(after, f, pid, sets, ends, e.now);
    OpsConcat(before + since + [e], after, f);
    OpsConcat(before + since, [e], f);
    OpsConcat(before, since, f);
    OpsOne(e, f);
    assert Does(e, f, pid, sets, ends);
    Survives(Ops(before, f), Ops(since, f), pid, sets(e).value, e.now, Ops(after, f));
  }

  lemma OpsOne<V>(e: Event, f: Event -> seq<Op<V>>)
    ensures Ops([e], f) == f(e)
  {
    assert [e][..0] == [] && Ops([], f) + f(e) == f(e);
  }

  /** A failed login without a name of its own carries the account its session sent last, if since some
      moment before at which the session had sent none fewer than 10000 accounts were sent, no flush came
      more than 300 seconds after it, and no PASS or QUIT of the session. */
  lemma FailedLoginNamed(before: seq<Event>, since: seq<Event>, user: Event, after: seq<Event>, line: Line)
    requires Names(line.pid)(user).Some? && NonePending(before, Names(line.pid), EndsNaming(line.pid))
    requires InTime(after, Names(line.pid), EndsNaming(line.pid), user.now)
    requires Number(since, Naming()) + Number(after, Naming()) < 10000
    requires line.command == Pass && line.status != 230 && (line.username == None || line.username == Some(""))
    ensures Entry(before + since + [user] + after, line) == Some(Parsed(line.pid, Login, false, Some(user.line.argument), None))
  {
    hide Run, Lookup, NonePending, InTime, Number, After, Ops, Does;
    var events := before + since + [user] + after;
    RunSplits(events);
    forall e ensures Does(e, UserEvent, line.pid, Names(line.pid), EndsNaming(line.pid)) { UserDoes(e, line.pid); }
    Kept(before, since, user, after, UserEvent, line.pid, Names(line.pid), EndsNaming(line.pid), Naming());
  }

  /** A rename whose session sent a path to rename names both, within the same limits: fewer than 10000 such
      paths, and no RNTO 250 of the session. A path that is missing or empty is left out. */
  lemma RenameNamed(before: seq<Event>, since: seq<Event>, rnfr: Event, after: seq<Event>, line: Line)
    requires Sources(line.pid)(rnfr).Some? && NonePending(before, Sources(line.pid), EndsRename(line.pid))
    requires InTime(after, Sources(line.pid), EndsRename(line.pid), rnfr.now)
    requires Number(since, Renaming()) + Number(after, Renaming()) < 10000
    requires line.command == Rnto && line.status == 250
    ensures var path := rnfr.line.path;
            Entry(before + since + [rnfr] + after, line)
              == Some(Parsed(line.pid, Rename, true, line.username,
                             if path == None || path == Some("") then line.path
                             else Some(path.value + " -> " + if line.path == None then "None" else line.path.value)))
  {
    hide Run, Lookup, NonePending, InTime, Number, After, Ops, Does;
    var events := before + since + [rnfr] + after;
    RunSplits(events);
    forall e ensures Does(e, RenameEvent, line.pid, Sources(line.pid), EndsRename(line.pid)) { RenameDoes(e, line.pid); }
    Kept(before, since, rnfr, after, RenameEvent, line.pid, Sources(line.pid), EndsRename(line.pid), Renaming());
  }
}
