/** The whole delivery path as one machine: log files and tailers, the sender loop with its disk
    buffer (ftp-daemon/soltrace_daemon.py), requests whose replies may be lost or late, the
    ingest endpoint and the write buffer. */
module Delivery {
  import opened Wrappers
  import opened LogEntries
  import opened Tailer
  import opened Ingest
  import D = DiskBuffer
  import W = WriteBufferModel
  import WS = WriteBufferSafety

  /** `chunk` is the number of entries sent per request. */
  datatype Config = Config(
    h: Hash, parsers: seq<Parser>, chunk: nat, maxBufferLines: int, wb: W.Config)
  {
    ghost predicate Valid() {
      1 <= chunk <= MAX_BATCH
    }
  }

  /** `start` is where the daemon first began to read; `saved` is the state file. */
  datatype TailerState = TailerState(
    file: string, start: nat, pos: nat, pending: Option<nat>, saved: Option<nat>)

  /** No reply yet, 200, 503, 403. */
  datatype Reply = Open | Handled | Busy | Barred

  datatype Request = Request(chunk: seq<Entry>, reply: Reply)

  /** Where the sender loop is. `resend` tells a buffer resend from a send of polled entries;
      Settling commits (or, after a failed send, advances) the tailers one by one. */
  datatype Phase =
    | Top
    | Polling(next: nat)
    | Sending(resend: bool)
    | Waiting(resend: bool, request: nat)
    | Settling(next: nat)

  /** `diskDropped` and `rejected` record history. */
  datatype State = State(
    tailers: seq<TailerState>, phase: Phase, hand: seq<Entry>, sent: nat,
    disk: seq<Entry>, diskDropped: seq<Entry>,
    requests: seq<Request>, rejected: seq<Entry>, wb: W.State)

  datatype Step =
    | AppendLog(tailer: nat, text: string)
    | TakeBuffer
    | StartPolling
    | PollTailer(ok: bool)
    | EndPolling
    | Post
    | Handle(request: nat, disabled: bool)
    | ReceiveOk
    | ReceiveFailure
    | GiveUp
    | ReceiveForbidden
    | AllSent
    | Settle(saveOk: bool)
    | EndSettling
    | Background(step: W.Step)
    | Crash

  predicate Resending(p: Phase) {
    (p.Sending? || p.Waiting?) && p.resend
  }

  // ---------- Steps ----------

  ghost predicate Enabled(cfg: Config, s: State, step: Step) {
    match step
    case AppendLog(i, _) => i < |s.tailers|
    case TakeBuffer => s.phase == Top && s.disk != []
    case StartPolling => s.phase == Top && s.disk == []
    case PollTailer(_) => s.phase.Polling? && s.phase.next < |s.tailers|
    case EndPolling => s.phase.Polling? && s.phase.next == |s.tailers|
    case Post => s.phase.Sending? && s.sent < |s.hand|
    case Handle(i, _) => i < |s.requests| && s.requests[i].reply == Open
    case ReceiveOk => s.phase.Waiting? && s.phase.request < |s.requests| && s.requests[s.phase.request].reply == Handled
    case ReceiveFailure => s.phase.Waiting?
    case GiveUp => s.phase.Waiting?
    case ReceiveForbidden => s.phase.Waiting? && s.phase.request < |s.requests| && s.requests[s.phase.request].reply == Barred
    case AllSent => s.phase.Sending? && s.sent >= |s.hand|
    case Settle(_) => s.phase.Settling? && s.phase.next < |s.tailers|
    case EndSettling => s.phase.Settling? && s.phase.next == |s.tailers|
    case Background(w) => !w.Add? && W.Enabled(s.wb, w)
    case Crash => !Resending(s.phase) && forall i :: 0 <= i < |s.tailers| ==> s.tailers[i].saved.Some?
  }

  function ChunkAt(cfg: Config, s: State): seq<Entry>
    requires s.sent <= |s.hand|
  {
    var end := if s.sent + cfg.chunk < |s.hand| then s.sent + cfg.chunk else |s.hand|;
    s.hand[s.sent..end]
  }

  /** `DiskBuffer.write` of everything in hand. */
  function Buffered(cfg: Config, s: State): State {
    var all := s.disk + s.hand;
    var kept := D.Newest(all, cfg.maxBufferLines);
    s.(disk := kept, diskDropped := s.diskDropped + all[..|all| - |kept|], hand := [], sent := 0)
  }

  function Polled(parser: Parser, t: TailerState): (TailerState, seq<Entry>) {
    if |t.file| <= t.pos then (t, [])
    else
      var p := t.pos + Consumed(t.file[t.pos..], MAX_LINES_PER_POLL);
      (t.(pending := Some(p)), ParseText(parser, t.file[t.pos..p]))
  }

  function Committed(t: TailerState, saveOk: bool): TailerState {
    match t.pending
    case None => t
    case Some(p) => t.(pos := p, pending := None, saved := if saveOk then Some(p) else t.saved)
  }

  function AfterHandle(cfg: Config, s: State, i: nat, disabled: bool): State
    requires i < |s.requests|
  {
    var r := s.requests[i];
    if disabled then s.(requests := s.requests[i := r.(reply := Barred)])
    else if |s.wb.queue| + s.wb.retryRows >= cfg.wb.maxPending
    then s.(requests := s.requests[i := r.(reply := Busy)])
    else
      var good := Storables(r.chunk);
      s.(requests := s.requests[i := r.(reply := Handled)],
         rejected := s.rejected + Rejects(r.chunk),
         wb := if good == [] then s.wb else W.Added(cfg.wb, s.wb, good))
  }

  function Rejects(logs: seq<Entry>): seq<Entry> {
    if logs == [] then [] else (if Storable(logs[0]) then [] else [logs[0]]) + Rejects(logs[1..])
  }

  function RolledBack(ts: seq<TailerState>): seq<TailerState> {
    seq(|ts|, i requires 0 <= i < |ts| => ts[i].(pending := None))
  }

  function Restarted(ts: seq<TailerState>): seq<TailerState> {
    seq(|ts|, i requires 0 <= i < |ts| =>
      ts[i].(pos := if ts[i].saved.Some? then ts[i].saved.value else |ts[i].file|, pending := None))
  }

  function Next(cfg: Config, s: State, step: Step): State
    requires Enabled(cfg, s, step) && |s.tailers| <= |cfg.parsers|
  {
    match step
    case AppendLog(i, text) =>
      s.(tailers := s.tailers[i := s.tailers[i].(file := s.tailers[i].file + text)])
    case TakeBuffer => s.(hand := s.disk, disk := [], sent := 0, phase := Sending(true))
    case StartPolling => s.(hand := [], sent := 0, phase := Polling(0))
    case PollTailer(ok) =>
      var i := s.phase.next;
      var (t, entries) := if ok then Polled(cfg.parsers[i], s.tailers[i]) else (s.tailers[i], []);
      s.(tailers := s.tailers[i := t], hand := s.hand + entries, phase := Polling(i + 1))
    case EndPolling => if s.hand == [] then s.(phase := Top) else s.(sent := 0, phase := Sending(false))
    case Post =>
      s.(requests := s.requests + [Request(ChunkAt(cfg, s), Open)],
         phase := Waiting(s.phase.resend, |s.requests|))
    case Handle(i, disabled) => AfterHandle(cfg, s, i, disabled)
    case ReceiveOk =>
      s.(sent := s.sent + |s.requests[s.phase.request].chunk|, phase := Sending(s.phase.resend))
    case ReceiveFailure => s.(phase := Sending(s.phase.resend))
    case GiveUp => Buffered(cfg, s).(phase := if s.phase.resend then Top else Settling(0))
    case ReceiveForbidden =>
      if s.phase.resend then Buffered(cfg, s).(phase := Top)
      else s.(tailers := RolledBack(s.tailers), hand := [], sent := 0, phase := Top)
    case AllSent => s.(hand := [], sent := 0, phase := if s.phase.resend then Polling(0) else Settling(0))
    case Settle(saveOk) =>
      var i := s.phase.next;
      s.(tailers := s.tailers[i := Committed(s.tailers[i], saveOk)], phase := Settling(i + 1))
    case EndSettling => s.(phase := Top)
    case Background(w) => s.(wb := W.Next(cfg.wb, cfg.h, s.wb, w))
    case Crash => s.(tailers := Restarted(s.tailers), hand := [], sent := 0, phase := Top)
  }

  // ---------- The invariant ----------

  /** The entry has reached the WAS, or is kept by the daemon on disk or for a resend, or is
      among the entries the disk buffer had to cut. */
  ghost predicate Safe(s: State, e: Entry) {
    || e in s.wb.accepted || e in s.rejected || e in s.disk || e in s.diskDropped
    || (Resending(s.phase) && e in s.hand)
  }

  ghost predicate InHand(s: State, e: Entry) {
    !Resending(s.phase) && e in s.hand
  }

  ghost predicate LineStart(t: TailerState, p: nat) {
    t.start <= p <= |t.file| && (p == t.start || t.file[p - 1] == '\n')
  }

  ghost predicate WellPlaced(t: TailerState) {
    && LineStart(t, t.pos)
    && (t.pending.Some? ==> t.pos <= t.pending.value && LineStart(t, t.pending.value))
    && (t.saved.Some? ==> t.saved.value <= t.pos && LineStart(t, t.saved.value))
  }

  /** Everything behind the position is safe; everything up to a pending position is safe or in hand. */
  ghost predicate Covered(s: State, parser: Parser, t: TailerState) {
    && WellPlaced(t)
    && (forall e :: e in ParseText(parser, t.file[t.start..t.pos]) ==> Safe(s, e))
    && (t.pending.Some? ==>
          forall e :: e in ParseText(parser, t.file[t.pos..t.pending.value]) ==> Safe(s, e) || InHand(s, e))
  }

  ghost predicate TailersCovered(cfg: Config, s: State) {
    && |s.tailers| <= |cfg.parsers|
    && forall i :: 0 <= i < |s.tailers| ==> Covered(s, cfg.parsers[i], s.tailers[i])
  }

  ghost predicate Received(s: State, e: Entry) {
    e in s.wb.accepted || e in s.rejected
  }

  ghost predicate AllReceived(s: State, es: seq<Entry>) {
    forall e :: e in es ==> Received(s, e)
  }

  /** What was handled was received, and what was acknowledged was handled. */
  ghost predicate Acknowledged(s: State) {
    && s.sent <= |s.hand| && AllReceived(s, s.hand[..s.sent])
    && (forall i :: 0 <= i < |s.requests| && s.requests[i].reply == Handled ==> AllReceived(s, s.requests[i].chunk))
    && (s.phase.Waiting? ==>
          && s.phase.request < |s.requests|
          && s.requests[s.phase.request].chunk <= s.hand[s.sent..])
  }

  /** Outside a send nothing is in hand, except while polling. */
  ghost predicate HandIdle(s: State) {
    && (forall e :: e in s.rejected ==> !Storable(e))
    && (s.phase.Settling? || s.phase.Top? ==> s.hand == [])
    && (s.phase.Polling? ==> s.sent == 0)
  }

  ghost predicate Inv(cfg: Config, s: State) {
    TailersCovered(cfg, s) && Acknowledged(s) && HandIdle(s) && WS.Inv(cfg.wb, cfg.h, s.wb)
  }
}
