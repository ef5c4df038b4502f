/** End-to-end conservation of the delivery path. */
module DeliverySafety {
  import opened Wrappers
  import opened LogEntries
  import opened Tailer
  import opened Ingest
  import opened Delivery
  import D = DiskBuffer
  import W = WriteBufferModel
  import WS = WriteBufferSafety

  // ---------- One tailer ----------

  /** The region up to a line start parses as its two parts do. */
  lemma ParseSplit(parser: Parser, t: TailerState, lo: nat, mid: nat, hi: nat)
    requires t.start <= lo <= mid <= hi <= |t.file| && LineStart(t, mid)
    ensures ParseText(parser, t.file[lo..hi]) == ParseText(parser, t.file[lo..mid]) + ParseText(parser, t.file[mid..hi])
  {
    hide ParseText;
    var a, b := t.file[lo..mid], t.file[mid..hi];
    assert t.file[lo..hi] == a + b;
    if mid > lo { assert a[|a| - 1] == t.file[mid - 1]; }
    ParseConcat(parser, a, b);
  }

  lemma PollCovered(cfg: Config, s: State, s': State, parser: Parser, t: TailerState)
    requires Covered(s, parser, t)
    requires forall e :: Safe(s, e) ==> Safe(s', e)
    requires forall e :: InHand(s, e) ==> InHand(s', e)
    requires forall e :: e in Polled(parser, t).1 ==> InHand(s', e)
    ensures Covered(s', parser, Polled(parser, t).0)
  {
    hide ParseText, Consumed, Safe, InHand;
    if t.pos < |t.file| {
      var n := Consumed(t.file[t.pos..], MAX_LINES_PER_POLL);
      ConsumedAtLineEnd(t.file[t.pos..], MAX_LINES_PER_POLL);
      if n > 0 { assert t.file[t.pos + n - 1] == t.file[t.pos..][n - 1]; }
    }
  }

  lemma CommitCovered(s: State, parser: Parser, t: TailerState, saveOk: bool)
    requires Covered(s, parser, t) && s.hand == []
    ensures Covered(s, parser, Committed(t, saveOk))
  {
    hide ParseText, Safe;
    if t.pending.Some? {
      ParseSplit(parser, t, t.start, t.pos, t.pending.value);
    }
  }

  lemma RollbackCovered(s: State, s': State, parser: Parser, t: TailerState)
    requires Covered(s, parser, t) && forall e :: Safe(s, e) ==> Safe(s', e)
    ensures Covered(s', parser, t.(pending := None))
  {
    hide ParseText, Safe;
  }

  lemma RestartCovered(s: State, s': State, parser: Parser, t: TailerState)
    requires Covered(s, parser, t) && t.saved.Some? && forall e :: Safe(s, e) ==> Safe(s', e)
    ensures Covered(s', parser, t.(pos := t.saved.value, pending := None))
  {
    hide ParseText, Safe;
    ParseSplit(parser, t, t.start, t.saved.value, t.pos);
  }

  lemma AppendCovered(s: State, s': State, parser: Parser, t: TailerState, text: string)
    requires Covered(s, parser, t)
    requires forall e :: Safe(s, e) ==> Safe(s', e)
    requires forall e :: InHand(s, e) ==> InHand(s', e)
    ensures Covered(s', parser, t.(file := t.file + text))
  {
    hide ParseText, Safe, InHand;
    var f := t.file + text;
    assert f[t.start..t.pos] == t.file[t.start..t.pos];
    if t.pending.Some? { assert f[t.pos..t.pending.value] == t.file[t.pos..t.pending.value]; }
  }

  /** What is safe stays safe, and what is in hand stays in hand or becomes safe. */
  ghost predicate Keeps(s: State, s': State) {
    && (forall e :: Safe(s, e) ==> Safe(s', e))
    && (forall e :: InHand(s, e) ==> Safe(s', e) || InHand(s', e))
  }

  lemma TailersFrame(cfg: Config, s: State, s': State)
    requires TailersCovered(cfg, s) && s'.tailers == s.tailers && Keeps(s, s')
    ensures TailersCovered(cfg, s')
  {
    hide ParseText, Safe, InHand, WellPlaced;
  }

  // ---------- What each step keeps ----------

  lemma NewestSplit(cfg: Config, s: State)
    ensures var s' := Buffered(cfg, s);
            forall e :: e in s.disk || e in s.hand || e in s.diskDropped ==> e in s'.disk || e in s'.diskDropped
  {
    var all := s.disk + s.hand;
    var kept := D.Newest(all, cfg.maxBufferLines);
    assert all == all[..|all| - |kept|] + kept;
    assert forall e :: e in s.disk || e in s.hand ==> e in all;
  }

  lemma {:induction false} StorableOrNot(logs: seq<Entry>)
    ensures forall e :: e in logs <==> e in Storables(logs) || e in Rejects(logs)
    ensures forall e :: e in Rejects(logs) ==> !Storable(e)
  {
    hide Storable;
    if logs != [] {
      StorableOrNot(logs[1..]);
      assert logs == [logs[0]] + logs[1..];
    }
  }

  lemma HandleReceives(cfg: Config, s: State, i: nat, disabled: bool)
    requires i < |s.requests|
    ensures var s' := AfterHandle(cfg, s, i, disabled);
            && (forall e :: Received(s, e) ==> Received(s', e))
            && (s'.requests[i].reply == Handled ==> AllReceived(s', s.requests[i].chunk))
  {
    hide Storables, Rejects, Storable;
    StorableOrNot(s.requests[i].chunk);
    assert forall e :: e in Storables(s.requests[i].chunk) ==> e in multiset(Storables(s.requests[i].chunk));
  }

  /** The write buffer never forgets that it accepted a row. */
  lemma AcceptedGrows(cfg: Config, s: W.State, step: W.Step)
    requires W.Enabled(s, step)
    ensures s.accepted <= W.Next(cfg.wb, cfg.h, s, step).accepted
  {
    hide W.Due, W.Kept, W.RowCount, W.Overflow, W.Flatten, W.Deferred, W.Without, W.Inserts, InsertAll;
  }

  lemma StepKeepsAll(cfg: Config, s: State, step: Step)
    requires Enabled(cfg, s, step) && |s.tailers| <= |cfg.parsers|
    requires Acknowledged(s) && HandIdle(s)
    requires !step.ReceiveForbidden? || s.phase.resend
    requires !step.Crash?
    ensures Keeps(s, Next(cfg, s, step))
  {
    hide Polled, Committed, RolledBack, Restarted, WellPlaced, W.Next, W.Enabled;
    match step
    case Handle(i, disabled) => HandleReceives(cfg, s, i, disabled);
    case Background(w) => AcceptedGrows(cfg, s.wb, w);
    case GiveUp => NewestSplit(cfg, s);
    case ReceiveForbidden => NewestSplit(cfg, s);
    case AllSent => assert s.hand[..s.sent] == s.hand;
    case _ =>
  }

  lemma TailerUpdate(cfg: Config, s: State, s': State, i: nat, t: TailerState)
    requires TailersCovered(cfg, s) && Keeps(s, s') && i < |s.tailers|
    requires s'.tailers == s.tailers[i := t] && Covered(s', cfg.parsers[i], t)
    ensures TailersCovered(cfg, s')
  {
    hide ParseText, Safe, InHand, WellPlaced;
  }

  lemma StepTailers(cfg: Config, s: State, step: Step)
    requires Enabled(cfg, s, step) && TailersCovered(cfg, s) && Acknowledged(s) && HandIdle(s)
    requires !step.ReceiveForbidden? && !step.Crash?
    ensures TailersCovered(cfg, Next(cfg, s, step))
  {
    hide Covered, Acknowledged, Safe, Polled, Committed, Buffered, AfterHandle, W.Next, Keeps;
    StepKeepsAll(cfg, s, step);
    var s' := Next(cfg, s, step);
    match step
    case AppendLog(i, text) =>
      AppendKeeps(s, s');
      AppendCovered(s, s', cfg.parsers[i], s.tailers[i], text);
      TailerUpdate(cfg, s, s', i, s.tailers[i].(file := s.tailers[i].file + text));
    case PollTailer(ok) =>
      var i := s.phase.next;
      if ok {
        PollKeeps(cfg, s);
        PollCovered(cfg, s, s', cfg.parsers[i], s.tailers[i]);
        TailerUpdate(cfg, s, s', i, Polled(cfg.parsers[i], s.tailers[i]).0);
      } else {
        TailersFrame(cfg, s, s');
      }
    case Settle(saveOk) =>
      var i := s.phase.next;
      CommitCovered(s, cfg.parsers[i], s.tailers[i], saveOk);
      SameSafety(s, s', cfg.parsers[i], Committed(s.tailers[i], saveOk));
      TailerUpdate(cfg, s, s', i, Committed(s.tailers[i], saveOk));
    case Handle(i, disabled) =>
      HandleFrame(cfg, s, i, disabled);
      TailersFrame(cfg, s, s');
    case GiveUp =>
      BufferedFrame(cfg, s);
      TailersFrame(cfg, s, s');
    case _ => TailersFrame(cfg, s, s');
  }

  lemma AppendKeeps(s: State, s': State)
    requires s' == s.(tailers := s'.tailers)
    ensures forall e :: Safe(s, e) ==> Safe(s', e)
    ensures forall e :: InHand(s, e) ==> InHand(s', e)
  {}

  lemma PollKeeps(cfg: Config, s: State)
    requires |s.tailers| <= |cfg.parsers| && Enabled(cfg, s, PollTailer(true))
    ensures var s' := Next(cfg, s, PollTailer(true));
            && (forall e :: Safe(s, e) ==> Safe(s', e))
            && (forall e :: InHand(s, e) ==> InHand(s', e))
            && (forall e :: e in Polled(cfg.parsers[s.phase.next], s.tailers[s.phase.next]).1 ==> InHand(s', e))
  {
    hide Polled;
  }

  lemma SameSafety(s: State, s': State, parser: Parser, t: TailerState)
    requires Covered(s, parser, t) && Keeps(s, s')
    ensures Covered(s', parser, t)
  {
    hide ParseText, Safe, InHand, WellPlaced;
  }

  lemma ForbiddenResend(cfg: Config, s: State)
    requires Enabled(cfg, s, ReceiveForbidden) && TailersCovered(cfg, s) && Acknowledged(s) && HandIdle(s) && s.phase.resend
    ensures TailersCovered(cfg, Next(cfg, s, ReceiveForbidden))
  {
    hide Covered, Acknowledged, HandIdle, Keeps, Buffered;
    StepKeepsAll(cfg, s, ReceiveForbidden);
    BufferedFrame(cfg, s);
    TailersFrame(cfg, s, Next(cfg, s, ReceiveForbidden));
  }

  lemma RollbackTailers(cfg: Config, s: State)
    requires Enabled(cfg, s, ReceiveForbidden) && TailersCovered(cfg, s) && !s.phase.resend
    ensures TailersCovered(cfg, Next(cfg, s, ReceiveForbidden))
  {
    hide Covered;
    var s' := Next(cfg, s, ReceiveForbidden);
    forall i | 0 <= i < |s.tailers| ensures Covered(s', cfg.parsers[i], s'.tailers[i]) {
      RollbackCovered(s, s', cfg.parsers[i], s.tailers[i]);
    }
  }

  lemma RestartTailers(cfg: Config, s: State)
    requires Enabled(cfg, s, Crash) && TailersCovered(cfg, s)
    ensures TailersCovered(cfg, Next(cfg, s, Crash))
  {
    hide Covered;
    var s' := Next(cfg, s, Crash);
    forall i | 0 <= i < |s.tailers| ensures Covered(s', cfg.parsers[i], s'.tailers[i]) {
      RestartCovered(s, s', cfg.parsers[i], s.tailers[i]);
    }
  }

  lemma HandleAcknowledged(cfg: Config, s: State, i: nat, disabled: bool)
    requires i < |s.requests| && s.requests[i].reply == Open && Acknowledged(s)
    ensures Acknowledged(AfterHandle(cfg, s, i, disabled))
  {
    hide AfterHandle, Received;
    HandleReceives(cfg, s, i, disabled);
    var s' := AfterHandle(cfg, s, i, disabled);
    HandleFrame(cfg, s, i, disabled);
  }

  lemma HandleFrame(cfg: Config, s: State, i: nat, disabled: bool)
    requires i < |s.requests|
    ensures var s' := AfterHandle(cfg, s, i, disabled);
            && s' == s.(requests := s'.requests, rejected := s'.rejected, wb := s'.wb)
            && |s'.requests| == |s.requests| && s'.requests[i].chunk == s.requests[i].chunk
            && forall j :: 0 <= j < |s.requests| && j != i ==> s'.requests[j] == s.requests[j]
  {}

  lemma StepAcknowledged(cfg: Config, s: State, step: Step)
    requires Enabled(cfg, s, step) && |s.tailers| <= |cfg.parsers| && Acknowledged(s) && HandIdle(s)
    ensures Acknowledged(Next(cfg, s, step))
  {
    hide Polled, Committed, RolledBack, Restarted, Buffered, AfterHandle, W.Next, W.Enabled;
    match step
    case Handle(i, disabled) => HandleAcknowledged(cfg, s, i, disabled);
    case Background(w) => AcceptedGrows(cfg, s.wb, w);
    case ReceiveOk => ReceiveAcknowledged(cfg, s);
    case GiveUp => BufferedFrame(cfg, s);
    case ReceiveForbidden => BufferedFrame(cfg, s);
    case Post =>
      assert ChunkAt(cfg, s) <= s.hand[s.sent..];
    case _ =>
  }

  lemma BufferedFrame(cfg: Config, s: State)
    ensures var s' := Buffered(cfg, s);
            s' == s.(disk := s'.disk, diskDropped := s'.diskDropped, hand := [], sent := 0)
  {}

  lemma ReceiveAcknowledged(cfg: Config, s: State)
    requires Enabled(cfg, s, ReceiveOk) && |s.tailers| <= |cfg.parsers| && Acknowledged(s)
    ensures Acknowledged(Next(cfg, s, ReceiveOk))
  {
    var chunk := s.requests[s.phase.request].chunk;
    var n := s.sent + |chunk|;
    assert s.hand[s.sent..][..|chunk|] == chunk;
    assert s.hand[..n] == s.hand[..s.sent] + chunk;
  }

  lemma StepHandIdle(cfg: Config, s: State, step: Step)
    requires Enabled(cfg, s, step) && |s.tailers| <= |cfg.parsers| && HandIdle(s)
    ensures HandIdle(Next(cfg, s, step))
  {
    hide Polled, Committed, RolledBack, Restarted, W.Next, W.Enabled, Storable, D.Newest;
    match step
    case Handle(i, _) => StorableOrNot(s.requests[i].chunk);
    case _ =>
  }

  lemma StepBuffer(cfg: Config, s: State, step: Step)
    requires Enabled(cfg, s, step) && |s.tailers| <= |cfg.parsers| && WS.Inv(cfg.wb, cfg.h, s.wb)
    ensures WS.Inv(cfg.wb, cfg.h, Next(cfg, s, step).wb)
  {
    hide WS.Inv, W.Next, W.Added, Polled, Committed, RolledBack, Restarted, Storables, Rejects, D.Newest;
    match step
    case Handle(i, _) =>
      var good := Storables(s.requests[i].chunk);
      WS.StepKeeps(cfg.wb, cfg.h, s.wb, W.Add(good));
      assert W.Next(cfg.wb, cfg.h, s.wb, W.Add(good)) == W.Added(cfg.wb, s.wb, good) by {
        AddIsAdded(cfg, s.wb, good);
      }
    case Background(w) => WS.StepKeeps(cfg.wb, cfg.h, s.wb, w);
    case _ =>
  }

  lemma AddIsAdded(cfg: Config, s: W.State, rows: seq<Entry>)
    ensures W.Enabled(s, W.Add(rows)) && W.Next(cfg.wb, cfg.h, s, W.Add(rows)) == W.Added(cfg.wb, s, rows)
  {}

  lemma ParsersSuffice(cfg: Config, s: State)
    requires TailersCovered(cfg, s)
    ensures |s.tailers| <= |cfg.parsers|
  {}

  lemma StepKeepsInv(cfg: Config, s: State, step: Step)
    requires Enabled(cfg, s, step) && Inv(cfg, s)
    ensures Inv(cfg, Next(cfg, s, step))
  {
    hide Next, TailersCovered, Acknowledged, HandIdle, WS.Inv, W.Enabled;
    ParsersSuffice(cfg, s);
    StepAcknowledged(cfg, s, step);
    StepHandIdle(cfg, s, step);
    StepBuffer(cfg, s, step);
    if step.Crash? {
      RestartTailers(cfg, s);
    } else if step.ReceiveForbidden? {
      if s.phase.resend { ForbiddenResend(cfg, s); } else { RollbackTailers(cfg, s); }
    } else {
      StepTailers(cfg, s, step);
    }
  }

  // ---------- Runs ----------

  ghost predicate Legal(cfg: Config, s: State, steps: seq<Step>)
    decreases steps
  {
    steps == [] || (Enabled(cfg, s, steps[0]) && |s.tailers| <= |cfg.parsers|
                    && Legal(cfg, Next(cfg, s, steps[0]), steps[1..]))
  }

  function Run(cfg: Config, s: State, steps: seq<Step>): State
    requires Legal(cfg, s, steps)
    decreases steps
  {
    if steps == [] then s else Run(cfg, Next(cfg, s, steps[0]), steps[1..])
  }

  /** The daemon starts: nothing in hand, a buffer file perhaps left by an earlier run, and any log
      table with one row per key. */
  ghost predicate Start(cfg: Config, s: State) {
    && cfg.Valid() && |s.tailers| <= |cfg.parsers|
    && s.phase == Top && s.hand == [] && s.sent == 0 && s.requests == [] && s.rejected == [] && s.diskDropped == []
    && s.wb == W.Init(s.wb.initial) && OneRowPerKey(cfg.h, s.wb.initial)
    && forall i :: 0 <= i < |s.tailers| ==>
         var t := s.tailers[i];
         t.pos == t.start <= |t.file| && t.pending == None && (t.saved.Some? ==> t.saved.value == t.start)
  }

  lemma {:induction false} RunKeepsInv(cfg: Config, s: State, steps: seq<Step>)
    requires Inv(cfg, s) && Legal(cfg, s, steps)
    ensures Inv(cfg, Run(cfg, s, steps))
    decreases steps
  {
    hide Inv, Next, Enabled;
    if steps != [] {
      StepKeepsInv(cfg, s, steps[0]);
      RunKeepsInv(cfg, Next(cfg, s, steps[0]), steps[1..]);
    }
  }

  lemma StartHolds(cfg: Config, s: State)
    requires Start(cfg, s)
    ensures Inv(cfg, s)
  {
    hide Safe, InHand, WS.Inv, W.Init;
    WS.InitHolds(cfg.wb, cfg.h, s.wb.initial);
    forall i | 0 <= i < |s.tailers| ensures Covered(s, cfg.parsers[i], s.tailers[i]) {
      var t := s.tailers[i];
      assert t.file[t.start..t.pos] == "";
      ParseStep(cfg.parsers[i], "");
    }
  }

  /** Where an entry behind a committed position can be. */
  ghost predicate Accounted(cfg: Config, s: State, e: Entry) {
    || KeyOf(cfg.h, e) in Keys(cfg.h, s.wb.db)
    || e in s.wb.queue || e in W.BatchRows(s.wb.retry) || e in W.InFlight(s.wb.tasks)
    || e in s.wb.discarded
    || (e in s.rejected && !Storable(e))
    || e in s.disk || e in s.diskDropped
    || (Resending(s.phase) && e in s.hand)
  }

  lemma SafeAccounted(cfg: Config, s: State, e: Entry)
    requires WS.Inv(cfg.wb, cfg.h, s.wb) && HandIdle(s) && Safe(s, e)
    ensures Accounted(cfg, s, e)
  {
    hide W.BatchRows, W.InFlight, Storable, Keys, BagKeys;
    if e in s.wb.accepted {
      WS.InvMeans(cfg.wb, cfg.h, s.wb);
      if e in s.wb.inserted { InsertedKey(cfg.h, s.wb.inserted, e); }
    }
  }

  lemma InsertedKey(h: Hash, rows: multiset<Entry>, e: Entry)
    requires e in rows
    ensures KeyOf(h, e) in BagKeys(h, rows)
  {}

  /** Every entry a tailer has passed for good is somewhere. */
  ghost predicate Delivered(cfg: Config, s: State) {
    |s.tailers| <= |cfg.parsers| &&
    forall i :: 0 <= i < |s.tailers| ==>
      var t := s.tailers[i];
      && t.start <= t.pos <= |t.file|
      && forall e :: e in ParseText(cfg.parsers[i], t.file[t.start..t.pos]) ==> Accounted(cfg, s, e)
  }

  lemma InvDelivers(cfg: Config, s: State)
    requires Inv(cfg, s)
    ensures Delivered(cfg, s)
  {
    hide Accounted, ParseText, Safe, WS.Inv, HandIdle;
    forall e | Safe(s, e) ensures Accounted(cfg, s, e) {
      SafeAccounted(cfg, s, e);
    }
  }

  /** End-to-end conservation. In every state of every run, with polls, lost and late replies,
      refusals, disabled devices, buffer overflows, database failures and crashes outside a
      buffer resend, each entry a tailer has passed for good is in the log table, in the write
      buffer, on the daemon's disk or in a running resend, rejected by the endpoint, or among the
      counted drops; and the table has one row per key however often a batch was delivered. */
  lemma Conservation(cfg: Config, s: State, steps: seq<Step>)
    requires Start(cfg, s) && Legal(cfg, s, steps)
    ensures Delivered(cfg, Run(cfg, s, steps))
    ensures OneRowPerKey(cfg.h, Run(cfg, s, steps).wb.db)
  {
    hide Start, Legal, Run, Delivered, TailersCovered, Acknowledged, WS.Inv, OneRowPerKey, HandIdle;
    StartHolds(cfg, s);
    RunKeepsInv(cfg, s, steps);
    InvDelivers(cfg, Run(cfg, s, steps));
    WS.InvMeans(cfg.wb, cfg.h, Run(cfg, s, steps).wb);
  }

  /** What the endpoint makes of a request: a disabled device and a full write buffer take nothing in; else the
      storable entries are accepted and the others rejected. */
  lemma HandleMeans(cfg: Config, s: State, i: nat, disabled: bool)
    requires i < |s.requests|
    ensures var r := AfterHandle(cfg, s, i, disabled);
            var full := |s.wb.queue| + s.wb.retryRows >= cfg.wb.maxPending;
            && |r.requests| == |s.requests| && r.requests[i].chunk == s.requests[i].chunk
            && r.requests[i].reply == (if disabled then Barred else if full then Busy else Handled)
            && (disabled || full ==> r.wb == s.wb && r.rejected == s.rejected)
            && (!disabled && !full ==>
                  && r.wb.accepted == s.wb.accepted + multiset(Storables(s.requests[i].chunk))
                  && r.rejected == s.rejected + Rejects(s.requests[i].chunk)
                  && (Storables(s.requests[i].chunk) == [] ==> r.wb == s.wb))
  {
    hide Storable;
  }

  /** A failed resend ends the round with the tailers untouched; a round without entries commits nothing;
      positions move to where the poll ended, and are in the state file only if that was written. */
  lemma SenderMeans(cfg: Config, s: State, step: Step)
    requires Enabled(cfg, s, step) && |s.tailers| <= |cfg.parsers|
    ensures step.GiveUp? && s.phase.resend ==> Next(cfg, s, step).phase == Top && Next(cfg, s, step).tailers == s.tailers
    ensures step.EndPolling? && s.hand == [] ==> Next(cfg, s, step).phase == Top && Next(cfg, s, step).tailers == s.tailers
    ensures step.Settle? ==>
              var t, t' := s.tailers[s.phase.next], Next(cfg, s, step).tailers[s.phase.next];
              && t'.file == t.file && t'.pending == None
              && t'.pos == (if t.pending.Some? then t.pending.value else t.pos)
              && t'.saved == (if t.pending.Some? && step.saveOk then t.pending else t.saved)
  {
    hide Polled, AfterHandle, W.Next, W.Enabled, ChunkAt, Restarted, RolledBack, Buffered;
    if step.GiveUp? { BufferedFrame(cfg, s); }
  }

  /** The requests sent so far have at least one entry and at most as many as allowed. */
  ghost predicate RequestsFit(cfg: Config, s: State) {
    forall i :: 0 <= i < |s.requests| ==> 1 <= |s.requests[i].chunk| <= cfg.chunk
  }

  lemma StepFits(cfg: Config, s: State, step: Step)
    requires Enabled(cfg, s, step) && |s.tailers| <= |cfg.parsers| && cfg.chunk >= 1 && RequestsFit(cfg, s)
    ensures RequestsFit(cfg, Next(cfg, s, step))
    ensures step.Post? ==> Next(cfg, s, step).requests[|s.requests|].chunk
                             == s.hand[s.sent..if s.sent + cfg.chunk < |s.hand| then s.sent + cfg.chunk else |s.hand|]
  {
    hide Polled, Committed, W.Next, W.Enabled, Restarted, RolledBack;
    if step.Handle? { HandleMeans(cfg, s, step.request, step.disabled); }
  }

  lemma {:induction false} AllFit(cfg: Config, s: State, steps: seq<Step>)
    requires cfg.chunk >= 1 && RequestsFit(cfg, s) && Legal(cfg, s, steps)
    ensures RequestsFit(cfg, Run(cfg, s, steps))
    decreases steps
  {
    hide RequestsFit, Next, Enabled;
    if steps != [] {
      StepFits(cfg, s, steps[0]);
      AllFit(cfg, Next(cfg, s, steps[0]), steps[1..]);
    }
  }

  /** Over every run no request is empty or has more entries than the endpoint takes. */
  lemma RequestsAccepted(cfg: Config, s: State, steps: seq<Step>, i: nat)
    requires Start(cfg, s) && Legal(cfg, s, steps) && i < |Run(cfg, s, steps).requests|
    ensures 1 <= |Run(cfg, s, steps).requests[i].chunk| <= 500
  {
    hide Legal, Run;
    AllFit(cfg, s, steps);
    assert RequestsFit(cfg, Run(cfg, s, steps));
  }

  /** Entries are dropped for the size of the disk buffer only, when a send has failed for good: then it
      keeps the newest of what it held and what was in hand, and never fewer than fit. */
  lemma DropsOnlyOverflow(cfg: Config, s: State, step: Step)
    requires Enabled(cfg, s, step) && |s.tailers| <= |cfg.parsers|
    ensures var r := Next(cfg, s, step);
            var all := s.disk + s.hand;
            var over := if cfg.maxBufferLines > 0 && |all| > cfg.maxBufferLines then |all| - cfg.maxBufferLines else 0;
            if step.GiveUp? || (step.ReceiveForbidden? && s.phase.resend)
            then r.disk == all[over..] && r.diskDropped == s.diskDropped + all[..over]
            else r.diskDropped == s.diskDropped
  {
    hide Polled, Committed, AfterHandle, W.Next, W.Enabled, ChunkAt, Restarted, RolledBack;
    if step.Handle? { HandleKeepsDisk(cfg, s, step.request, step.disabled); }
  }

  lemma HandleKeepsDisk(cfg: Config, s: State, i: nat, disabled: bool)
    requires i < |s.requests|
    ensures AfterHandle(cfg, s, i, disabled).diskDropped == s.diskDropped
  {}

  // ---------- The excluded crash ----------

  /** A crash at any point, also during a buffer resend. */
  function Crashed(s: State): State {
    s.(tailers := Restarted(s.tailers), hand := [], sent := 0, phase := Top)
  }

  /** The buffer file is removed before its entries are resent, so a crash during the resend keeps
      every entry behind the saved positions exactly when those not yet acknowledged were received
      already, or are on disk or counted as dropped. Once all are acknowledged nothing is lost. */
  lemma CrashInResend(cfg: Config, s: State)
    requires Inv(cfg, s) && Resending(s.phase)
    requires forall i :: 0 <= i < |s.tailers| ==> s.tailers[i].saved.Some?
    ensures (forall i, e :: 0 <= i < |s.tailers| && Behind(cfg, s, i, e) ==> Safe(Crashed(s), e))
       <==> (forall i, e :: 0 <= i < |s.tailers| && Behind(cfg, s, i, e) && e in s.hand[s.sent..] ==>
               Received(s, e) || e in s.disk || e in s.diskDropped)
    ensures s.sent == |s.hand| ==> forall i, e :: 0 <= i < |s.tailers| && Behind(cfg, s, i, e) ==> Safe(Crashed(s), e)
  {
    hide ParseText;
    forall i, e | 0 <= i < |s.tailers| && Behind(cfg, s, i, e) ensures Safe(s, e) {
      var t := s.tailers[i];
      assert Covered(s, cfg.parsers[i], t);
      ParseSplit(cfg.parsers[i], t, t.start, t.saved.value, t.pos);
    }
    assert s.hand == s.hand[..s.sent] + s.hand[s.sent..];
    assert forall e :: e in s.hand ==> Received(s, e) || e in s.hand[s.sent..];
  }

  /** The entry lies behind the position in the state file of tailer `i`. */
  ghost predicate Behind(cfg: Config, s: State, i: nat, e: Entry) {
    i < |s.tailers| && i < |cfg.parsers| && s.tailers[i].saved.Some? &&
    var t := s.tailers[i];
    t.start <= t.saved.value <= |t.file| && e in ParseText(cfg.parsers[i], t.file[t.start..t.saved.value])
  }

  /** From the send of the only polled entry to the resend of the buffer. */
  lemma FailAndTake(cfg: Config, s: State, t: TailerState, e: Entry) returns (steps: seq<Step>, r: State)
    requires |cfg.parsers| == 1 && cfg.maxBufferLines == 10
    requires s.tailers == [t] && t.pending.Some? && s.phase == Waiting(false, 0) && s.hand == [e] && s.disk == []
    ensures Legal(cfg, s, steps) && r == Run(cfg, s, steps)
    ensures r == s.(tailers := [Committed(t, true)], sent := 0, phase := Sending(true), diskDropped := r.diskDropped)
    ensures r.diskDropped == s.diskDropped
  {
    hide Legal, Run, Committed;
    var s5 := s.(disk := [e], hand := [], sent := 0, phase := Settling(0));
    var s6 := s5.(tailers := [Committed(t, true)], phase := Settling(1));
    var s7 := s6.(phase := Top);
    r := s7.(hand := [e], disk := [], phase := Sending(true));
    BufferOne(cfg, s, e);
    SettleOne(cfg, s5, t);
    RunNothing(cfg, r);
    RunFrom(cfg, s7, TakeBuffer, r, []);
    RunFrom(cfg, s6, EndSettling, s7, [TakeBuffer] + []);
    RunFrom(cfg, s5, Settle(true), s6, [EndSettling] + ([TakeBuffer] + []));
    RunFrom(cfg, s, GiveUp, s5, [Settle(true)] + ([EndSettling] + ([TakeBuffer] + [])));
    steps := [GiveUp] + ([Settle(true)] + ([EndSettling] + ([TakeBuffer] + [])));
  }

  lemma BufferOne(cfg: Config, s: State, e: Entry)
    requires cfg.maxBufferLines == 10 && |s.tailers| <= |cfg.parsers|
    requires s.phase == Waiting(false, 0) && s.hand == [e] && s.disk == []
    ensures Next(cfg, s, GiveUp) == s.(disk := [e], hand := [], sent := 0, phase := Settling(0))
  {
    assert [] + [e] == [e] && s.diskDropped + [] == s.diskDropped;
  }

  lemma SettleOne(cfg: Config, s: State, t: TailerState)
    requires |cfg.parsers| == 1 && s.tailers == [t] && s.phase == Settling(0)
    ensures Next(cfg, s, Settle(true)) == s.(tailers := [Committed(t, true)], phase := Settling(1))
  {
    hide Committed;
  }

  lemma RunNothing(cfg: Config, s: State)
    ensures Legal(cfg, s, []) && Run(cfg, s, []) == s
  {}

  /** From the start to the send of the only polled entry. */
  lemma PollAndPost(cfg: Config, s: State, t: TailerState, e: Entry) returns (s4: State)
    requires |cfg.parsers| == 1 && cfg.chunk == 1 && s.tailers == [t] && s.phase == Top && s.disk == [] && s.requests == []
    requires Polled(cfg.parsers[0], t).1 == [e]
    ensures s4 == s.(tailers := [Polled(cfg.parsers[0], t).0], hand := [e], sent := 0,
                     requests := [Request([e], Open)], phase := Waiting(false, 0))
    ensures forall rest :: Legal(cfg, s4, rest) ==>
              var steps := [StartPolling] + ([PollTailer(true)] + ([EndPolling] + ([Post] + rest)));
              Legal(cfg, s, steps) && Run(cfg, s, steps) == Run(cfg, s4, rest)
  {
    hide Polled, Legal, Run;
    var s1 := s.(hand := [], sent := 0, phase := Polling(0));
    var s2 := s1.(tailers := [Polled(cfg.parsers[0], t).0], hand := [e], phase := Polling(1));
    var s3 := s2.(phase := Sending(false));
    s4 := s3.(requests := [Request([e], Open)], phase := Waiting(false, 0));
    assert Next(cfg, s1, PollTailer(true)) == s2;
    assert ChunkAt(cfg, s3) == [e];
    assert Next(cfg, s3, Post) == s4;
    forall rest | Legal(cfg, s4, rest)
      ensures var steps := [StartPolling] + ([PollTailer(true)] + ([EndPolling] + ([Post] + rest)));
              Legal(cfg, s, steps) && Run(cfg, s, steps) == Run(cfg, s4, rest)
    {
      RunFrom(cfg, s3, Post, s4, rest);
      RunFrom(cfg, s2, EndPolling, s3, [Post] + rest);
      RunFrom(cfg, s1, PollTailer(true), s2, [EndPolling] + ([Post] + rest));
      RunFrom(cfg, s, StartPolling, s1, [PollTailer(true)] + ([EndPolling] + ([Post] + rest)));
    }
  }

  /** Such a crash does lose an entry: one line is polled, its send fails, it is buffered and
      passed, the buffer is taken for a resend, and the daemon dies before anything was posted. */
  lemma LostInResend(h: Hash, e: Entry) returns (cfg: Config, s: State, steps: seq<Step>)
    ensures Start(cfg, s) && Legal(cfg, s, steps) && Resending(Run(cfg, s, steps).phase)
    ensures var r := Crashed(Run(cfg, s, steps));
            && |r.tailers| == 1 && |cfg.parsers| == 1 && r.tailers[0].start <= r.tailers[0].pos <= |r.tailers[0].file|
            && e in ParseText(cfg.parsers[0], r.tailers[0].file[r.tailers[0].start..r.tailers[0].pos])
            && !Accounted(cfg, r, e)
  {
    hide Legal, Run, Next, Enabled, Accounted, Consumed, ParseText;
    var parser: Parser := _ => Some(e);
    cfg := Config(h, [parser], 1, 10, W.Config(1, 1));
    var t := TailerState("x\n", 0, 0, None, Some(0));
    s := State([t], Top, [], 0, [], [], [], [], W.Init([]));
    OneLine(parser, e);
    assert t.file[0..] == t.file[0..2] == "x\n";
    var s4 := PollAndPost(cfg, s, t, e);
    var rest, r := FailAndTake(cfg, s4, Polled(parser, t).0, e);
    steps := [StartPolling] + ([PollTailer(true)] + ([EndPolling] + ([Post] + rest)));
    assert Run(cfg, s, steps) == r;
    NothingKept(cfg, r, e);
    assert Crashed(r).tailers == [t.(pos := 2, saved := Some(2))];
  }

  lemma OneLine(parser: Parser, e: Entry)
    requires parser("x\n") == Some(e)
    ensures Consumed("x\n", MAX_LINES_PER_POLL) == 2 && ParseText(parser, "x\n") == [e]
  {
    assert "x\n"[1..] == "\n";
    assert NextLine("\n") == 1;
    assert NextLine("x\n") == 2 && "x\n"[2..] == "" && "x\n"[..2] == "x\n";
    ConsumedStep("x\n", MAX_LINES_PER_POLL);
    ConsumedStep("", MAX_LINES_PER_POLL - 1);
    ParseStep(parser, "x\n");
    ParseStep(parser, "");
  }

  lemma RunFrom(cfg: Config, s: State, step: Step, s': State, rest: seq<Step>)
    requires |s.tailers| <= |cfg.parsers| && Enabled(cfg, s, step) && Next(cfg, s, step) == s'
    requires Legal(cfg, s', rest)
    ensures Legal(cfg, s, [step] + rest) && Run(cfg, s, [step] + rest) == Run(cfg, s', rest)
  {
    hide Next, Enabled;
    assert ([step] + rest)[1..] == rest;
  }

  lemma NothingKept(cfg: Config, s: State, e: Entry)
    requires s.wb == W.Init([]) && s.disk == [] && s.diskDropped == [] && s.rejected == []
    ensures !Accounted(cfg, Crashed(s), e)
  {}
}
