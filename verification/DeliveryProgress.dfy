/** What the delivery path achieves when the server answers: from any state between two rounds a run of
    one round empties the disk buffer, and takes the entries of all new lines to the server. */
module DeliveryProgress {
  import opened Wrappers
  import opened LogEntries
  import opened Tailer
  import opened Ingest
  import opened Delivery
  import opened DeliverySafety
  import W = WriteBufferModel
  import WS = WriteBufferSafety

  // ---------- Runs, step by step ----------

  ghost predicate LeadsTo(cfg: Config, s: State, s': State) {
    exists steps :: Legal(cfg, s, steps) && Run(cfg, s, steps) == s'
  }

  lemma {:induction false} RunAppend(cfg: Config, s: State, steps: seq<Step>, step: Step)
    requires Legal(cfg, s, steps)
    requires var r := Run(cfg, s, steps); Enabled(cfg, r, step) && |r.tailers| <= |cfg.parsers|
    ensures Legal(cfg, s, steps + [step]) && Run(cfg, s, steps + [step]) == Next(cfg, Run(cfg, s, steps), step)
    decreases steps
  {
    hide Next, Enabled;
    if steps == [] {
      assert steps + [step] == [step] && [step][1..] == [];
    } else {
      RunAppend(cfg, Next(cfg, s, steps[0]), steps[1..], step);
      assert (steps + [step])[1..] == steps[1..] + [step];
    }
  }

  lemma Stay(cfg: Config, s: State)
    ensures LeadsTo(cfg, s, s)
  {
    RunNothing(cfg, s);
  }

  lemma Go(cfg: Config, s: State, r: State, step: Step)
    requires LeadsTo(cfg, s, r) && Enabled(cfg, r, step) && |r.tailers| <= |cfg.parsers|
    ensures LeadsTo(cfg, s, Next(cfg, r, step))
  {
    hide Next, Enabled, Legal, Run;
    var steps :| Legal(cfg, s, steps) && Run(cfg, s, steps) == r;
    RunAppend(cfg, s, steps, step);
  }

  // ---------- Sending ----------

  /** All that was received stays received, and nothing else of the daemon changed. */
  ghost predicate Onward(s: State, r: State) {
    && r.tailers == s.tailers && r.hand == s.hand && r.disk == s.disk && r.diskDropped == s.diskDropped
    && r.wb.retryRows == s.wb.retryRows && (forall e :: Received(s, e) ==> Received(r, e))
  }

  /** One request, answered and acknowledged. */
  lemma SendChunk(cfg: Config, s0: State, s: State) returns (r: State)
    requires LeadsTo(cfg, s0, s) && s.phase.Sending? && s.sent < |s.hand| && |s.tailers| <= |cfg.parsers|
    requires cfg.chunk >= 1 && s.wb.retryRows < cfg.wb.maxPending
    ensures LeadsTo(cfg, s0, r) && Onward(s, r) && r.phase == s.phase
    ensures s.sent < r.sent <= |s.hand| && AllReceived(r, s.hand[s.sent..r.sent])
  {
    hide LeadsTo;
    var s2 := PostNext(cfg, s0, s);
    var chunk := ChunkAt(cfg, s);
    Go(cfg, s0, s2, Handle(|s.requests|, false));
    Answered(cfg, s2, |s.requests|, chunk);
    var s3 := AfterHandle(cfg, s2, |s.requests|, false);
    r := AnswerTaken(cfg, s0, s3, chunk);
  }

  /** The flush thread takes the queue, and the next request is posted. */
  lemma PostNext(cfg: Config, s0: State, s: State) returns (r: State)
    requires LeadsTo(cfg, s0, s) && s.phase.Sending? && s.sent < |s.hand| && |s.tailers| <= |cfg.parsers|
    ensures LeadsTo(cfg, s0, r) && Onward(s, r) && r.sent == s.sent && r.wb.queue == []
    ensures r.requests == s.requests + [Request(ChunkAt(cfg, s), Open)] && r.phase == Waiting(s.phase.resend, |s.requests|)
  {
    hide LeadsTo;
    Go(cfg, s0, s, Background(W.TakeQueue));
    var s1 := s.(wb := W.QueueTaken(s.wb));
    Go(cfg, s0, s1, Post);
    r := s1.(requests := s.requests + [Request(ChunkAt(cfg, s), Open)], phase := Waiting(s.phase.resend, |s.requests|));
    assert ChunkAt(cfg, s1) == ChunkAt(cfg, s);
  }

  lemma AnswerTaken(cfg: Config, s0: State, s: State, chunk: seq<Entry>) returns (r: State)
    requires LeadsTo(cfg, s0, s) && s.phase.Waiting? && s.phase.request < |s.requests| && |s.tailers| <= |cfg.parsers|
    requires s.requests[s.phase.request] == Request(chunk, Handled)
    ensures LeadsTo(cfg, s0, r) && Onward(s, r) && r == s.(sent := s.sent + |chunk|, phase := Sending(s.phase.resend))
  {
    hide LeadsTo;
    Go(cfg, s0, s, ReceiveOk);
    r := s.(sent := s.sent + |chunk|, phase := Sending(s.phase.resend));
  }

  /** A request handled while the write buffer has room is taken in. */
  lemma Answered(cfg: Config, s: State, i: nat, chunk: seq<Entry>)
    requires i < |s.requests| && s.requests[i] == Request(chunk, Open)
    requires s.wb.queue == [] && s.wb.retryRows < cfg.wb.maxPending
    ensures var r := AfterHandle(cfg, s, i, false);
            && r == s.(requests := s.requests[i := Request(chunk, Handled)], rejected := r.rejected, wb := r.wb)
            && r.wb.retryRows == s.wb.retryRows
            && (forall e :: Received(s, e) ==> Received(r, e)) && AllReceived(r, chunk)
  {
    hide Storable;
    var r := AfterHandle(cfg, s, i, false);
    forall e | e in chunk ensures Received(r, e) {
      Sorted(chunk, e);
      assert e in Storables(chunk) ==> e in multiset(Storables(chunk));
    }
  }

  /** Each entry of a request is storable or rejected. */
  lemma {:induction false} Sorted(logs: seq<Entry>, e: Entry)
    requires e in logs
    ensures e in Storables(logs) || e in Rejects(logs)
  {
    hide Storable;
    if e != logs[0] { Sorted(logs[1..], e); }
  }

  lemma {:induction false} SendAll(cfg: Config, s0: State, s: State) returns (r: State)
    requires LeadsTo(cfg, s0, s) && s.phase.Sending? && s.sent <= |s.hand| && |s.tailers| <= |cfg.parsers|
    requires cfg.chunk >= 1 && s.wb.retryRows < cfg.wb.maxPending && AllReceived(s, s.hand[..s.sent])
    ensures LeadsTo(cfg, s0, r) && Onward(s, r) && r.phase == s.phase
    ensures r.sent == |r.hand| && AllReceived(r, r.hand)
    decreases |s.hand| - s.sent
  {
    hide LeadsTo, Received;
    if s.sent == |s.hand| {
      r := s;
      assert s.hand[..s.sent] == s.hand;
    } else {
      var n := SendChunk(cfg, s0, s);
      assert n.hand[..n.sent] == s.hand[..s.sent] + s.hand[s.sent..n.sent];
      r := SendAll(cfg, s0, n);
    }
  }

  // ---------- Polling and settling ----------

  /** The tailers from i on have been polled, and their entries are in hand. */
  ghost predicate PolledFrom(cfg: Config, s: State, r: State, i: nat) {
    && |r.tailers| == |s.tailers| <= |cfg.parsers| && s.hand <= r.hand
    && (forall j :: 0 <= j < i && j < |s.tailers| ==> r.tailers[j] == s.tailers[j])
    && forall j :: i <= j < |s.tailers| ==>
         && r.tailers[j] == Polled(cfg.parsers[j], s.tailers[j]).0
         && forall e :: e in Polled(cfg.parsers[j], s.tailers[j]).1 ==> e in r.hand
  }

  lemma {:induction false} PollAll(cfg: Config, s0: State, s: State) returns (r: State)
    requires LeadsTo(cfg, s0, s) && s.phase.Polling? && s.phase.next <= |s.tailers| <= |cfg.parsers|
    ensures LeadsTo(cfg, s0, r) && PolledFrom(cfg, s, r, s.phase.next)
    ensures r == s.(tailers := r.tailers, hand := r.hand, phase := Polling(|s.tailers|))
    decreases |s.tailers| - s.phase.next
  {
    hide LeadsTo, Polled;
    var i := s.phase.next;
    if i == |s.tailers| {
      r := s;
      assert s.phase == Polling(|s.tailers|);
    } else {
      PollNext(cfg, s);
      Go(cfg, s0, s, PollTailer(true));
      hide Next;
      var n := Next(cfg, s, PollTailer(true));
      r := PollAll(cfg, s0, n);
      PolledOnce(cfg, s, n, r, i);
    }
  }

  lemma PollNext(cfg: Config, s: State)
    requires s.phase.Polling? && s.phase.next < |s.tailers| <= |cfg.parsers|
    ensures var i := s.phase.next;
            Next(cfg, s, PollTailer(true))
              == s.(tailers := s.tailers[i := Polled(cfg.parsers[i], s.tailers[i]).0],
                    hand := s.hand + Polled(cfg.parsers[i], s.tailers[i]).1, phase := Polling(i + 1))
  {
    hide Polled;
  }

  lemma SettleNext(cfg: Config, s: State)
    requires s.phase.Settling? && s.phase.next < |s.tailers| <= |cfg.parsers|
    ensures var i := s.phase.next;
            Next(cfg, s, Settle(true)) == s.(tailers := s.tailers[i := Committed(s.tailers[i], true)], phase := Settling(i + 1))
  {
    hide Committed;
  }

  lemma PolledOnce(cfg: Config, s: State, n: State, r: State, i: nat)
    requires i < |s.tailers| <= |cfg.parsers| && PolledFrom(cfg, n, r, i + 1)
    requires n.tailers == s.tailers[i := Polled(cfg.parsers[i], s.tailers[i]).0]
    requires n.hand == s.hand + Polled(cfg.parsers[i], s.tailers[i]).1
    ensures PolledFrom(cfg, s, r, i)
  {
    hide Polled;
    var es := Polled(cfg.parsers[i], s.tailers[i]).1;
    forall j | i <= j < |s.tailers|
      ensures r.tailers[j] == Polled(cfg.parsers[j], s.tailers[j]).0
      ensures forall e :: e in Polled(cfg.parsers[j], s.tailers[j]).1 ==> e in r.hand
    {
      if j == i {
        assert r.tailers[j] == n.tailers[j];
        forall e | e in es ensures e in r.hand { assert e in n.hand; }
      } else {
        assert n.tailers[j] == s.tailers[j];
      }
    }
  }

  lemma {:induction false} SettleAll(cfg: Config, s0: State, s: State) returns (r: State)
    requires LeadsTo(cfg, s0, s) && s.phase.Settling? && s.phase.next <= |s.tailers| <= |cfg.parsers|
    ensures LeadsTo(cfg, s0, r) && r == s.(tailers := r.tailers, phase := Settling(|s.tailers|))
    ensures |r.tailers| == |s.tailers| && forall j :: 0 <= j < |s.tailers| ==>
              r.tailers[j] == if j < s.phase.next then s.tailers[j] else Committed(s.tailers[j], true)
    decreases |s.tailers| - s.phase.next
  {
    hide LeadsTo, Committed;
    var i := s.phase.next;
    if i == |s.tailers| {
      r := s;
      assert s.phase == Settling(|s.tailers|);
    } else {
      SettleNext(cfg, s);
      Go(cfg, s0, s, Settle(true));
      hide Next;
      var n := Next(cfg, s, Settle(true));
      r := SettleAll(cfg, s0, n);
    }
  }

  // ---------- A round ----------

  /** Where a poll of the text behind the position would end. */
  function PollEnd(t: TailerState): nat {
    if |t.file| <= t.pos then t.pos else t.pos + Consumed(t.file[t.pos..], MAX_LINES_PER_POLL)
  }

  /** The tailer's new lines, at most 5000, are with the server, and it has passed them for good. */
  ghost predicate Arrived(cfg: Config, r: State, parser: Parser, t: TailerState, t': TailerState) {
    && t.file == t'.file && PollEnd(t) <= |t.file| && t'.pos == PollEnd(t)
    && (|t.file| > t.pos ==> t'.saved == Some(t'.pos) && forall e :: e in ParseText(parser, t.file[t.pos..t'.pos]) ==> Received(r, e))
  }

  lemma ArrivedIs(cfg: Config, r: State, parser: Parser, t: TailerState, t': TailerState)
    requires WellPlaced(t)
    requires t' == Committed(Polled(parser, t).0, true) && forall e :: e in Polled(parser, t).1 ==> Received(r, e)
    ensures Arrived(cfg, r, parser, t, t')
  {
    hide Received, ParseText, Consumed;
    if |t.file| > t.pos {
      var p := t.pos + Consumed(t.file[t.pos..], MAX_LINES_PER_POLL);
      assert Polled(parser, t) == (t.(pending := Some(p)), ParseText(parser, t.file[t.pos..p]));
      assert t'.pos == p && t'.saved == Some(p) && t'.file == t.file;
    } else {
      assert Polled(parser, t) == (t, []) && t'.file == t.file && t'.pos == t.pos;
    }
  }

  lemma SameReceived(s: State, r: State)
    requires r.wb == s.wb && r.rejected == s.rejected
    ensures forall e :: Received(s, e) <==> Received(r, e)
  {}

  /** Resending what is on disk, as far as there is anything. */
  lemma ResendFirst(cfg: Config, s: State) returns (r: State)
    requires s.phase == Top && |s.tailers| <= |cfg.parsers| && cfg.chunk >= 1 && s.wb.retryRows < cfg.wb.maxPending
    ensures LeadsTo(cfg, s, r) && r.phase == Polling(0) && r.hand == [] && r.sent == 0 && r.disk == []
    ensures r.tailers == s.tailers && r.diskDropped == s.diskDropped && r.wb.retryRows == s.wb.retryRows
    ensures AllReceived(r, s.disk) && forall e :: Received(s, e) ==> Received(r, e)
  {
    hide LeadsTo, Received;
    Stay(cfg, s);
    if s.disk == [] {
      Go(cfg, s, s, StartPolling);
      r := s.(hand := [], sent := 0, phase := Polling(0));
      assert r == Next(cfg, s, StartPolling);
      SameReceived(s, r);
    } else {
      Go(cfg, s, s, TakeBuffer);
      var a := s.(hand := s.disk, disk := [], sent := 0, phase := Sending(true));
      assert a == Next(cfg, s, TakeBuffer);
      SameReceived(s, a);
      var b := SendAll(cfg, s, a);
      Go(cfg, s, b, AllSent);
      r := b.(hand := [], sent := 0, phase := Polling(0));
      assert r == Next(cfg, b, AllSent);
      SameReceived(b, r);
    }
  }

  /** Sending what was polled and committing the tailers. */
  lemma SendPolled(cfg: Config, s0: State, s: State) returns (r: State)
    requires LeadsTo(cfg, s0, s) && s.phase == Polling(|s.tailers|) && s.hand != [] && |s.tailers| <= |cfg.parsers|
    requires cfg.chunk >= 1 && s.wb.retryRows < cfg.wb.maxPending
    ensures LeadsTo(cfg, s0, r) && r.phase == Top && r.hand == [] && r.disk == s.disk && r.diskDropped == s.diskDropped
    ensures AllReceived(r, s.hand) && forall e :: Received(s, e) ==> Received(r, e)
    ensures |r.tailers| == |s.tailers| && forall j :: 0 <= j < |s.tailers| ==> r.tailers[j] == Committed(s.tailers[j], true)
  {
    hide LeadsTo, Committed, Received;
    Go(cfg, s0, s, EndPolling);
    var a := s.(sent := 0, phase := Sending(false));
    assert a == Next(cfg, s, EndPolling);
    SameReceived(s, a);
    var b := SendAll(cfg, s0, a);
    Go(cfg, s0, b, AllSent);
    var c := b.(hand := [], sent := 0, phase := Settling(0));
    assert c == Next(cfg, b, AllSent);
    var d := SettleAll(cfg, s0, c);
    Go(cfg, s0, d, EndSettling);
    r := d.(phase := Top);
    assert r == Next(cfg, d, EndSettling);
    SameReceived(b, r);
  }

  /** Between two rounds, whatever happened before: if the server answers and its write buffer has room,
      one round takes all entries on disk and the entries of up to 5000 new lines of each log to the server,
      drops nothing, and moves and saves the positions behind those lines; unless no new line had an entry. */
  lemma RoundDelivers(cfg: Config, s: State) returns (r: State)
    requires cfg.Valid() && Inv(cfg, s) && s.phase == Top && s.wb.retryRows < cfg.wb.maxPending
    ensures |s.tailers| <= |cfg.parsers|
    ensures LeadsTo(cfg, s, r) && r.disk == [] && r.diskDropped == s.diskDropped && AllReceived(r, s.disk)
    ensures r.phase == Top ==> r.hand == [] && |r.tailers| == |s.tailers| && forall i :: 0 <= i < |s.tailers| ==>
              Arrived(cfg, r, cfg.parsers[i], s.tailers[i], r.tailers[i])
    ensures r.phase != Top ==> forall i :: 0 <= i < |s.tailers| ==> Polled(cfg.parsers[i], s.tailers[i]).1 == []
  {
    hide LeadsTo, Polled, Committed, Arrived, Received, Inv, WellPlaced;
    InvPlaced(cfg, s);
    var a := ResendFirst(cfg, s);
    var b := PollAll(cfg, s, a);
    SameReceived(a, b);
    if b.hand == [] {
      r := b;
      forall i | 0 <= i < |s.tailers| ensures Polled(cfg.parsers[i], s.tailers[i]).1 == [] {
        NoneInHand(Polled(cfg.parsers[i], s.tailers[i]).1, b.hand);
      }
    } else {
      r := SendPolled(cfg, s, b);
      forall i | 0 <= i < |s.tailers| ensures Arrived(cfg, r, cfg.parsers[i], s.tailers[i], r.tailers[i]) {
        ArrivedIs(cfg, r, cfg.parsers[i], s.tailers[i], r.tailers[i]);
      }
    }
  }

  lemma InvPlaced(cfg: Config, s: State)
    requires Inv(cfg, s)
    ensures |s.tailers| <= |cfg.parsers| && forall i :: 0 <= i < |s.tailers| ==> WellPlaced(s.tailers[i])
  {
    hide Acknowledged, HandIdle, WS.Inv, WellPlaced, ParseText;
    assert forall i :: 0 <= i < |s.tailers| ==> Covered(s, cfg.parsers[i], s.tailers[i]);
  }

  /** In every state of every run that is between two rounds. */
  lemma RunDelivers(cfg: Config, s: State, steps: seq<Step>) returns (r: State)
    requires Start(cfg, s) && Legal(cfg, s, steps)
    requires var m := Run(cfg, s, steps); m.phase == Top && m.wb.retryRows < cfg.wb.maxPending
    ensures var m := Run(cfg, s, steps);
            && LeadsTo(cfg, m, r) && r.disk == [] && r.diskDropped == m.diskDropped && AllReceived(r, m.disk)
            && |m.tailers| <= |cfg.parsers|
            && (r.phase == Top ==> |r.tailers| == |m.tailers| && forall i :: 0 <= i < |m.tailers| ==>
                  Arrived(cfg, r, cfg.parsers[i], m.tailers[i], r.tailers[i]))
            && (r.phase != Top ==> forall i :: 0 <= i < |m.tailers| ==> Polled(cfg.parsers[i], m.tailers[i]).1 == [])
  {
    hide LeadsTo, Polled, Arrived, Received, Inv, Legal, Run;
    StartHolds(cfg, s);
    RunKeepsInv(cfg, s, steps);
    InvPlaced(cfg, Run(cfg, s, steps));
    r := RoundDelivers(cfg, Run(cfg, s, steps));
  }

  lemma NoneInHand(es: seq<Entry>, hand: seq<Entry>)
    requires hand == [] && forall e :: e in es ==> e in hand
    ensures es == []
  {
    if es != [] { FirstIsIn(es); }
  }

  lemma FirstIsIn(es: seq<Entry>)
    requires es != []
    ensures es[0] in es
  {}
}
