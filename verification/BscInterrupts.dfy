/** What an interrupt does. */
module BscInterrupts {
  // The effect of the interrupt handler and of the timer, on what the device had received when they were called.

  import opened Bytes
  import opened BscWorld
  import opened BscDriver
  import opened BscInvariant
  import opened BscService
  import opened BscActions
  import opened BscResponse
  import opened BscMachine
  import opened BscBooks
  import opened BscPromises
  import opened BscLatency
  import opened BscExchange

  // ---- With the bus moving ----

  /** All that the FIFO has ever taken. */
  ghost function Stream(rx: RxLog): seq<byte> {
    Flatten(rx.writes) + rx.partial
  }

  /** More may have arrived, and no less has been taken out of the FIFO. */
  ghost predicate Draws(w: World, after: World) {
    && Stream(w.rx) <= Stream(after.rx)
    && |Stream(after.rx)| - |after.h.rxFifo| >= |Stream(w.rx)| - |w.h.rxFifo|
    && after.rx.leftover == w.rx.leftover && w.rx.writes <= after.rx.writes && w.rx.cuts <= after.rx.cuts
  }

  lemma DrawsChain(a: World, b: World, c: World)
    requires Draws(a, b) && Draws(b, c)
    ensures Draws(a, c)
  {
    hide Stream;
  }

  lemma DrawsSelf(w: World)
    ensures Draws(w, w)
  {
  }

  /** Receiving has gone on between two worlds, and nothing was taken out of the FIFO. */
  ghost predicate SameReceiver(w: World, after: World) {
    after.rx == w.rx.(burst := after.rx.burst) && after.h.rxFifo == w.h.rxFifo
  }

  lemma SameDraws(w: World, middle: World, after: World)
    requires Draws(w, middle) && SameReceiver(middle, after)
    ensures Draws(w, after)
  {
    assert Stream(after.rx) == Stream(middle.rx);
    hide Stream;
  }

  lemma EndWriteStreams(w: World)
    ensures Stream(EndWrite(w).rx) == Stream(w.rx)
  {
    FlattenAppend(w.rx.writes, [w.rx.partial]);
    FlattenOne(w.rx.partial);
    hide Flatten;
    assert Stream(EndWrite(w).rx) == (Flatten(w.rx.writes) + w.rx.partial) + [];
  }

  lemma SendStreams(w: World, b: byte)
    ensures Draws(w, Happen(w, Send(b)))
  {
    var after := Happen(w, Send(b));
    hide Flatten;
    if w.h.rxBusy && |w.h.rxFifo| < FIFO_SIZE {
      Reassociate(Flatten(w.rx.writes), w.rx.partial, [b]);
      assert Stream(after.rx) == Stream(w.rx) + [b];
    } else {
      assert Stream(after.rx) == Stream(w.rx);
    }
  }

  lemma HappenDraws(w: World, e: Event)
    ensures Draws(w, Happen(w, e))
  {
    match e
    case Start => assert Stream(Happen(w, e).rx) == Stream(w.rx);
    case Send(b) => SendStreams(w, b);
    case Stop =>
      EndWriteStreams(w);
      assert !w.h.rxBusy ==> Stream(Happen(w, e).rx) == Stream(w.rx);
      hide Stream;
    case Clock =>
  }

  lemma {:induction false} HappenAllDraws(w: World, events: seq<Event>)
    ensures Draws(w, HappenAll(w, events))
    decreases |events|
  {
    hide Happen, Draws;
    DrawsSelf(w);
    if events != [] {
      var next := Happen(w, events[0]);
      HappenDraws(w, events[0]);
      HappenAllDraws(next, events[1..]);
      DrawsChain(w, next, HappenAll(w, events));
    }
  }

  lemma TickDraws(w: World)
    ensures Draws(w, Tick(w))
  {
    hide Draws;
    DrawsSelf(w);
    if w.script != [] {
      var base := w.(script := w.script[1..]);
      HappenAllDraws(base, w.script[0]);
      SameDraws(w, w, base);
      DrawsChain(w, base, Tick(w));
    }
  }

  lemma PopDraws(w: World)
    ensures Draws(w, ReadDr(w).0)
  {
    TickDraws(w);
    hide Tick, Stream;
  }

  lemma DrainByteDraws(w: World)
    ensures Draws(w, DrainByte(w))
  {
    hide Tick, Draws;
    PopDraws(w);
    SameDraws(w, ReadDr(w).0, DrainByte(w));
  }

  lemma {:induction false} DrainDraws(w: World)
    ensures Draws(w, DrainRx(w))
    decreases |w.script|, |w.h.rxFifo|
  {
    hide Tick, DrainByte, BusOnly, Draws;
    TickDraws(w);
    TickIsBusOnly(w);
    var seen := ReadFr(w);
    if seen.h.rxFifo != [] {
      DrainByteShrinks(seen);
      DrainByteDraws(seen);
      DrainDraws(DrainByte(seen));
      DrawsChain(w, seen, DrainByte(seen));
      DrawsChain(w, DrainByte(seen), DrainRx(w));
    }
  }

  lemma ErrorsDraw(w: World)
    ensures Draws(w, ServiceErrors(w))
  {
    hide Tick, Draws;
    var read := ReadRsr(w);
    var counted := CountErrors(read);
    TickDraws(w);
    SameDraws(w, read, counted);
    TickDraws(counted);
    DrawsChain(w, counted, Tick(counted));
    SameDraws(w, Tick(counted), WriteRsr(counted));
  }

  lemma SetReadyDraws(w: World, level: bool, edge: Edge)
    ensures Draws(w, SetReady(w, level, edge))
  {
    hide Tick, Draws;
    DrawsSelf(w);
    TickDraws(w);
    if w.d.hasReady {
      SameDraws(w, Tick(w), SetReady(w, level, edge));
    }
  }

  lemma CloseDraws(w: World, cut: nat)
    ensures Draws(w, CloseBurst(w, cut))
  {
    assert Stream(CloseBurst(w, cut).rx) == Stream(w.rx);
    hide Stream;
  }

  lemma FinishDraws(w: World)
    ensures Draws(w, FinishRx(w))
  {
    hide SetReady, CloseBurst, Draws;
    DrawsSelf(w);
    if w.d.InBurst() {
      var cut := |w.rx.writes|;
      var cleared := w.(d := w.d.(tx := [], loaded := 0));
      var raised := SetReady(cleared, true, Ack(cleared.d.requestGeneration));
      SameDraws(w, w, cleared);
      SetReadyDraws(cleared, true, Ack(cleared.d.requestGeneration));
      SetReadyDraws(raised, false, Release);
      DrawsChain(w, cleared, raised);
      DrawsChain(w, raised, AckRequest(cleared));
      CloseDraws(w, cut);
      CloseDraws(AckRequest(cleared), cut);
      DrawsChain(w, AckRequest(cleared), CloseBurst(AckRequest(cleared), cut));
    }
  }

  lemma {:induction false} LoadDraws(w: World)
    ensures Draws(w, LoadTx(w))
    decreases |w.d.tx| - w.d.loaded
  {
    hide Tick, WriteNext, Draws;
    DrawsSelf(w);
    if w.d.Unloaded() {
      TickIsBusOnly(w);
      TickDraws(w);
      var seen := ReadFr(w);
      if !FlagsOf(seen.h).txFull {
        NextDraws(seen);
        WriteNextAdvances(seen);
        LoadDraws(WriteNext(seen));
        DrawsChain(w, seen, WriteNext(seen));
        DrawsChain(w, WriteNext(seen), LoadTx(w));
      }
    }
  }

  lemma NextDraws(w: World)
    requires w.d.loaded < |w.d.tx|
    ensures Draws(w, WriteNext(w))
  {
    hide Tick, Draws;
    TickDraws(w);
    SameDraws(w, Tick(w), WriteNext(w));
  }

  lemma RefillDraws(w: World)
    ensures Draws(w, RefillTx(w))
  {
    hide LoadTx, Tick, Draws;
    LoadDraws(w);
    TickDraws(LoadTx(w));
    DrawsChain(w, LoadTx(w), Tick(LoadTx(w)));
    SameDraws(w, Tick(LoadTx(w)), RefillTx(w));
  }

  /** What the FIFO holds after a service run has arrived since the run began. */
  lemma ServiceDraws(w: World)
    ensures Draws(w, Service(w)) && |Service(w).h.rxFifo| <= |Stream(Service(w).rx)| - |Stream(w.rx)|
  {
    hide ServiceErrors, DrainRx, Tick, FinishRx, RefillTx, Stream;
    var checked := ServiceErrors(w);
    var drained := DrainRx(checked);
    var seen := Snapshot(w);
    var finished := if !FlagsOf(seen.h).rxBusy && FlagsOf(seen.h).rxEmpty then FinishRx(seen) else seen;
    ErrorsDraw(w);
    DrainDraws(checked);
    DrainIsSteady(checked);
    TickDraws(drained);
    FinishDraws(seen);
    DrawsSelf(seen);
    RefillDraws(finished);
    DrawsChain(drained, seen, finished);
    DrawsChain(drained, finished, Service(w));
    DrawsChain(w, checked, drained);
    DrawsChain(w, drained, Service(w));
  }

  /** An interrupt or a timer run that is not ignored. */
  predicate Serves(m: Machine, a: Action) {
    match a
    case Interrupt(pending, _) => pending && m.w.d.active
    case TimerRun(_) => m.w.d.active && !m.w.d.dead
    case _ => false
  }

  lemma ServedDraws(m: Machine, a: Action)
    requires Serves(m, a)
    ensures var after := Act(m, a).w;
            && Draws(m.w, after) && |after.h.rxFifo| <= |Stream(after.rx)| - |Stream(m.w.rx)|
            && after.own.delivered == m.w.own.delivered && SameLosses(m.w, after)
  {
    hide Service, Tick, Stream;
    DrawsSelf(m.w);
    var w := Under(m.w, a.script);
    SameDraws(m.w, m.w, w);
    var counted := if a.Interrupt? then CountInterrupt(w) else CountTimer(w);
    SameDraws(m.w, w, counted);
    ServiceDraws(counted);
    ServiceKeepsBooks(counted);
    TickDraws(Service(counted));
    TickKeepsBooks(Service(counted));
    DrawsChain(m.w, counted, Service(counted));
    DrawsChain(m.w, Service(counted), Tick(Service(counted)));
  }

  /** What has arrived since the open is the end of what the FIFO has ever taken. */
  lemma ArrivedOfStream(rx: RxLog)
    requires CutsOk(rx)
    ensures var before := Flatten(rx.writes[..rx.cuts[0]]);
            exists since :: Stream(rx) == before + since && Arrived(rx) == rx.leftover + since
  {
    var (before, writes) := (rx.writes[..rx.cuts[0]], Flatten(rx.writes[rx.cuts[0]..]));
    assert rx.writes == before + rx.writes[rx.cuts[0]..];
    FlattenAppend(before, rx.writes[rx.cuts[0]..]);
    Reassociate(Flatten(before), writes, rx.partial);
    Reassociate(rx.leftover, writes, rx.partial);
    hide Flatten;
    assert Stream(rx) == Flatten(before) + (writes + rx.partial);
  }

  lemma DrawnArrives(w: World, after: World)
    requires CutsOk(w.rx) && CutsOk(after.rx) && Draws(w, after)
    ensures Arrived(w.rx) <= Arrived(after.rx)
    ensures |Arrived(after.rx)| - |Arrived(w.rx)| == |Stream(after.rx)| - |Stream(w.rx)|
  {
    ArrivedOfStream(w.rx);
    ArrivedOfStream(after.rx);
    assert after.rx.cuts[0] == w.rx.cuts[0];
    var first := w.rx.cuts[0];
    assert after.rx.writes[..first] == w.rx.writes[..first];
    hide Flatten, Stream, Arrived;
    var before := Flatten(w.rx.writes[..first]);
    var older :| Stream(w.rx) == before + older && Arrived(w.rx) == w.rx.leftover + older;
    var newer :| Stream(after.rx) == before + newer && Arrived(after.rx) == w.rx.leftover + newer;
    PrefixBehind(before, older, newer);
    PrefixBehind(w.rx.leftover, older, newer);
  }

  lemma PrefixBehind(before: seq<byte>, a: seq<byte>, b: seq<byte>)
    ensures a <= b <==> before + a <= before + b
  {
    assert (before + a)[|before|..] == a && (before + b)[|before|..] == b;
    if before + a <= before + b {
      assert forall i | 0 <= i < |a| :: a[i] == (before + a)[|before| + i] == (before + b)[|before| + i] == b[i];
    }
  }

  /**
   An interrupt or a timer run takes all that had arrived when it began, whatever the bus does meanwhile: the FIFO holds
   only what has arrived since, and the rest has been delivered, waits as records or is in the work buffer, unless it
   belongs to a record that is counted as lost or to the end of a burst that overflows.
   */
  lemma InterruptTakesWhatArrived(m: Machine, a: Action)
    requires Safe(m) && Serves(m, a)
    ensures var (w, after) := (m.w, Act(m, a).w);
            && CutsOk(w.rx) && CutsOk(after.rx) && Arrived(w.rx) <= Arrived(after.rx)
            && |after.h.rxFifo| <= |Arrived(after.rx)| - |Arrived(w.rx)|
            && (after.own.lost == 0 && !after.d.overflowed ==>
                  Arrived(w.rx) <= Flatten(Datas(after.own.delivered) + after.d.queue) + after.d.work)
            && after.own.delivered == w.own.delivered && SameLosses(w, after)
  {
    hide Inv, Operational, Act, Stream, Arrived, Serves;
    ActIsSafe(m, a);
    ServedDraws(m, a);
    var (w, after) := (m.w, Act(m, a).w);
    SafeStream(w);
    SafeStream(after);
    DrawnArrives(w, after);
    var held := Flatten(Datas(after.own.delivered) + after.d.queue);
    if after.own.lost == 0 && !after.d.overflowed {
      Reassociate(held, after.d.work, after.h.rxFifo);
      PrefixOfRest(Arrived(w.rx), held + after.d.work, after.h.rxFifo);
    }
  }

  lemma PrefixOfRest(prefix: seq<byte>, front: seq<byte>, rest: seq<byte>)
    requires prefix <= front + rest && |prefix| <= |front|
    ensures prefix <= front
  {
    assert (front + rest)[..|front|] == front;
    assert prefix == (front + rest)[..|prefix|] == front[..|prefix|];
  }

  // ---- With the bus silent ----

  /** A burst that begins drops, in READY mode, the record that waits. */
  function Waiting(d: Driver, bytes: nat): (queue: seq<seq<byte>>)
    ensures |queue| <= |d.queue|
  {
    if d.hasReady && bytes > 0 then [] else d.queue
  }

  ghost predicate Drops(w: World, after: World, bytes: nat) {
    && after.d.hasReady == w.d.hasReady && after.d.queue == Waiting(w.d, bytes)
    && after.d.stats == w.d.stats.(rxDropped := w.d.stats.rxDropped + (|w.d.queue| - |after.d.queue|))
  }

  lemma DrainDropsOne(w: World)
    requires w.script == [] && Inv(w, false) && w.h.rxFifo != []
    ensures Drops(w, DrainByte(w), 1)
  {
    hide DrainByte, Drained, Inv, Drops;
    BurstIsWork(w);
    DrainByteIsDrained(w);
    DrainedDrops(w, w.h.rxFifo[0]);
  }

  lemma DrainedDrops(w: World, b: byte)
    requires w.h.rxFifo != [] && (w.d.hasReady && w.d.InBurst() ==> w.d.queue == [])
    ensures Drops(w, Drained(w, b), 1)
  {
    DrainedQueues(w, b);
    DrainingCounts(w, b);
    hide Drained;
  }

  lemma DrainedQueues(w: World, b: byte)
    requires w.h.rxFifo != []
    ensures var e := Drained(w, b).d;
            && e.hasReady == w.d.hasReady && e.queue == (if Dropping(w.d) > 0 then [] else w.d.queue)
  {
    DrainedFrame(w, b);
    hide Drained;
  }

  lemma DropsChain(a: World, b: World, c: World, first: nat, second: nat)
    requires Drops(a, b, first) && Drops(b, c, second)
    ensures Drops(a, c, first + second)
  {
  }

  lemma {:induction false} DrainDropsAll(w: World)
    requires w.script == [] && Inv(w, false)
    ensures Drops(w, DrainRx(w), |w.h.rxFifo|)
    decreases |w.h.rxFifo|
  {
    hide DrainByte, Inv, Drops;
    if w.h.rxFifo == [] {
      assert DrainRx(w) == w;
      DropsNothing(w);
    } else {
      var next := DrainByte(w);
      DrainTakesOne(w);
      DrainDropsOne(w);
      DrainByteKeeps(w);
      DrainDropsAll(next);
      DropsChain(w, next, DrainRx(next), 1, |next.h.rxFifo|);
      assert DrainRx(w) == DrainRx(next);
    }
  }

  lemma DropsNothing(w: World)
    ensures Drops(w, w, 0)
  {
  }

  /** The counters after the error register has been read and the FIFO drained. */
  function Noted(w: World): Stats {
    var dropped := |w.d.queue| - |Waiting(w.d, |w.h.rxFifo|)|;
    w.d.stats.(rxOverruns := w.d.stats.rxOverruns + (if w.h.overrun then 1 else 0),
               txUnderruns := w.d.stats.txUnderruns + (if w.h.underrun then 1 else 0),
               rxDropped := w.d.stats.rxDropped + dropped)
  }

  lemma SnapshotNotes(w: World)
    requires w.script == [] && Inv(w, false)
    ensures var after := Snapshot(w);
            && after.d.hasReady == w.d.hasReady && after.d.queue == Waiting(w.d, |w.h.rxFifo|) && after.d.stats == Noted(w)
  {
    hide DrainRx, Inv, Drops, ServiceErrors;
    ErrorsKeep(w);
    ErrorsCount(w);
    var checked := ServiceErrors(w);
    DrainDropsAll(checked);
    DrainInStillness(checked);
    DroppedIs(checked, DrainRx(checked), |w.h.rxFifo|);
    assert Snapshot(w) == DrainRx(checked);
    hide Snapshot;
  }

  lemma DroppedIs(w: World, after: World, bytes: nat)
    requires Drops(w, after, bytes)
    ensures after.d.hasReady == w.d.hasReady && after.d.queue == Waiting(w.d, bytes)
    ensures after.d.stats == w.d.stats.(rxDropped := w.d.stats.rxDropped + (|w.d.queue| - |Waiting(w.d, bytes)|))
  {
  }

  lemma ErrorsCount(w: World)
    requires w.script == []
    ensures var (after, stats) := (ServiceErrors(w), w.d.stats);
            && after.script == [] && after.h.rxFifo == w.h.rxFifo
            && after.d == w.d.(stats := stats.(
                 rxOverruns := stats.rxOverruns + (if w.h.overrun then 1 else 0),
                 txUnderruns := stats.txUnderruns + (if w.h.underrun then 1 else 0)))
  {
  }

  /** The end of a burst: a record of 1 to 8,192 bytes joins the newest 1,023 that wait, a longer burst is an overrun. */
  ghost predicate Recorded(d: Driver, e: Driver, bytes: seq<byte>) {
    && e.work == [] && !e.overflowed && e.requestGeneration == d.requestGeneration
    && (if |bytes| <= 8192 then
          && e.queue == (if |d.queue| < 1024 then d.queue else d.queue[|d.queue| - 1023..]) + [bytes]
          && e.stats == d.stats.(
               rxTransactions := d.stats.rxTransactions + 1, rxBytes := d.stats.rxBytes + |bytes|,
               rxDropped := d.stats.rxDropped + (if |d.queue| < 1024 then 0 else 1))
        else
          e.queue == d.queue && e.stats == d.stats.(rxOverruns := d.stats.rxOverruns + 1))
  }

  lemma CloseRecords(w: World, cut: nat)
    requires |w.d.queue| <= RX_SLOTS
    requires if |w.rx.burst| > MAX_TRANSFER then w.d.overflowed else w.d.work == w.rx.burst && !w.d.overflowed
    ensures Recorded(w.d, CloseBurst(w, cut).d, w.rx.burst)
  {
    var closed := w.(rx := w.rx.(cuts := w.rx.cuts + [cut], burst := []));
    if w.d.overflowed {
      assert CloseBurst(w, cut).d == LoseBurst(closed).d.(work := [], overflowed := false);
    } else {
      assert CloseBurst(w, cut).d == Enqueue(closed).d.(work := [], overflowed := false);
      EnqueueRecords(closed);
      hide Enqueue;
    }
    hide CloseBurst;
  }

  lemma EnqueueRecords(w: World)
    requires |w.d.queue| <= 1024
    ensures var (d, e) := (w.d, Enqueue(w).d);
            && e.queue == (if |d.queue| < 1024 then d.queue else d.queue[|d.queue| - 1023..]) + [d.work]
            && e.stats == d.stats.(
                 rxTransactions := d.stats.rxTransactions + 1, rxBytes := d.stats.rxBytes + |d.work|,
                 rxDropped := d.stats.rxDropped + (if |d.queue| < 1024 then 0 else 1))
            && e.requestGeneration == d.requestGeneration
  {
  }

  lemma WorkIsBurst(w: World)
    requires Inv(w, false)
    ensures |w.d.queue| <= RX_SLOTS
    ensures if |w.rx.burst| > MAX_TRANSFER then w.d.overflowed && w.d.work == w.rx.burst[..MAX_TRANSFER]
            else w.d.work == w.rx.burst && !w.d.overflowed
    ensures w.d.InBurst() == (w.rx.burst != [])
  {
    hide SentInv, SignalInv, RecordsInv, TxInv, EdgeInv, CutsOk, OpenWrites;
  }

  lemma FinishIsRecorded(w: World)
    requires Inv(w, false) && w.script == [] && w.rx.burst != []
    ensures var after := FinishRx(w);
            && Recorded(w.d, after.d, w.rx.burst) && after.rx.burst == []
            && after.edges == w.edges + (if w.d.hasReady then [Ack(w.d.requestGeneration), Release] else [])
            && (w.d.hasReady ==> after.d.tx == [])
  {
    WorkIsBurst(w);
    BurstIsWork(w);
    hide Inv, CloseBurst;
    var cut := |w.rx.writes|;
    if w.d.hasReady {
      var cleared := w.(d := w.d.(tx := [], loaded := 0));
      AckInStillness(cleared);
      hide AckRequest;
      CloseRecords(AckRequest(cleared), cut);
      CloseFrame(AckRequest(cleared), cut);
      RecordedAfter(w.d, cleared.d, FinishRx(w).d, w.rx.burst);
    } else {
      CloseRecords(w, cut);
      CloseFrame(w, cut);
      assert w.edges + [] == w.edges;
    }
  }

  lemma RecordedAfter(d: Driver, cleared: Driver, e: Driver, bytes: seq<byte>)
    requires Recorded(cleared, e, bytes) && cleared == d.(tx := [], loaded := 0)
    ensures Recorded(d, e, bytes)
  {
  }

  /** What a service run makes of the bytes received, when the bus does not move. */
  ghost predicate Handled(w: World, after: World, stats: Stats) {
    var bytes := w.rx.burst + w.h.rxFifo;
    var (d, e) := (w.d.(queue := Waiting(w.d, |w.h.rxFifo|), stats := stats), after.d);
    var generation := w.d.requestGeneration + (if w.rx.burst == [] && w.h.rxFifo != [] then 1 else 0);
    && e.requestGeneration == generation
    && (if w.h.rxBusy || bytes == [] then
          && after.rx.burst == bytes && e.queue == d.queue && e.stats == stats && after.edges == w.edges
          && e.work == (if |bytes| <= 8192 then bytes else bytes[..8192])
        else
          && Recorded(d.(requestGeneration := generation), e, bytes) && after.rx.burst == []
          && after.edges == w.edges + (if d.hasReady then [Ack(generation), Release] else [])
          && (d.hasReady ==> e.tx == []))
  }

  lemma SnapshotHandles(w: World)
    requires Inv(w, false) && w.script == [] && (w.h.rxBusy || w.rx.burst + w.h.rxFifo == [])
    ensures Handled(w, Snapshot(w), Noted(w))
  {
    hide Inv, Snapshot, Noted, Waiting;
    SnapshotTakesAll(w);
    SnapshotNotes(w);
    WorkIsBurst(Snapshot(w));
  }

  lemma BurstHandled(w: World)
    requires Inv(w, false) && w.script == [] && !w.h.rxBusy && w.rx.burst + w.h.rxFifo != []
    ensures Handled(w, FinishRx(Snapshot(w)), Noted(w))
  {
    hide Inv, Snapshot, Noted, FinishRx, Recorded, Handled;
    SnapshotTakesAll(w);
    SnapshotNotes(w);
    SnapshotInStillness(w);
    FinishIsRecorded(Snapshot(w));
    RecordingHandles(w, Snapshot(w), FinishRx(Snapshot(w)), Noted(w));
  }

  lemma RecordingHandles(w: World, seen: World, after: World, stats: Stats)
    requires !w.h.rxBusy && seen.rx.burst == w.rx.burst + w.h.rxFifo != [] && Took(w, seen, w.h.rxFifo)
    requires seen.d.hasReady == w.d.hasReady && seen.d.queue == Waiting(w.d, |w.h.rxFifo|) && seen.d.stats == stats
    requires Recorded(seen.d, after.d, seen.rx.burst) && after.rx.burst == []
    requires after.edges == seen.edges + (if seen.d.hasReady then [Ack(seen.d.requestGeneration), Release] else [])
    requires seen.d.hasReady ==> after.d.tx == []
    ensures Handled(w, after, stats)
  {
    RecordedFrom(w, seen.d, after.d, seen.rx.burst);
    hide Recorded, Waiting;
  }

  lemma RecordedFrom(w: World, d: Driver, e: Driver, bytes: seq<byte>)
    requires Recorded(d, e, bytes)
    ensures Recorded(w.d.(queue := d.queue, stats := d.stats).(requestGeneration := d.requestGeneration), e, bytes)
  {
  }

  lemma LoadingHandles(w: World, middle: World, after: World, stats: Stats)
    requires Handled(w, middle, stats) && OnlyLoads(middle, after)
    ensures Handled(w, after, stats)
  {
  }

  lemma ServiceHandles(w: World)
    requires Inv(w, false) && w.script == []
    ensures Handled(w, Service(w), Noted(w))
  {
    SnapshotTakesAll(w);
    SnapshotKeeps(w);
    SnapshotInStillness(w);
    var seen := Snapshot(w);
    BurstIsWork(seen);
    hide Inv, Snapshot, Noted, Handled, FinishRx, RefillTx, OnlyLoads;
    if w.h.rxBusy {
      SnapshotHandles(w);
      RefillFrame(seen);
      LoadingHandles(w, seen, Service(w), Noted(w));
    } else {
      if w.rx.burst + w.h.rxFifo == [] {
        SnapshotHandles(w);
        NothingToFinish(seen);
      } else {
        BurstHandled(w);
      }
      RefillFrame(FinishRx(seen));
      LoadingHandles(w, FinishRx(seen), Service(w), Noted(w));
    }
  }

  lemma NothingToFinish(w: World)
    requires !w.d.InBurst()
    ensures FinishRx(w) == w
  {
  }

  /** The counters of a device that is served. */
  function Tallied(w: World, a: Action): Stats {
    Noted(w).(interrupts := w.d.stats.interrupts + (if a.Interrupt? then 1 else 0),
              timerRuns := w.d.stats.timerRuns + (if a.TimerRun? then 1 else 0))
  }

  /**
   An interrupt or a timer run on a silent bus: the receive FIFO is emptied; if the controller is idle, all that was
   received since the last record is the newest record that waits and is acknowledged, in READY mode after the old response
   has been forgotten, and otherwise it stays in the work buffer; the response is loaded as far as the transmit FIFO goes; and every counter moves by what happened.
   */
  lemma InterruptOnSilentBus(m: Machine, a: Action)
    requires Safe(m) && Serves(m, a) && a.script == []
    ensures var (w, after) := (m.w, Act(m, a).w);
            && Handled(w, after, Tallied(w, a))
            && after.h.rxFifo == [] && !after.h.overrun && !after.h.underrun
            && (!after.d.Unloaded() || |after.h.txFifo| >= 16)
            && after.wire.gaps == w.wire.gaps && after.wire.out == w.wire.out
  {
    hide Inv, Service, Act, Handled, Counted, Tallied, WorldSafe, Operational, Serves, Noted;
    ServesActive(m, a);
    var (w, b) := (Under(m.w, []), if a.Interrupt? then OnInterrupt else OnTimer);
    var counted := Counted(w, b);
    ServedIs(m, a, counted);
    ScriptIsFree(m.w, []);
    SafeIsOperational(w);
    CountingIsFree(w, b);
    ServiceHandles(counted);
    ServeInStillness(counted);
    NotedAfter(m.w, b, a);
    HandledAs(m.w, b, Act(m, a).w, Tallied(m.w, a));
  }

  lemma ServesActive(m: Machine, a: Action)
    requires Serves(m, a)
    ensures m.w.d.active && (a.Interrupt? || a.TimerRun?)
  {
  }

  lemma SafeIsOperational(w: World)
    requires WorldSafe(w) && w.d.active
    ensures Inv(w, false) && Operational(w)
  {
    hide Inv, Operational;
  }

  lemma ServedIs(m: Machine, a: Action, counted: World)
    requires Serves(m, a) && a.script == []
    requires counted == Counted(Under(m.w, []), if a.Interrupt? then OnInterrupt else OnTimer)
    ensures Act(m, a).w == Service(counted) && counted.script == []
  {
    hide Service;
    ServeInStillness(counted);
    var w := Under(m.w, []);
    if a.Interrupt? {
      assert Irq(w, a.pending) == Touch(Service(counted)) == Service(counted);
    } else {
      assert Timer(w) == Service(counted);
    }
    hide Irq, Timer;
    assert Rest(Service(counted)) == Service(counted);
  }

  lemma NotedAfter(w: World, b: Beat, a: Action)
    requires b == if a.Interrupt? then OnInterrupt else OnTimer
    requires a.Interrupt? || a.TimerRun?
    ensures Noted(Counted(Under(w, []), b)) == Tallied(w, a)
  {
  }

  lemma HandledAs(w: World, b: Beat, after: World, stats: Stats)
    requires Handled(Counted(Under(w, []), b), after, stats)
    ensures Handled(w, after, stats)
    ensures var counted := Counted(Under(w, []), b); counted.wire == w.wire && counted.h == w.h
  {
    hide Recorded, Counters;
    var (d, c) := (w.d, Counted(Under(w, []), b).d);
    assert Waiting(c, |w.h.rxFifo|) == Waiting(d, |w.h.rxFifo|);
    assert c.(queue := Waiting(d, |w.h.rxFifo|), stats := stats) == d.(queue := Waiting(d, |w.h.rxFifo|), stats := stats);
  }
}
