/**
 The service routine keeps the invariant, with the bus moving between any two register accesses. Draining takes the
 bytes of the FIFO over into the burst; finishing makes the burst a record, at a cut between two controller writes
 because idle and empty come from one snapshot; loading feeds the response without overfilling the FIFO. For each
 step a frame lemma gives the new state field by field, and the parts of the invariant follow from it separately.
 */
module BscService {
  import opened Bytes
  import opened BscWorld
  import opened BscDriver
  import opened BscInvariant

  // ---- Draining ----

  /** A byte that has been taken out of the FIFO is stored. */
  function Drained(w: World, b: byte): World
    requires w.h.rxFifo != []
  {
    var popped := w.(h := w.h.(rxFifo := w.h.rxFifo[1..]));
    StoreByte(if !w.d.InBurst() then BeginBurst(popped) else popped, b)
  }

  lemma BurstSkipsRecords(d: Driver, rx: RxLog, own: OwnLog, burst: seq<byte>)
    requires RecordsInv(d, rx, own)
    ensures RecordsInv(d, rx.(burst := burst), own)
  {
    forall i | 0 <= i < |own.ids| ensures RecordOk(rx.(burst := burst), Record(own.ids[i], d.queue[i])) {
      RecordKeeps(rx, rx.(burst := burst), Record(own.ids[i], d.queue[i]));
    }
    forall i | 0 <= i < |own.delivered| ensures RecordOk(rx.(burst := burst), own.delivered[i]) {
      RecordKeeps(rx, rx.(burst := burst), own.delivered[i]);
    }
  }

  lemma BeginFrame(w: World)
    ensures var (after, d, e) := (BeginBurst(w), w.d, BeginBurst(w).d);
            && after.h == w.h && after.rx == w.rx && after.wire == w.wire && after.edges == w.edges && Steady(w, after)
            && e.work == d.work && e.overflowed == d.overflowed
            && e.tx == d.tx && e.loaded == d.loaded
            && e.workerGeneration == d.workerGeneration && e.workerPending == d.workerPending
            && e.requestGeneration == d.requestGeneration + 1 && !e.queued
            && (if d.hasReady && d.queue != []
                then e.queue == [] && after.own == w.own.(ids := [], lost := w.own.lost + |d.queue|)
                else e.queue == d.queue && after.own == w.own)
  {
  }

  lemma StoreFrame(w: World, b: byte)
    ensures var (after, d, e) := (StoreByte(w, b), w.d, StoreByte(w, b).d);
            && after.h == w.h && after.rx == w.rx.(burst := w.rx.burst + [b])
            && after.own == w.own && after.wire == w.wire && after.edges == w.edges && Steady(w, after)
            && e == d.(work := e.work, overflowed := e.overflowed)
            && e.work == (if |d.work| < MAX_TRANSFER then d.work + [b] else d.work)
            && e.overflowed == (d.overflowed || |d.work| >= MAX_TRANSFER)
  {
  }

  lemma DrainedFrame(w: World, b: byte)
    requires w.h.rxFifo != []
    ensures var (after, d, e) := (Drained(w, b), w.d, Drained(w, b).d);
            && after.h == w.h.(rxFifo := w.h.rxFifo[1..])
            && after.rx == w.rx.(burst := w.rx.burst + [b])
            && after.wire == w.wire && after.edges == w.edges && Steady(w, after)
            && e.work == (if |d.work| < MAX_TRANSFER then d.work + [b] else d.work)
            && e.overflowed == (d.overflowed || |d.work| >= MAX_TRANSFER)
            && e.tx == d.tx && e.loaded == d.loaded
            && e.workerGeneration == d.workerGeneration && e.workerPending == d.workerPending
            && (if d.InBurst() then
                  e.requestGeneration == d.requestGeneration && e.queued == d.queued && e.queue == d.queue && after.own == w.own
                else
                  && e.requestGeneration == d.requestGeneration + 1 && !e.queued
                  && (if d.hasReady && d.queue != []
                      then e.queue == [] && after.own == w.own.(ids := [], lost := w.own.lost + |d.queue|)
                      else e.queue == d.queue && after.own == w.own))
  {
    var popped := w.(h := w.h.(rxFifo := w.h.rxFifo[1..]));
    BeginFrame(popped);
    StoreFrame(BeginBurst(popped), b);
    StoreFrame(popped, b);
    hide BeginBurst, StoreByte;
  }

  /** The work buffer holds the burst, cut off at its capacity. */
  predicate Buffered(burst: seq<byte>, work: seq<byte>, overflowed: bool) {
    if |burst| <= MAX_TRANSFER then work == burst && !overflowed
    else work == burst[..MAX_TRANSFER] && overflowed
  }

  lemma BufferedGrows(burst: seq<byte>, work: seq<byte>, overflowed: bool, b: byte)
    requires Buffered(burst, work, overflowed)
    ensures Buffered(burst + [b],
                     if |work| < MAX_TRANSFER then work + [b] else work, overflowed || |work| >= MAX_TRANSFER)
  {
    if |burst| >= MAX_TRANSFER {
      assert (burst + [b])[..MAX_TRANSFER] == burst[..MAX_TRANSFER];
    }
  }

  lemma Regroup(burst: seq<byte>, fifo: seq<byte>)
    requires fifo != []
    ensures burst + fifo == (burst + [fifo[0]]) + fifo[1..]
  {
  }

  lemma DrainedKeepsRx(w: World, b: byte)
    requires RxInv(w.d, w.h, w.rx) && w.h.rxFifo != [] && b == w.h.rxFifo[0]
    ensures RxInv(Drained(w, b).d, Drained(w, b).h, Drained(w, b).rx)
  {
    DrainedFrame(w, b);
    var (d, h, rx) := (Drained(w, b).d, Drained(w, b).h, Drained(w, b).rx);
    assert CutsOk(rx) && OpenWrites(rx) == OpenWrites(w.rx);
    FilledStays(w.rx, rx);
    hide Drained, OpenWrites, CutsOk, Flatten, NoEmptyBurst;
    assert Buffered(rx.burst, d.work, d.overflowed) by {
      BufferedGrows(w.rx.burst, w.d.work, w.d.overflowed, b);
    }
    assert rx.burst + h.rxFifo == w.rx.burst + w.h.rxFifo by {
      Regroup(w.rx.burst, w.h.rxFifo);
      hide RxInv;
    }
  }

  lemma DroppingKeepsRecords(d: Driver, e: Driver, rx: RxLog, own: OwnLog)
    requires RecordsInv(d, rx, own) && e.queue == []
    ensures RecordsInv(e, rx, own.(ids := [], lost := own.lost + |d.queue|))
  {
  }

  lemma DrainedKeepsRecords(w: World, b: byte)
    requires RecordsInv(w.d, w.rx, w.own) && w.h.rxFifo != []
    ensures RecordsInv(Drained(w, b).d, Drained(w, b).rx, Drained(w, b).own)
  {
    DrainedFrame(w, b);
    hide RecordsInv, Drained;
    var e := Drained(w, b).d;
    if !w.d.InBurst() && w.d.hasReady && w.d.queue != [] {
      DroppingKeepsRecords(w.d, e, w.rx, w.own);
    } else {
      SameQueueKeepsRecords(w.d, e, w.rx, w.own);
    }
    BurstSkipsRecords(e, w.rx, Drained(w, b).own, w.rx.burst + [b]);
  }

  /** A further byte of the burst in progress. */
  lemma MoreKeepsOwn(d: Driver, e: Driver, ready: bool, rx: RxLog, own: OwnLog, b: byte)
    requires OwnInv(d, ready, rx, own, false) && rx.burst != []
    requires e.requestGeneration == d.requestGeneration && e.queued == d.queued && e.queue == d.queue
    requires e.tx == d.tx && e.loaded == d.loaded && e.hasReady == d.hasReady
    requires e.workerGeneration == d.workerGeneration && e.workerPending == d.workerPending
    ensures OwnInv(e, ready, rx.(burst := rx.burst + [b]), own, false)
  {
  }

  /** The first byte of a burst: the generation advances, and in READY mode nothing is left waiting. */
  lemma FirstKeepsOwn(d: Driver, e: Driver, ready: bool, rx: RxLog, own: OwnLog, after: OwnLog, b: byte)
    requires OwnInv(d, ready, rx, own, false) && rx.burst == []
    requires e.requestGeneration == d.requestGeneration + 1 && !e.queued
    requires e.tx == d.tx && e.loaded == d.loaded && e.hasReady == d.hasReady
    requires e.workerGeneration == d.workerGeneration && e.workerPending == d.workerPending
    requires after == own.(ids := after.ids, lost := after.lost)
    requires if d.hasReady && d.queue != [] then e.queue == [] && after.ids == [] else e.queue == d.queue && after == own
    ensures OwnInv(e, ready, rx.(burst := rx.burst + [b]), after, false)
  {
  }

  lemma DrainedKeepsOwn(w: World, b: byte)
    requires RxInv(w.d, w.h, w.rx) && OwnInv(w.d, w.h.ready, w.rx, w.own, false) && w.h.rxFifo != []
    ensures var after := Drained(w, b);
            OwnInv(after.d, after.h.ready, after.rx, after.own, false)
  {
    DrainedFrame(w, b);
    var after := Drained(w, b);
    assert w.d.InBurst() == (w.rx.burst != []);
    hide Drained, OwnInv, RxInv;
    if w.d.InBurst() {
      MoreKeepsOwn(w.d, after.d, w.h.ready, w.rx, w.own, b);
    } else {
      FirstKeepsOwn(w.d, after.d, w.h.ready, w.rx, w.own, after.own, b);
    }
  }

  lemma DrainedKeepsTx(w: World, b: byte)
    requires TxInv(w.d, w.h, w.wire) && w.h.rxFifo != []
    ensures TxInv(Drained(w, b).d, Drained(w, b).h, Drained(w, b).wire)
  {
    DrainedFrame(w, b);
    hide Drained;
    assert Drained(w, b).h.TxContents() == w.h.TxContents();
  }

  lemma DrainedKeepsEdges(w: World, b: byte)
    requires EdgeInv(w.d, w.h.ready, w.rx, w.edges, false) && w.h.rxFifo != []
    ensures EdgeInv(Drained(w, b).d, Drained(w, b).h.ready, Drained(w, b).rx, Drained(w, b).edges, false)
  {
    DrainedFrame(w, b);
    hide Drained, LastRise, Disciplined;
  }

  lemma DrainedKeeps(w: World, b: byte)
    requires Inv(w, false) && w.h.rxFifo != [] && b == w.h.rxFifo[0]
    ensures Inv(Drained(w, b), false)
  {
    DrainedKeepsRx(w, b);
    DrainedKeepsRecords(w, b);
    DrainedKeepsOwn(w, b);
    DrainedKeepsTx(w, b);
    DrainedKeepsEdges(w, b);
    DrainedFrame(w, b);
    SameBusKeepsSent(w.h.rxBusy, w.rx, Drained(w, b).rx);
    hide Drained, RxInv, SentInv, SignalInv, RecordsInv, OwnInv, TxInv, EdgeInv;
  }

  lemma DrainByteKeeps(w: World)
    requires Inv(w, false) && w.h.rxFifo != []
    ensures Inv(DrainByte(w), false)
  {
    TickKeeps(w, false);
    hide Tick, Inv, StoreByte, BeginBurst;
    DrainedKeeps(Tick(w), Tick(w).h.rxFifo[0]);
  }

  lemma {:induction false} DrainKeeps(w: World)
    requires Inv(w, false)
    ensures Inv(DrainRx(w), false)
    decreases |w.script|, |w.h.rxFifo|
  {
    TickKeeps(w, false);
    TickIsBusOnly(w);
    hide Inv, Tick, DrainByte, BusOnly;
    var seen := ReadFr(w);
    if seen.h.rxFifo != [] {
      DrainByteKeeps(seen);
      DrainByteShrinks(seen);
      DrainKeeps(DrainByte(seen));
    }
  }

  // ---- Loading the transmit FIFO ----

  lemma LoadedKeepsPromises(w: World, e: Driver)
    requires e == w.d.(loaded := w.d.loaded + 1) && w.d.loaded < |w.d.tx|
    requires OwnInv(w.d, w.h.ready, w.rx, w.own, false) && EdgeInv(w.d, w.h.ready, w.rx, w.edges, false)
    ensures OwnInv(e, w.h.ready, w.rx, w.own, false) && EdgeInv(e, w.h.ready, w.rx, w.edges, false)
  {
    hide Disciplined, LastRise, LastRiseReleased;
  }

  /** The FIFO was seen not full; whatever the controller has clocked since only made more room. */
  lemma WriteNextKeeps(w: World)
    requires Inv(w, false) && w.d.Unloaded() && |w.h.txFifo| < FIFO_SIZE
    ensures Inv(WriteNext(w), false)
  {
    TickKeeps(w, false);
    WriteNextFrame(w);
    hide Tick, WriteNext, PutDr, RxInv, SentInv, SignalInv, RecordsInv, EdgeInv, OwnInv, TxInv;
    var (t, after) := (Tick(w), WriteNext(w));
    WriteKeepsTx(t);
    SameWorkKeepsRx(w.d, after.d, t.h, after.h, t.rx);
    SameQueueKeepsRecords(w.d, after.d, t.rx, w.own);
    LoadedKeepsPromises(t, after.d);
  }

  lemma WriteNextFrame(w: World)
    requires w.d.loaded < |w.d.tx|
    ensures var (t, after) := (Tick(w), WriteNext(w));
            && after.d == w.d.(loaded := w.d.loaded + 1) && after.rx == t.rx && after.own == w.own && after.edges == w.edges
            && after.h == t.h.(serializer := after.h.serializer, txFifo := after.h.txFifo)
            && after.h == PutDr(t, w.d.tx[w.d.loaded]).h
            && after.wire == PutDr(t, w.d.tx[w.d.loaded]).wire
  {
    TickIsBusOnly(w);
    hide Tick;
  }

  lemma WriteKeepsTx(w: World)
    requires TxInv(w.d, w.h, w.wire) && w.d.Unloaded() && |w.h.txFifo| < FIFO_SIZE
    ensures var (d, b) := (w.d.(loaded := w.d.loaded + 1), w.d.tx[w.d.loaded]);
            var after := PutDr(w, b);
            TxInv(d, after.h, after.wire)
  {
    var b := w.d.tx[w.d.loaded];
    var after := PutDr(w, b);
    assert w.d.tx[..w.d.loaded + 1] == w.d.tx[..w.d.loaded] + [b];
    assert w.wire.stale + (w.wire.fed + [b]) == (w.wire.stale + w.wire.fed) + [b];
    assert w.wire.out + (w.h.TxContents() + [b]) == (w.wire.out + w.h.TxContents()) + [b];
    assert after.h.TxContents() == w.h.TxContents() + [b];
  }

  lemma {:induction false} LoadKeeps(w: World)
    requires Inv(w, false)
    ensures Inv(LoadTx(w), false)
    decreases |w.d.tx| - w.d.loaded
  {
    if w.d.Unloaded() {
      TickKeeps(w, false);
      hide Inv, Tick, WriteNext;
      var seen := ReadFr(w);
      if !FlagsOf(seen.h).txFull {
        WriteNextKeeps(seen);
        WriteNextAdvances(seen);
        LoadKeeps(WriteNext(seen));
      }
    }
  }

  lemma WriteNextAdvances(w: World)
    requires w.d.loaded < |w.d.tx|
    ensures WriteNext(w).d == w.d.(loaded := w.d.loaded + 1)
  {
  }

  lemma SetInterruptsKeeps(w: World, acking: bool)
    requires Inv(w, acking)
    ensures Inv(SetInterrupts(w), acking)
  {
    TickKeeps(w, acking);
    hide Tick, SentInv, SignalInv, RecordsInv, Disciplined, LastRise, OpenWrites;
  }

  lemma RefillKeeps(w: World)
    requires Inv(w, false)
    ensures Inv(RefillTx(w), false)
  {
    LoadKeeps(w);
    hide Inv, LoadTx, SetInterrupts;
    SetInterruptsKeeps(LoadTx(w), false);
  }

  // ---- Finishing a burst ----

  /** The burst in progress is exactly the writes up to `cut`, after what the first burst began with. */
  ghost predicate CutAt(rx: RxLog, cut: nat) {
    && CutsOk(rx)
    && rx.cuts[|rx.cuts| - 1] <= cut <= |rx.writes|
    && Lead(rx, |rx.cuts|) + Flatten(rx.writes[rx.cuts[|rx.cuts| - 1]..cut]) == rx.burst
  }

  /** Idle and empty in one snapshot: every write that has begun is complete and drained. */
  lemma IdleAndEmptyCuts(w: World)
    requires RxInv(w.d, w.h, w.rx) && w.h.rxFifo == [] && !w.h.rxBusy
    ensures CutAt(w.rx, |w.rx.writes|)
  {
    assert w.rx.writes[..|w.rx.writes|] == w.rx.writes;
    assert Ended(w.rx) + [] == Ended(w.rx) && w.rx.burst + [] == w.rx.burst;
  }

  lemma CutStays(w: World, after: World, cut: nat)
    requires CutAt(w.rx, cut) && BusOnly(w, after)
    ensures CutAt(after.rx, cut)
  {
    var last := w.rx.cuts[|w.rx.cuts| - 1];
    assert after.rx.writes[last..cut] == w.rx.writes[last..cut];
  }

  lemma LastRiseAppend(edges: seq<Edge>, edge: Edge)
    ensures LastRise(edges + [edge]) == if edge.Release? then LastRise(edges) else Some(edge)
  {
    assert (edges + [edge])[..|edges|] == edges;
  }

  lemma EdgeAppend(edges: seq<Edge>, edge: Edge)
    requires Disciplined(edges)
    requires edges != [] && edges[|edges| - 1].Ack? ==> edge.Release?
    requires edge.Respond? ==> !Asserted(edges) && LastRise(edges) == Some(Ack(edge.generation))
    ensures Disciplined(edges + [edge])
    ensures LastRise(edges + [edge]) == if edge.Release? then LastRise(edges) else Some(edge)
  {
    hide LastRise, Asserted;
    LastRiseAppend(edges, edge);
    var all := edges + [edge];
    forall i | 0 <= i < |all|
      ensures all[i].Ack? && i + 1 < |all| ==> all[i + 1] == Release
      ensures all[i].Respond? ==> !Asserted(all[..i]) && LastRise(all[..i]) == Some(Ack(all[i].generation))
    {
      if i < |edges| {
        assert all[..i] == edges[..i] && all[i] == edges[i];
      } else {
        assert all[..i] == edges;
      }
    }
  }

  lemma SetReadyFrame(w: World, level: bool, edge: Edge)
    requires w.d.hasReady
    ensures var (t, after) := (Tick(w), SetReady(w, level, edge));
            && after.d == w.d && after.rx == t.rx && after.own == w.own
            && after.wire == t.wire.(signals := after.wire.signals)
            && after.wire.signals == w.wire.signals + (if edge.Respond? then [SignalOf(t)] else [])
            && after.edges == w.edges + [edge] && after.h == t.h.(ready := level)
  {
    TickIsBusOnly(w);
    hide Tick;
    assert w.wire.signals + [] == w.wire.signals;
  }

  lemma ResponsesAppend(edges: seq<Edge>, edge: Edge)
    ensures Responses(edges + [edge]) == Responses(edges) + (if edge.Respond? then 1 else 0)
  {
    assert (edges + [edge])[..|edges|] == edges;
  }

  lemma QuietEdgeKeepsSignals(edges: seq<Edge>, edge: Edge, signals: seq<Signal>)
    requires SignalInv(edges, signals) && !edge.Respond?
    ensures SignalInv(edges + [edge], signals)
  {
    ResponsesAppend(edges, edge);
    hide Responses, SignalOk;
  }

  lemma ReadyIsNotReceived(w: World, level: bool)
    ensures RxInv(w.d, w.h, w.rx) ==> RxInv(w.d, w.h.(ready := level), w.rx)
    ensures TxInv(w.d, w.h, w.wire) ==> TxInv(w.d, w.h.(ready := level), w.wire)
  {
    assert w.h.(ready := level).TxContents() == w.h.TxContents();
  }

  lemma RaiseAckKeeps(w: World)
    requires Inv(w, false) && w.d.hasReady && w.rx.burst != []
    ensures var after := SetReady(w, true, Ack(w.d.requestGeneration));
            && Inv(after, true) && after.d == w.d && after.rx.burst == w.rx.burst
            && LastRise(after.edges) == Some(Ack(w.d.requestGeneration))
  {
    TickKeeps(w, false);
    SetReadyFrame(w, true, Ack(w.d.requestGeneration));
    EdgeAppend(w.edges, Ack(w.d.requestGeneration));
    QuietEdgeKeepsSignals(w.edges, Ack(w.d.requestGeneration), Tick(w).wire.signals);
    hide Tick, SetReady, SentInv, SignalInv, RecordsInv, RxInv, Disciplined, LastRise, TxInv;
    ReadyIsNotReceived(Tick(w), true);
  }

  lemma ReleaseKeeps(w: World, acking: bool)
    requires Inv(w, acking)
    ensures var after := SetReady(w, false, Release);
            && Inv(after, if w.d.hasReady then false else acking) && after.d == w.d && after.rx.burst == w.rx.burst
            && (w.d.hasReady ==> !after.h.ready && after.edges == w.edges + [Release])
  {
    hide Inv;
    if w.d.hasReady {
      TickKeeps(w, acking);
      SetReadyFrame(w, false, Release);
      hide Tick, SetReady, SentInv, SignalInv, RecordsInv, RxInv, OwnInv, EdgeInv, TxInv;
      ReleasedIsInv(Tick(w), acking);
    }
  }

  lemma ReleasedIsInv(w: World, acking: bool)
    requires Inv(w, acking) && w.d.hasReady
    ensures Inv(w.(h := w.h.(ready := false), edges := w.edges + [Release]), false)
  {
    hide SentInv, SignalInv, RecordsInv, RxInv, OwnInv, EdgeInv, TxInv;
    ReadyIsNotReceived(w, false);
    QuietEdgeKeepsSignals(w.edges, Release, w.wire.signals);
    ReleaseKeepsPromises(w.d, w.h.ready, w.rx, w.own, w.edges, acking);
  }

  lemma ReleaseAckKeeps(w: World)
    requires Inv(w, true) && w.d.hasReady
    ensures var after := SetReady(w, false, Release);
            && Inv(after, false) && after.d == w.d && after.rx.burst == w.rx.burst
            && !after.h.ready && LastRise(after.edges) == LastRise(w.edges)
  {
    ReleaseKeeps(w, true);
    LastRiseAppend(w.edges, Release);
    hide Inv, SetReady, LastRise;
  }

  lemma AckKeeps(w: World)
    requires Inv(w, false) && w.d.hasReady && w.rx.burst != []
    ensures var after := AckRequest(w);
            && Inv(after, false) && after.d == w.d && after.rx.burst == w.rx.burst
            && !after.h.ready && LastRise(after.edges) == Some(Ack(w.d.requestGeneration))
  {
    hide Inv, SetReady, LastRise;
    RaiseAckKeeps(w);
    ReleaseAckKeeps(SetReady(w, true, Ack(w.d.requestGeneration)));
  }

  lemma AckKeepsCut(w: World, cut: nat)
    requires CutAt(w.rx, cut)
    ensures CutAt(AckRequest(w).rx, cut)
  {
    TickIsBusOnly(w);
    CutStays(w, Tick(w), cut);
    var raised := SetReady(w, true, Ack(w.d.requestGeneration));
    TickIsBusOnly(raised);
    CutStays(raised, Tick(raised), cut);
    hide Tick, CutAt;
  }

  lemma CloseFrame(w: World, cut: nat)
    requires |w.own.ids| == |w.d.queue|
    ensures var (after, d, e) := (CloseBurst(w, cut), w.d, CloseBurst(w, cut).d);
            && after.h == w.h && after.wire == w.wire && after.edges == w.edges
            && after.rx == w.rx.(cuts := w.rx.cuts + [cut], burst := [])
            && e.hasReady == d.hasReady && e.tx == d.tx && e.loaded == d.loaded && e.queued == d.queued
            && e.requestGeneration == d.requestGeneration && e.workerGeneration == d.workerGeneration
            && e.workerPending == d.workerPending && e.work == [] && !e.overflowed
            && after.own == w.own.(ids := after.own.ids, lost := after.own.lost, overflowed := after.own.overflowed)
            && after.own.overflowed == w.own.overflowed + (if d.overflowed then 1 else 0)
            && (if d.overflowed then
                  e.queue == d.queue && after.own.ids == w.own.ids && after.own.lost == w.own.lost + 1
                else if |d.queue| == RX_SLOTS then
                  && e.queue == d.queue[1..] + [d.work] && after.own.ids == w.own.ids[1..] + [|w.rx.cuts|]
                  && after.own.lost == w.own.lost + 1
                else
                  e.queue == d.queue + [d.work] && after.own.ids == w.own.ids + [|w.rx.cuts|] && after.own.lost == w.own.lost)
  {
  }

  lemma CutHasCuts(rx: RxLog, cut: nat)
    requires CutAt(rx, cut)
    ensures |rx.cuts| >= 1 && CutsOk(rx)
  {
  }

  lemma CutFills(rx: RxLog, cut: nat)
    requires CutAt(rx, cut) && NoEmptyBurst(rx) && rx.burst != []
    ensures var after := rx.(cuts := rx.cuts + [cut], burst := []); CutsOk(after) && NoEmptyBurst(after)
  {
    hide CutsOk, CutAt, BurstBytes;
    CutsStayOrdered(rx, cut);
    assert |rx.cuts| >= 1 && CutsOk(rx) by {
      CutHasCuts(rx, cut);
    }
    var after := rx.(cuts := rx.cuts + [cut], burst := []);
    forall k | 1 <= k <= after.Bursts() ensures BurstBytes(after, k) != [] {
      if k < |rx.cuts| {
        SameBurst(rx, cut, k);
        assert BurstBytes(rx, k) != [];
      } else {
        NewBurst(rx, cut);
      }
    }
  }

  lemma SameBurst(rx: RxLog, cut: nat, k: nat)
    requires CutAt(rx, cut) && 1 <= k < |rx.cuts|
    ensures var after := rx.(cuts := rx.cuts + [cut], burst := []); CutsOk(after) && BurstBytes(after, k) == BurstBytes(rx, k)
  {
    CutsStayOrdered(rx, cut);
    hide CutsOk, Flatten;
    assert BurstWrites(rx.(cuts := rx.cuts + [cut], burst := []), k) == BurstWrites(rx, k);
  }

  lemma NewBurst(rx: RxLog, cut: nat)
    requires CutAt(rx, cut)
    ensures var after := rx.(cuts := rx.cuts + [cut], burst := []); CutsOk(after) && BurstBytes(after, |rx.cuts|) == rx.burst
  {
    CutsStayOrdered(rx, cut);
    assert BurstWrites(rx.(cuts := rx.cuts + [cut], burst := []), |rx.cuts|) == rx.writes[rx.cuts[|rx.cuts| - 1]..cut];
    hide CutsOk, Flatten;
  }

  lemma CloseKeepsRx(w: World, cut: nat)
    requires RxInv(w.d, w.h, w.rx) && CutAt(w.rx, cut) && |w.own.ids| == |w.d.queue| && w.rx.burst != []
    ensures RxInv(CloseBurst(w, cut).d, w.h, CloseBurst(w, cut).rx)
  {
    CloseFrame(w, cut);
    CutFills(w.rx, cut);
    hide CloseBurst, NoEmptyBurst;
    var (rx, after) := (w.rx, CloseBurst(w, cut).rx);
    var last := rx.cuts[|rx.cuts| - 1];
    var (done, rest) := (rx.writes[last..cut], rx.writes[cut..]);
    assert OpenWrites(after) == rest && OpenWrites(rx) == done + rest;
    FlattenAppend(done, rest);
    Reassociate(Lead(rx, |rx.cuts|), Flatten(done), Flatten(rest));
    assert [] + Flatten(rest) == Flatten(rest);
    assert Ended(rx) == rx.burst + Ended(after);
    hide Ended, OpenWrites, CutsOk, Flatten;
    DrainedPart(rx.burst, Ended(after), rx.partial, w.h.rxFifo);
    assert [] + w.h.rxFifo == w.h.rxFifo;
  }

  lemma DrainedPart(drained: seq<byte>, ended: seq<byte>, partial: seq<byte>, fifo: seq<byte>)
    requires (drained + ended) + partial == drained + fifo
    ensures ended + partial == fifo
  {
    Reassociate(drained, ended, partial);
    assert (drained + (ended + partial))[|drained|..] == ended + partial;
    assert (drained + fifo)[|drained|..] == fifo;
  }

  lemma RecordSurvivesCut(rx: RxLog, cut: nat, r: Record)
    requires RecordOk(rx, r) && CutAt(rx, cut)
    ensures RecordOk(rx.(cuts := rx.cuts + [cut], burst := []), r)
  {
    var after := rx.(cuts := rx.cuts + [cut], burst := []);
    assert BurstWrites(after, r.burst) == BurstWrites(rx, r.burst);
  }

  lemma NewRecordOk(w: World, cut: nat)
    requires RxInv(w.d, w.h, w.rx) && CutAt(w.rx, cut) && w.rx.burst != [] && !w.d.overflowed
    ensures RecordOk(w.rx.(cuts := w.rx.cuts + [cut], burst := []), Record(|w.rx.cuts|, w.d.work))
  {
    var after := w.rx.(cuts := w.rx.cuts + [cut], burst := []);
    assert BurstWrites(after, |w.rx.cuts|) == w.rx.writes[w.rx.cuts[|w.rx.cuts| - 1]..cut];
  }

  lemma CutsStayOrdered(rx: RxLog, cut: nat)
    requires CutAt(rx, cut)
    ensures CutsOk(rx.(cuts := rx.cuts + [cut], burst := []))
  {
  }

  lemma CutKeepsOldRecords(w: World, rx: RxLog, cut: nat)
    requires RecordsInv(w.d, w.rx, w.own) && CutAt(w.rx, cut) && rx == w.rx.(cuts := w.rx.cuts + [cut], burst := [])
    ensures CutsOk(rx)
    ensures forall i | 0 <= i < |w.own.ids| :: RecordOk(rx, Record(w.own.ids[i], w.d.queue[i]))
    ensures forall i | 0 <= i < |w.own.delivered| :: RecordOk(rx, w.own.delivered[i])
  {
    hide RecordOk, CutsOk, CutAt;
    CutsStayOrdered(w.rx, cut);
    forall i | 0 <= i < |w.own.ids| ensures RecordOk(rx, Record(w.own.ids[i], w.d.queue[i])) {
      RecordSurvivesCut(w.rx, cut, Record(w.own.ids[i], w.d.queue[i]));
    }
    forall i | 0 <= i < |w.own.delivered| ensures RecordOk(rx, w.own.delivered[i]) {
      RecordSurvivesCut(w.rx, cut, w.own.delivered[i]);
    }
  }

  lemma OldIdsAreOlder(d: Driver, rx: RxLog, own: OwnLog)
    requires RecordsInv(d, rx, own)
    ensures forall i | 0 <= i < |own.ids| :: own.ids[i] < |rx.cuts|
    ensures forall i | 0 <= i < |own.delivered| :: own.delivered[i].burst < |rx.cuts|
  {
    forall i | 0 <= i < |own.ids| ensures own.ids[i] < |rx.cuts| {
      assert RecordOk(rx, Record(own.ids[i], d.queue[i]));
    }
  }

  lemma CloseKeepsRecords(w: World, cut: nat)
    requires RxInv(w.d, w.h, w.rx) && RecordsInv(w.d, w.rx, w.own) && CutAt(w.rx, cut) && w.rx.burst != []
    ensures var after := CloseBurst(w, cut);
            RecordsInv(after.d, after.rx, after.own)
  {
    assert |w.own.ids| == |w.d.queue|;
    hide CloseBurst, RecordOk, CutsOk, CutAt, RxInv, RecordsInv;
    CloseFrame(w, cut);
    var after := CloseBurst(w, cut);
    if w.d.overflowed {
      LostKeepsRecords(w, cut, after.d);
    } else {
      NewRecordOk(w, cut);
      KeptKeepsRecords(w, cut, after.d, after.own);
    }
  }

  lemma LostKeepsRecords(w: World, cut: nat, d: Driver)
    requires RecordsInv(w.d, w.rx, w.own) && CutAt(w.rx, cut) && d.queue == w.d.queue
    ensures RecordsInv(d, w.rx.(cuts := w.rx.cuts + [cut], burst := []), w.own.(lost := w.own.lost + 1))
  {
    hide RecordOk, CutsOk, CutAt;
    CutKeepsOldRecords(w, w.rx.(cuts := w.rx.cuts + [cut], burst := []), cut);
  }

  lemma KeptKeepsRecords(w: World, cut: nat, d: Driver, own: OwnLog)
    requires RecordsInv(w.d, w.rx, w.own) && CutAt(w.rx, cut)
    requires RecordOk(w.rx.(cuts := w.rx.cuts + [cut], burst := []), Record(|w.rx.cuts|, w.d.work))
    requires own == w.own.(ids := own.ids, lost := own.lost)
    requires if |w.d.queue| == RX_SLOTS then
               d.queue == w.d.queue[1..] + [w.d.work] && own.ids == w.own.ids[1..] + [|w.rx.cuts|] && own.lost == w.own.lost + 1
             else
               d.queue == w.d.queue + [w.d.work] && own.ids == w.own.ids + [|w.rx.cuts|] && own.lost == w.own.lost
    ensures RecordsInv(d, w.rx.(cuts := w.rx.cuts + [cut], burst := []), own)
  {
    hide RecordOk, CutsOk, CutAt;
    var rx := w.rx.(cuts := w.rx.cuts + [cut], burst := []);
    CutKeepsOldRecords(w, rx, cut);
    OldIdsAreOlder(w.d, w.rx, w.own);
    if |w.d.queue| == RX_SLOTS {
      FullQueueKeepsRecords(w, rx, d, own);
    } else {
      AppendRecord(w.d.queue, rx, w.own.delivered, w.own.ids, w.own.lost, w.d.work);
    }
  }

  /** A full queue drops its oldest record for the new one. */
  lemma FullQueueKeepsRecords(w: World, rx: RxLog, d: Driver, own: OwnLog)
    requires RecordsInv(w.d, w.rx, w.own) && w.d.queue != []
    requires CutsOk(rx) && |rx.cuts| == |w.rx.cuts| + 1
    requires forall i | 0 <= i < |w.own.ids| :: RecordOk(rx, Record(w.own.ids[i], w.d.queue[i])) && w.own.ids[i] < |w.rx.cuts|
    requires forall i | 0 <= i < |w.own.delivered| :: RecordOk(rx, w.own.delivered[i]) && w.own.delivered[i].burst < |w.rx.cuts|
    requires RecordOk(rx, Record(|w.rx.cuts|, w.d.work))
    requires d.queue == w.d.queue[1..] + [w.d.work]
    requires own.ids == w.own.ids[1..] + [|w.rx.cuts|]
    requires own.delivered == w.own.delivered && own.lost == w.own.lost + 1
    ensures RecordsInv(d, rx, own)
  {
    hide RecordOk, CutsOk;
    OldestIsLost(w.d.queue, rx, w.own.delivered, w.own.ids, w.own.lost);
    AppendRecord(w.d.queue[1..], rx, w.own.delivered, w.own.ids[1..], w.own.lost + 1, w.d.work);
    assert forall j | 0 <= j < |own.ids| - 1 :: own.ids[j] == w.own.ids[j + 1];
  }

  lemma OldestIsLost(queue: seq<seq<byte>>, rx: RxLog, delivered: seq<Record>, ids: seq<nat>, lost: nat)
    requires |ids| == |queue| > 0
    requires forall i | 0 <= i < |ids| :: RecordOk(rx, Record(ids[i], queue[i]))
    requires forall i | 0 <= i < |ids| :: 0 <= ids[i] - (|delivered| + i + 1) <= lost
    requires forall i, j | 0 <= i < j < |ids| :: ids[i] < ids[j]
    ensures var (rest, records) := (ids[1..], queue[1..]);
            && (forall i | 0 <= i < |rest| :: RecordOk(rx, Record(rest[i], records[i])))
            && (forall i | 0 <= i < |rest| :: 0 <= rest[i] - (|delivered| + i + 1) <= lost + 1)
            && (forall i, j | 0 <= i < j < |rest| :: rest[i] < rest[j])
  {
    hide RecordOk;
    var (rest, records) := (ids[1..], queue[1..]);
    forall i | 0 <= i < |rest|
      ensures RecordOk(rx, Record(rest[i], records[i])) && 0 <= rest[i] - (|delivered| + i + 1) <= lost + 1
    {
      assert RecordOk(rx, Record(ids[i + 1], queue[i + 1]));
      assert 0 <= ids[i + 1] - (|delivered| + i + 2) <= lost;
    }
  }

  /** The queue grows by the record of the last burst. */
  lemma AppendRecord(queue: seq<seq<byte>>, rx: RxLog, delivered: seq<Record>, ids: seq<nat>, lost: nat, data: seq<byte>)
    requires CutsOk(rx) && |rx.cuts| >= 2 && |ids| == |queue|
    requires |delivered| + |ids| + lost == rx.Bursts() - 1
    requires forall i | 0 <= i < |ids| :: RecordOk(rx, Record(ids[i], queue[i])) && ids[i] < |rx.cuts| - 1
    requires RecordOk(rx, Record(|rx.cuts| - 1, data))
    requires forall i | 0 <= i < |ids| :: 0 <= ids[i] - (|delivered| + i + 1) <= lost
    requires forall i, j | 0 <= i < j < |ids| :: ids[i] < ids[j]
    ensures var (ids', queue') := (ids + [|rx.cuts| - 1], queue + [data]);
            && (forall i | 0 <= i < |ids'| :: RecordOk(rx, Record(ids'[i], queue'[i])))
            && (forall i | 0 <= i < |ids'| :: 0 <= ids'[i] - (|delivered| + i + 1) <= lost)
            && (forall i, j | 0 <= i < j < |ids'| :: ids'[i] < ids'[j])
  {
    hide RecordOk, CutsOk;
  }

  lemma CloseKeepsOwn(w: World, cut: nat)
    requires RxInv(w.d, w.h, w.rx) && OwnInv(w.d, w.h.ready, w.rx, w.own, false) && w.rx.burst != []
    requires w.d.hasReady ==> !w.h.ready
    ensures var after := CloseBurst(w, cut);
            OwnInv(after.d, after.h.ready, after.rx, after.own, false)
  {
    CloseFrame(w, cut);
    hide CloseBurst, CutsOk, OpenWrites;
    assert w.d.InBurst();
  }

  lemma CloseKeepsEdges(w: World, cut: nat)
    requires EdgeInv(w.d, w.h.ready, w.rx, w.edges, false) && |w.own.ids| == |w.d.queue|
    requires w.d.hasReady ==> LastRise(w.edges) == Some(Ack(w.d.requestGeneration))
    ensures var after := CloseBurst(w, cut);
            EdgeInv(after.d, after.h.ready, after.rx, after.edges, false)
  {
    CloseFrame(w, cut);
    hide CloseBurst, LastRise, Disciplined;
  }

  lemma CloseKeepsTx(w: World, cut: nat)
    requires TxInv(w.d, w.h, w.wire) && |w.own.ids| == |w.d.queue|
    ensures var after := CloseBurst(w, cut);
            TxInv(after.d, after.h, after.wire)
  {
    CloseFrame(w, cut);
    hide CloseBurst;
  }

  lemma CloseKeeps(w: World, cut: nat)
    requires Inv(w, false) && CutAt(w.rx, cut) && w.rx.burst != []
    requires w.d.hasReady ==> !w.h.ready && LastRise(w.edges) == Some(Ack(w.d.requestGeneration))
    ensures Inv(CloseBurst(w, cut), false)
  {
    assert |w.own.ids| == |w.d.queue|;
    CloseFrame(w, cut);
    hide CloseBurst, RxInv, SentInv, SignalInv, RecordsInv, OwnInv, TxInv, EdgeInv, LastRise, CutAt;
    CloseKeepsRx(w, cut);
    CloseKeepsRecords(w, cut);
    CloseKeepsOwn(w, cut);
    CloseKeepsEdges(w, cut);
    CloseKeepsTx(w, cut);
    SameBusKeepsSent(w.h.rxBusy, w.rx, CloseBurst(w, cut).rx);
  }

  /** A response that is no longer queued may be forgotten. */
  lemma ForgottenKeeps(w: World)
    requires Inv(w, false) && !w.d.queued
    ensures Inv(w.(d := w.d.(tx := [], loaded := 0)), false)
  {
    hide RxInv, SentInv, SignalInv, RecordsInv, OwnInv, TxInv, EdgeInv;
    var d := w.d.(tx := [], loaded := 0);
    BusyInTarget(w.d, w.h, w.rx);
    SameWorkKeepsRx(w.d, d, w.h, w.h, w.rx);
    SameQueueKeepsRecords(w.d, d, w.rx, w.own);
    SameTurnKeepsPromises(w.d, d, w.h.ready, w.rx, w.own, w.edges, false);
    SameReplyKeepsTx(w.d, d, w.h, w.h, w.wire);
  }

  lemma BurstIsWork(w: World)
    requires Inv(w, false)
    ensures w.d.InBurst() == (w.rx.burst != [])
    ensures |w.rx.burst| <= MAX_TRANSFER ==> w.d.work == w.rx.burst && !w.d.overflowed
    ensures w.rx.burst != [] ==> !w.d.queued
    ensures w.d.hasReady && w.rx.burst != [] ==> w.d.queue == []
    ensures |w.own.ids| == |w.d.queue|
  {
    hide SentInv, SignalInv, RecordsInv, TxInv, EdgeInv, CutsOk, OpenWrites;
  }

  lemma FinishKeeps(w: World)
    requires Inv(w, false) && w.h.rxFifo == [] && !w.h.rxBusy
    ensures Inv(FinishRx(w), false)
  {
    BurstIsWork(w);
    hide Inv, CutAt, CloseBurst, LastRise, AckRequest;
    if w.d.InBurst() {
      var cut := |w.rx.writes|;
      IdleCuts(w);
      if w.d.hasReady {
        var cleared := w.(d := w.d.(tx := [], loaded := 0));
        ForgottenKeeps(w);
        AckKeeps(cleared);
        AckKeepsCut(cleared, cut);
        CloseKeeps(AckRequest(cleared), cut);
      } else {
        CloseKeeps(w, cut);
      }
    }
  }

  lemma IdleCuts(w: World)
    requires Inv(w, false) && w.h.rxFifo == [] && !w.h.rxBusy
    ensures CutAt(w.rx, |w.rx.writes|)
  {
    hide RxInv, SentInv, SignalInv, RecordsInv, OwnInv, TxInv, EdgeInv;
    IdleAndEmptyCuts(w);
  }

  // ---- The whole routine ----

  /** Statistics and error flags are outside the invariant. */
  lemma StatsAreFree(w: World, stats: Stats, recoveries: nat, overrun: bool, underrun: bool, acking: bool)
    requires Inv(w, acking)
    ensures Inv(w.(d := w.d.(stats := stats, recoveries := recoveries),
                   h := w.h.(overrun := overrun, underrun := underrun)), acking)
  {
    hide RxInv, SentInv, SignalInv, RecordsInv, OwnInv, TxInv, EdgeInv;
    var (d, h) := (w.d.(stats := stats, recoveries := recoveries), w.h.(overrun := overrun, underrun := underrun));
    BusyInTarget(w.d, w.h, w.rx);
    SameWorkKeepsRx(w.d, d, w.h, h, w.rx);
    SameQueueKeepsRecords(w.d, d, w.rx, w.own);
    SameTurnKeepsPromises(w.d, d, w.h.ready, w.rx, w.own, w.edges, acking);
    SameReplyKeepsTx(w.d, d, w.h, h, w.wire);
  }

  lemma WriteRsrKeeps(w: World)
    requires Inv(w, false)
    ensures Inv(WriteRsr(w), false)
  {
    TickKeeps(w, false);
    var t := Tick(w);
    StatsAreFree(t, t.d.stats, t.d.recoveries, false, false, false);
    hide Tick, Inv;
    assert WriteRsr(w) ==
           t.(d := t.d.(stats := t.d.stats, recoveries := t.d.recoveries), h := t.h.(overrun := false, underrun := false));
  }

  lemma ErrorsKeep(w: World)
    requires Inv(w, false)
    ensures Inv(ServiceErrors(w), false)
  {
    TickKeeps(w, false);
    hide Tick, Inv;
    var read := ReadRsr(w);
    if read.h.overrun || read.h.underrun {
      var counted := CountErrors(read);
      StatsAreFree(read, counted.d.stats, read.d.recoveries, read.h.overrun, read.h.underrun, false);
      assert counted == read.(d := read.d.(stats := counted.d.stats, recoveries := read.d.recoveries),
                              h := read.h.(overrun := read.h.overrun, underrun := read.h.underrun));
      WriteRsrKeeps(counted);
    }
  }

  lemma SnapshotKeeps(w: World)
    requires Inv(w, false)
    ensures Inv(Snapshot(w), false)
  {
    hide Inv, ServiceErrors, DrainRx, Tick;
    ErrorsKeep(w);
    DrainKeeps(ServiceErrors(w));
    TickKeeps(DrainRx(ServiceErrors(w)), false);
  }

  lemma ServiceKeeps(w: World)
    requires Inv(w, false)
    ensures Inv(Service(w), false)
  {
    hide Inv, Snapshot, FinishRx, RefillTx;
    SnapshotKeeps(w);
    var seen := Snapshot(w);
    if !FlagsOf(seen.h).rxBusy && FlagsOf(seen.h).rxEmpty {
      FinishKeeps(seen);
      RefillKeeps(FinishRx(seen));
    } else {
      RefillKeeps(seen);
    }
  }
}
