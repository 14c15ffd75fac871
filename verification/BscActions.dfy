/**
 The other critical sections keep the invariant: configuration with its purge, reset, and reading a record. It also
 says what the sections leave alone: the lifecycle flags and the mode of the peripheral, which only opening, closing
 and recovery change, and everything but the number of bytes loaded, which is all that a refill changes. A write to
 the control register is split into cutting a write in progress short and changing the mode, because the two touch
 different parts of the invariant.
 */
module BscActions {
  import opened BscWorld
  import opened BscDriver
  import opened BscInvariant
  import opened BscService

  // ---- What the operations leave alone ----

  lemma TickIsSteady(w: World)
    ensures Steady(w, Tick(w))
  {
    TickIsBusOnly(w);
    hide Tick;
  }

  lemma DrainByteIsSteady(w: World)
    requires w.h.rxFifo != []
    ensures Steady(w, DrainByte(w))
  {
    TickIsSteady(w);
    TickIsBusOnly(w);
    hide Tick, DrainByte, Drained;
    DrainedFrame(Tick(w), Tick(w).h.rxFifo[0]);
    DrainByteIsDrained(w);
  }

  lemma DrainByteIsDrained(w: World)
    requires Tick(w).h.rxFifo != []
    ensures DrainByte(w) == Drained(Tick(w), Tick(w).h.rxFifo[0])
  {
    hide Tick;
  }

  lemma {:induction false} DrainIsSteady(w: World)
    ensures Steady(w, DrainRx(w)) && DrainRx(w).h.rxFifo == []
    decreases |w.script|, |w.h.rxFifo|
  {
    TickIsSteady(w);
    TickIsBusOnly(w);
    hide Tick, DrainByte, BusOnly;
    var seen := ReadFr(w);
    if seen.h.rxFifo != [] {
      DrainByteShrinks(seen);
      DrainByteIsSteady(seen);
      DrainIsSteady(DrainByte(seen));
    }
  }

  /** Nothing of the driver changes but the number of bytes loaded. */
  ghost predicate OnlyLoads(w: World, after: World) {
    && Steady(w, after) && after.d == w.d.(loaded := after.d.loaded)
    && after.own == w.own && after.edges == w.edges && after.h.ready == w.h.ready
    && after.rx.burst == w.rx.burst && after.rx.cuts == w.rx.cuts && after.rx.leftover == w.rx.leftover
    && w.rx.writes <= after.rx.writes && w.h.rxFifo <= after.h.rxFifo
  }

  lemma LoadsChain(a: World, b: World, c: World)
    requires OnlyLoads(a, b) && OnlyLoads(b, c)
    ensures OnlyLoads(a, c)
  {
  }

  lemma TickOnlyLoads(w: World)
    ensures OnlyLoads(w, Tick(w))
  {
    TickIsBusOnly(w);
    hide Tick;
  }

  lemma NextOnlyLoads(w: World)
    requires w.d.loaded < |w.d.tx|
    ensures OnlyLoads(w, WriteNext(w)) && WriteNext(w).d.loaded == w.d.loaded + 1
  {
    TickIsBusOnly(w);
    WriteNextFrame(w);
    hide Tick, WriteNext, PutDr;
  }

  lemma {:induction false} LoadFrame(w: World)
    ensures OnlyLoads(w, LoadTx(w))
    decreases |w.d.tx| - w.d.loaded
  {
    hide OnlyLoads, Tick, WriteNext;
    if w.d.Unloaded() {
      TickIsBusOnly(w);
      TickOnlyLoads(w);
      var seen := ReadFr(w);
      if !FlagsOf(seen.h).txFull {
        NextOnlyLoads(seen);
        WriteNextAdvances(seen);
        LoadFrame(WriteNext(seen));
        LoadsChain(w, seen, WriteNext(seen));
        LoadsChain(w, WriteNext(seen), LoadTx(w));
      }
    } else {
      NothingLoads(w);
    }
  }

  lemma NothingLoads(w: World)
    ensures OnlyLoads(w, w)
  {
  }

  /** After a refill the transmit interrupt is enabled exactly while response bytes remain to be loaded. */
  lemma RefillFrame(w: World)
    ensures OnlyLoads(w, RefillTx(w)) && RefillTx(w).h.imsc == InterruptMask(RefillTx(w).d)
  {
    LoadFrame(w);
    TickIsBusOnly(LoadTx(w));
    hide Tick, LoadTx;
  }

  lemma ErrorsAreSteady(w: World)
    ensures Steady(w, ServiceErrors(w))
  {
    TickIsSteady(w);
    TickIsSteady(CountErrors(Tick(w)));
    hide Tick;
  }

  lemma SetReadyIsSteady(w: World, level: bool, edge: Edge)
    ensures Steady(w, SetReady(w, level, edge)) && SetReady(w, level, edge).h.imsc == w.h.imsc
    ensures SetReady(w, level, edge).d == w.d && SetReady(w, level, edge).own == w.own
  {
    TickIsBusOnly(w);
    hide Tick;
  }

  lemma FinishIsSteady(w: World)
    ensures Steady(w, FinishRx(w))
  {
    if w.d.InBurst() && w.d.hasReady {
      var cleared := w.(d := w.d.(tx := [], loaded := 0));
      SetReadyIsSteady(cleared, true, Ack(cleared.d.requestGeneration));
      SetReadyIsSteady(SetReady(cleared, true, Ack(cleared.d.requestGeneration)), false, Release);
      hide SetReady;
    }
  }

  lemma ServiceIsSteady(w: World)
    ensures Steady(w, Service(w)) && Service(w).h.imsc == InterruptMask(Service(w).d)
  {
    hide ServiceErrors, DrainRx, Tick, FinishRx, RefillTx, InterruptMask;
    var checked := ServiceErrors(w);
    ErrorsAreSteady(w);
    DrainIsSteady(checked);
    TickIsSteady(DrainRx(checked));
    var seen := Snapshot(w);
    FinishIsSteady(seen);
    RefillFrame(if !FlagsOf(seen.h).rxBusy && FlagsOf(seen.h).rxEmpty then FinishRx(seen) else seen);
  }

  // ---- Configuration ----

  /** These registers and flags are outside the invariant. */
  lemma RegistersAreFree(w: World, h: Hw, acking: bool)
    requires Inv(w, acking)
    requires h == w.h.(imsc := h.imsc, slv := h.slv, overrun := h.overrun, underrun := h.underrun)
    ensures Inv(w.(h := h), acking)
  {
    hide SentInv, SignalInv, RecordsInv, OpenWrites, Disciplined, LastRise;
    assert h.TxContents() == w.h.TxContents();
  }

  lemma RegisterWritesKeep(w: World, value: nat)
    requires Inv(w, false)
    ensures Inv(WriteImsc(w, value), false) && Inv(WriteSlv(w, value), false) && Inv(WriteRsr(w), false) && Inv(Touch(w), false)
    ensures WriteImsc(w, value).d == WriteSlv(w, value).d == WriteRsr(w).d == Touch(w).d == w.d
    ensures WriteImsc(w, value).h.cr == WriteSlv(w, value).h.cr == WriteRsr(w).h.cr == Touch(w).h.cr == w.h.cr
    ensures WriteImsc(w, value).h.slv == WriteRsr(w).h.slv == Touch(w).h.slv == w.h.slv && WriteSlv(w, value).h.slv == value
    ensures WriteSlv(w, value).h.imsc == WriteRsr(w).h.imsc == Touch(w).h.imsc == w.h.imsc && WriteImsc(w, value).h.imsc == value
  {
    TickKeeps(w, false);
    hide Tick, Inv;
    var t := Tick(w);
    RegistersAreFree(t, t.h.(imsc := value), false);
    RegistersAreFree(t, t.h.(slv := value), false);
    RegistersAreFree(t, t.h.(overrun := false, underrun := false), false);
  }

  lemma CutShortKeeps(w: World)
    requires Inv(w, false) && w.h.rxBusy
    ensures Inv(CutShort(w), false) && CutShort(w).d == w.d
  {
    var (after, marked) := (CutShort(w), w.(rx := w.rx.(severed := w.rx.severed + {|w.rx.writes|})));
    var ended := EndWrite(marked);
    assert after == ended.(rx := ended.rx.(bus := ended.rx.bus.(trailing := true))) && after.wire == w.wire
           && w.rx.writes <= after.rx.writes
           && after.rx.burst == w.rx.burst && after.rx.cuts == w.rx.cuts && after.rx.leftover == w.rx.leftover;
    CutShortFrame(w);
    assert after.h.rxBusy == false;
    CutShortKeepsSent(w);
    hide CutShort, RxInv, SentInv, SignalInv, OwnInv, EdgeInv, RecordsInv, TxInv;
    MarksAreFree(w.d, w.h, w.rx, w.rx.holed, marked.rx.severed, w.rx.bus);
    EndWriteKeepsRx(marked);
    MarksAreFree(w.d, ended.h, ended.rx, ended.rx.holed, ended.rx.severed, after.rx.bus);
    RecordsKeep(w.d, w.rx, after.rx, w.own);
    SameBurstKeepsPromises(w.d, w.h.ready, w.rx, after.rx, w.own, w.edges, false);
    SameReplyKeepsTx(w.d, w.d, w.h, after.h, w.wire);
  }

  lemma CutShortKeepsSent(w: World)
    requires SentInv(true, w.rx)
    ensures SentInv(false, CutShort(w).rx)
  {
    hide SentInv, SignalInv;
    EndWriteKeepsSent(w.rx, w.rx.severed + {|w.rx.writes|}, true);
  }

  lemma SetModeKeeps(w: World, value: nat)
    requires Inv(w, false) && !w.d.queued && (w.h.rxBusy ==> value == CR_I2C_TARGET)
    ensures Inv(SetMode(w, value), false)
  {
    hide SentInv, SignalInv, OwnInv, EdgeInv, RecordsInv, TxInv, RxInv;
    SetModeKeepsTx(w, value);
    SetModeTouches(w, value);
    hide SetMode;
    SameWorkKeepsRx(w.d, w.d, w.h, SetMode(w, value).h, w.rx);
  }

  lemma SetModeTouches(w: World, value: nat)
    ensures var after := SetMode(w, value);
            && after == w.(h := after.h, wire := after.wire) && after.h.cr == value
            && after.h.rxFifo == w.h.rxFifo && after.h.rxBusy == w.h.rxBusy && after.h.ready == w.h.ready
  {
  }

  lemma SetModeKeepsTx(w: World, value: nat)
    requires TxInv(w.d, w.h, w.wire) && !w.d.queued
    ensures TxInv(w.d, SetMode(w, value).h, SetMode(w, value).wire)
  {
    var after := SetMode(w, value);
    if w.h.cr % 2 == 0 && value % 2 == 1 {
      assert after.wire.stale + [] == [] + after.h.TxContents();
    } else {
      assert after.h.TxContents() == w.h.TxContents();
    }
  }

  lemma SetCrKeeps(w: World, value: nat)
    requires Inv(w, false) && !w.d.queued
    ensures Inv(SetCr(w, value), false)
  {
    hide Inv, CutShort, SetMode;
    CutShortFrame(w);
    if w.h.rxBusy {
      CutShortKeeps(w);
    }
    SetModeKeeps(if w.h.rxBusy && value != CR_I2C_TARGET then CutShort(w) else w, value);
  }

  /** A write to CR changes nothing else of these. */
  ghost predicate ModeOnly(w: World, after: World) {
    && after.d == w.d && after.own == w.own && after.edges == w.edges && after.purges == w.purges
    && after.h.slv == w.h.slv && after.h.imsc == w.h.imsc && after.h.ready == w.h.ready
    && after.h.rxFifo == w.h.rxFifo && after.script == w.script
  }

  lemma CutShortFrame(w: World)
    ensures ModeOnly(w, CutShort(w)) && CutShort(w).h.cr == w.h.cr && !CutShort(w).h.rxBusy
    ensures CutShort(w).h.serializer == w.h.serializer && CutShort(w).h.txFifo == w.h.txFifo
    ensures CutShort(w).h.TxContents() == w.h.TxContents() && CutShort(w).h.Shifted().TxContents() == w.h.Shifted().TxContents()
  {
  }

  lemma SetModeFrame(w: World, value: nat)
    ensures ModeOnly(w, SetMode(w, value)) && SetMode(w, value).h.cr == value
    ensures SetMode(w, value).h.TxContents() ==
            if w.h.cr % 2 == 0 && value % 2 == 1 then w.h.Shifted().TxContents() else w.h.TxContents()
  {
  }

  lemma SetCrFrame(w: World, value: nat)
    ensures ModeOnly(w, SetCr(w, value)) && SetCr(w, value).h.cr == value
    ensures SetCr(w, value).h.TxContents() ==
            if w.h.cr % 2 == 0 && value % 2 == 1 then w.h.Shifted().TxContents() else w.h.TxContents()
  {
    CutShortFrame(w);
    SetModeFrame(w, value);
    SetModeFrame(CutShort(w), value);
    hide CutShort, SetMode;
  }

  lemma WriteCrKeeps(w: World, value: nat)
    requires Inv(w, false) && !w.d.queued
    ensures var after := WriteCr(w, value);
            && Inv(after, false) && after.d == w.d && after.h.cr == value && after.h.slv == w.h.slv && after.h.imsc == w.h.imsc
  {
    TickKeeps(w, false);
    hide Tick, Inv, SetCr;
    SetCrKeeps(Tick(w), value);
    SetCrFrame(Tick(w), value);
  }

  lemma {:induction false} TransitionsKeep(w: World, count: nat)
    requires Inv(w, false) && !w.d.queued && w.h.cr == 0
    ensures var after := Transitions(w, count);
            && Inv(after, false) && after.d == w.d && after.h.cr == 0 && after.h.slv == w.h.slv && after.h.imsc == w.h.imsc
    decreases count
  {
    hide Inv, WriteCr;
    if count > 0 {
      var enabled := WriteCr(w, CR_EN + CR_TXE);
      WriteCrKeeps(w, CR_EN + CR_TXE);
      WriteCrKeeps(enabled, 0);
      TransitionsKeep(WriteCr(enabled, 0), count - 1);
    }
  }

  lemma PurgeKeeps(w: World)
    requires Inv(w, false) && !w.d.queued
    ensures var after := PurgeTxFifo(w);
            && Inv(after, false) && after.d == w.d && after.h.cr == 0 && after.h.slv == w.h.slv && after.h.imsc == w.h.imsc
  {
    TickKeeps(w, false);
    hide Tick, WriteCr, Transitions, RxInv, SentInv, SignalInv, RecordsInv, OwnInv, TxInv, EdgeInv;
    var seen := ReadFr(w);
    WriteCrKeeps(seen, 0);
    TransitionsKeep(WriteCr(seen, 0), FlagsOf(seen.h).txLevel + 1);
  }

  lemma ConfigureKeeps(w: World)
    requires Inv(w, false) && !w.d.queued
    ensures var after := Configure(w);
            && Inv(after, false) && after.d == w.d
            && after.h.cr == CR_I2C_TARGET && after.h.slv == w.d.address && after.h.imsc == InterruptMask(w.d)
  {
    hide Inv, Tick, PurgeTxFifo, WriteCr, WriteImsc, WriteSlv, WriteRsr, Touch, InterruptMask;
    var masked := WriteImsc(w, 0);
    RegisterWritesKeep(w, 0);
    var purged := PurgeTxFifo(masked);
    PurgeKeeps(masked);
    RegisterWritesKeep(purged, 0);
    var cleared := WriteRsr(purged);
    RegisterWritesKeep(cleared, w.d.address);
    var addressed := WriteSlv(cleared, w.d.address);
    RegisterWritesKeep(addressed, 0);
    RegisterWritesKeep(Touch(addressed), 0);
    var touched := Touch(Touch(addressed));
    WriteCrKeeps(touched, CR_I2C_TARGET);
    RegisterWritesKeep(WriteCr(touched, CR_I2C_TARGET), InterruptMask(w.d));
  }

  // ---- Reset ----

  lemma ScriptKeeps(w: World, script: seq<seq<Event>>)
    requires Inv(w, false)
    ensures Inv(w.(script := script), false)
  {
    hide RxInv, SentInv, SignalInv, RecordsInv, OwnInv, TxInv, EdgeInv;
  }

  /** Everything forgotten, READY not yet released. */
  function Cleared(w: World): World {
    w.(d := w.d.(work := [], overflowed := false, queue := [], tx := [], loaded := 0, queued := false,
                 requestGeneration := 0, workerGeneration := 0, workerPending := false),
       rx := w.rx.(burst := [], cuts := [|w.rx.writes|], leftover := w.h.rxFifo),
       own := Forgotten(w.own))
  }

  /** Out of target mode nothing is being received: what the FIFO holds is all that is left. */
  lemma ClearedKeeps(w: World)
    requires Inv(w, false) && w.h.cr != CR_I2C_TARGET
    ensures Inv(Cleared(w), true) && (!w.d.hasReady ==> !w.h.ready && Inv(Cleared(w), false))
  {
    var after := Cleared(w);
    NothingSince(w);
    SameBusKeepsSent(w.h.rxBusy, w.rx, after.rx);
    hide RxInv, SentInv, SignalInv, Disciplined, LastRise, OpenWrites;
  }

  lemma NothingSince(w: World)
    requires RxInv(w.d, w.h, w.rx) && w.h.cr != CR_I2C_TARGET
    ensures RxInv(Cleared(w).d, w.h, Cleared(w).rx)
  {
    var rx := Cleared(w).rx;
    assert OpenWrites(rx) == [];
    assert Ended(rx) == rx.leftover + [];
    assert Ended(rx) + rx.partial == [] + w.h.rxFifo;
  }

  lemma ResetKeeps(w: World)
    requires Inv(w, false) && w.h.cr != CR_I2C_TARGET
    ensures var (after, d) := (ResetIo(w), ResetIo(w).d);
            && Inv(after, false) && Steady(w, after) && after.h.imsc == w.h.imsc && !after.h.ready
            && d.work == [] && d.queue == [] && d.tx == [] && !d.queued && !d.workerPending
  {
    hide Inv;
    var cleared := Cleared(w);
    ClearedKeeps(w);
    SetReadyIsSteady(cleared, false, Release);
    ReleaseKeeps(cleared, w.d.hasReady);
    ResetIsRelease(w);
    hide ResetIo;
  }

  lemma ResetIsRelease(w: World)
    ensures ResetIo(w) == SetReady(Cleared(w), false, Release)
    ensures !w.d.hasReady ==> ResetIo(w) == Cleared(w)
  {
    hide Tick;
  }

  // ---- Reading ----

  lemma ReadKeepsRecords(w: World)
    requires RecordsInv(w.d, w.rx, w.own) && w.d.queue != []
    ensures var after := ReadMessage(w, |w.d.queue[0]|).0;
            RecordsInv(after.d, w.rx, after.own)
  {
    hide RecordOk, CutsOk;
    var (own, queue) := (w.own, w.d.queue);
    var next := own.(ids := own.ids[1..], delivered := own.delivered + [Record(own.ids[0], queue[0])]);
    forall i | 0 <= i < |next.ids|
      ensures RecordOk(w.rx, Record(next.ids[i], queue[1..][i])) && 0 <= next.ids[i] - (|next.delivered| + i + 1) <= own.lost
    {
      assert RecordOk(w.rx, Record(own.ids[i + 1], queue[i + 1]));
      assert 0 <= own.ids[i + 1] - (|own.delivered| + i + 2) <= own.lost;
    }
    forall i | 0 <= i < |next.delivered|
      ensures RecordOk(w.rx, next.delivered[i]) && 0 <= next.delivered[i].burst - (i + 1) <= own.lost
    {
      if i == |own.delivered| {
        assert RecordOk(w.rx, Record(own.ids[0], queue[0]));
        assert 0 <= own.ids[0] - (|own.delivered| + 0 + 1) <= own.lost;
      }
    }
  }

  lemma ReadKeepsOwn(w: World)
    requires OwnInv(w.d, w.h.ready, w.rx, w.own, false) && w.d.queue != []
    ensures var after := ReadMessage(w, |w.d.queue[0]|).0;
            OwnInv(after.d, w.h.ready, w.rx, after.own, false)
  {
  }

  lemma ReadKeepsEdges(w: World)
    requires OwnInv(w.d, w.h.ready, w.rx, w.own, false) && EdgeInv(w.d, w.h.ready, w.rx, w.edges, false) && w.d.queue != []
    ensures var after := ReadMessage(w, |w.d.queue[0]|).0;
            EdgeInv(after.d, w.h.ready, w.rx, w.edges, false)
  {
    hide Disciplined, LastRise, CutsOk;
  }

  lemma ReadKeeps(w: World, capacity: nat)
    requires Inv(w, false)
    ensures Inv(ReadMessage(w, capacity).0, false)
  {
    if w.d.queue != [] && capacity >= |w.d.queue[0]| {
      var after := ReadMessage(w, capacity).0;
      assert after == ReadMessage(w, |w.d.queue[0]|).0;
      assert after.h == w.h && after.rx == w.rx && after.wire == w.wire && after.edges == w.edges
             && after.d.work == w.d.work && after.d.overflowed == w.d.overflowed
             && after.d.queued == w.d.queued && after.d.tx == w.d.tx && after.d.loaded == w.d.loaded;
      hide ReadMessage, RxInv, SentInv, SignalInv, RecordsInv, OwnInv, TxInv, EdgeInv;
      ReadKeepsRecords(w);
      ReadKeepsOwn(w);
      ReadKeepsEdges(w);
      SameWorkKeepsRx(w.d, after.d, w.h, w.h, w.rx);
      SameReplyKeepsTx(w.d, after.d, w.h, w.h, w.wire);
    }
  }

  lemma ReadFrame(w: World, capacity: nat)
    ensures var after := ReadMessage(w, capacity).0;
            Steady(w, after) && after.h == w.h && InterruptMask(after.d) == InterruptMask(w.d)
  {
  }
}
