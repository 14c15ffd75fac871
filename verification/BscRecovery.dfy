/** Explicit recovery discards what an abandoned reply left, and the transmit account. */
module BscRecovery {
  import opened Bytes
  import opened BscWorld
  import opened BscDriver
  import opened BscInvariant
  import opened BscService
  import opened BscActions
  import opened BscResponse
  import opened BscPurge

  // ---- Nothing is discarded ----

  /** The FIFO fills up behind the serializer. */
  predicate FillsBehind(h: Hw) {
    h.serializer.None? ==> h.txFifo == []
  }

  /** The controller meets no gap before it has read all that was there. */
  ghost predicate NoEarlyGap(w: World, after: World) {
    && |after.wire.out| + |after.h.TxContents()| >= |w.wire.out| + |w.h.TxContents()|
    && after.wire.gaps >= w.wire.gaps
    && (after.wire.gaps > w.wire.gaps ==> |after.wire.out| >= |w.wire.out| + |w.h.TxContents()|)
  }

  /** The same account of the transmit side, continued. */
  ghost predicate WireGrows(w: World, after: World) {
    && after.wire.stale == w.wire.stale && w.wire.fed <= after.wire.fed && w.wire.out <= after.wire.out
    && after.purges == w.purges
    && (FillsBehind(w.h) ==> FillsBehind(after.h) && NoEarlyGap(w, after))
  }

  lemma GrowsChain(a: World, b: World, c: World)
    requires WireGrows(a, b) && WireGrows(b, c)
    ensures WireGrows(a, c)
  {
  }

  lemma {:induction false} HappenAllGrows(w: World, events: seq<Event>)
    ensures WireGrows(w, HappenAll(w, events))
    decreases |events|
  {
    if events != [] {
      var next := Happen(w, events[0]);
      HappenIsBusOnly(w, events[0]);
      assert WireGrows(w, next);
      HappenAllGrows(next, events[1..]);
      hide Happen, BusOnly;
    }
  }

  lemma TickGrows(w: World)
    ensures WireGrows(w, Tick(w))
  {
    if w.script != [] {
      HappenAllGrows(w.(script := w.script[1..]), w.script[0]);
    }
  }

  lemma {:induction false} DrainGrows(w: World)
    ensures WireGrows(w, DrainRx(w))
    decreases |w.script|, |w.h.rxFifo|
  {
    TickGrows(w);
    TickIsBusOnly(w);
    hide Tick, DrainByte, BusOnly;
    var seen := ReadFr(w);
    if seen.h.rxFifo != [] {
      DrainByteShrinks(seen);
      DrainByteGrows(seen);
      DrainGrows(DrainByte(seen));
      hide WireGrows;
      GrowsChain(w, seen, DrainByte(seen));
      GrowsChain(w, DrainByte(seen), DrainRx(w));
    }
  }

  lemma DrainByteGrows(w: World)
    requires w.h.rxFifo != []
    ensures WireGrows(w, DrainByte(w))
  {
    TickGrows(w);
    TickIsBusOnly(w);
    DrainByteIsDrained(w);
    DrainedFrame(Tick(w), Tick(w).h.rxFifo[0]);
    hide Tick, DrainByte, Drained;
  }

  lemma {:induction false} LoadGrows(w: World)
    ensures WireGrows(w, LoadTx(w))
    decreases |w.d.tx| - w.d.loaded
  {
    if w.d.Unloaded() {
      TickGrows(w);
      TickIsBusOnly(w);
      hide Tick, WriteNext, BusOnly;
      var seen := ReadFr(w);
      if !FlagsOf(seen.h).txFull {
        WriteNextAdvances(seen);
        WriteNextGrows(seen);
        LoadGrows(WriteNext(seen));
        hide WireGrows;
        GrowsChain(w, seen, WriteNext(seen));
        GrowsChain(w, WriteNext(seen), LoadTx(w));
      }
    }
  }

  lemma WriteNextGrows(w: World)
    requires w.d.loaded < |w.d.tx|
    ensures WireGrows(w, WriteNext(w))
  {
    TickGrows(w);
    hide Tick;
  }

  lemma SetReadyGrows(w: World, level: bool, edge: Edge)
    ensures WireGrows(w, SetReady(w, level, edge))
  {
    TickGrows(w);
    hide Tick;
  }

  lemma FinishGrows(w: World)
    ensures WireGrows(w, FinishRx(w))
  {
    if w.d.InBurst() && w.d.hasReady {
      var cleared := w.(d := w.d.(tx := [], loaded := 0));
      var raised := SetReady(cleared, true, Ack(cleared.d.requestGeneration));
      SetReadyGrows(cleared, true, Ack(cleared.d.requestGeneration));
      SetReadyGrows(raised, false, Release);
      hide SetReady;
    }
  }

  lemma SnapshotGrows(w: World)
    ensures WireGrows(w, Snapshot(w))
  {
    TickGrows(w);
    TickGrows(CountErrors(ReadRsr(w)));
    var counted := ServiceErrors(w);
    assert WireGrows(w, counted) by {
      hide Tick;
    }
    hide Tick, ServiceErrors, DrainRx, WireGrows;
    DrainGrows(counted);
    TickGrows(DrainRx(counted));
    GrowsChain(w, counted, DrainRx(counted));
    GrowsChain(w, DrainRx(counted), Snapshot(w));
  }

  lemma RefillGrows(w: World)
    ensures WireGrows(w, RefillTx(w))
  {
    LoadGrows(w);
    TickGrows(LoadTx(w));
    hide Tick, LoadTx;
  }

  lemma ServiceGrows(w: World)
    ensures WireGrows(w, Service(w))
  {
    hide Snapshot, FinishRx, RefillTx, WireGrows;
    var seen := Snapshot(w);
    SnapshotGrows(w);
    FinishGrows(seen);
    var finished := if !FlagsOf(seen.h).rxBusy && FlagsOf(seen.h).rxEmpty then FinishRx(seen) else seen;
    GrowsSelf(seen);
    RefillGrows(finished);
    GrowsChain(w, seen, finished);
    GrowsChain(w, finished, Service(w));
  }

  lemma GrowsSelf(w: World)
    ensures WireGrows(w, w)
  {
  }

  // ---- The outcome of a recovery ----

  /**
   A recovery that fails changes no more than the service it begins with and discards no byte; one that
   succeeds leaves nothing for the controller to read, releases READY, and keeps the worker's ownership.
   */
  lemma RecoveryOutcome(w: World)
    requires Inv(w, false) && Operational(w)
    ensures var (serviced, after, result) := (Service(w), RecoverResponse(w).0, RecoverResponse(w).1);
            && (result.EPROTO? <==> !(serviced.d.hasReady && serviced.d.workerPending))
            && (result == Done(0) <==>
                  && serviced.d.hasReady && serviced.d.workerPending
                  && serviced.d.workerGeneration == serviced.d.requestGeneration && serviced.d.work == []
                  && !CheckIdle(serviced).h.rxBusy)
            && (result.EPROTO? || result.EAGAIN? || result == Done(0))
            && (if result == Done(0) then Restarted(serviced, after) else after.d == serviced.d && WireGrows(w, after))
  {
    hide Inv, Service, InterruptMask, Recover, WireGrows, Operational, MayReply, CheckIdle, Restarted;
    ServiceReady(w);
    ServiceGrows(w);
    var s := Service(w);
    if s.d.hasReady && s.d.workerPending {
      RecoveryDecided(s);
      MayReplyIs(s);
      GrowsChain(w, s, CheckIdle(s));
    }
  }

  lemma MayReplyIs(w: World)
    ensures MayReply(CheckIdle(w)) <==>
              w.d.workerGeneration == w.d.requestGeneration && w.d.work == [] && !CheckIdle(w).h.rxBusy
  {
    CheckIdleFrame(w);
    hide CheckIdle;
  }

  /** The transmit side is empty, READY released, and the worker that had read the last record still owns it. */
  ghost predicate Restarted(w: World, after: World) {
    && after.h.TxContents() == [] && !after.h.ready && after.d.workerPending
    && after.d.workerGeneration == after.d.requestGeneration
    && after.d == w.d.(queued := false, tx := [], loaded := 0, recoveries := w.d.recoveries + 1)
  }

  lemma RecoveryDecided(w: World)
    requires Inv(w, false) && Operational(w) && w.d.hasReady && w.d.workerPending
    ensures var checked := CheckIdle(w);
            && checked.d == w.d && WireGrows(w, checked)
            && (MayReply(checked) ==> Restarted(w, Recover(checked)))
  {
    hide Inv, Recover, CheckIdle, InterruptMask, WireGrows, Entitled, OnlyLoads, MayReply;
    PendingIsEntitled(w);
    CheckKeeps(w);
    CheckReady(w);
    CheckGrows(w);
    var checked := CheckIdle(w);
    if MayReply(checked) {
      MayReplyOwns(checked);
      EntitledIsReleased(checked);
      KeptInOrder(checked);
      RecoverKeeps(checked);
      RecoverEmpties(checked);
    }
  }

  lemma EntitledIsReleased(w: World)
    requires Entitled(w)
    ensures w.d.hasReady && !w.h.ready
  {
    hide LastRise;
  }

  lemma KeptInOrder(w: World)
    requires Inv(w, false)
    ensures w.h.serializer.None? ==> w.h.txFifo == []
  {
    hide RxInv, SentInv, SignalInv, RecordsInv, OwnInv, EdgeInv;
  }

  lemma CheckGrows(w: World)
    ensures WireGrows(w, CheckIdle(w))
  {
    TickGrows(w);
    hide Tick;
  }

  lemma RecoverEmpties(w: World)
    requires w.h.serializer.None? ==> w.h.txFifo == []
    ensures Recover(w).h.TxContents() == []
  {
    hide Configure, SetReady;
    var forgotten := w.(d := w.d.(queued := false, tx := [], loaded := 0));
    ConfigureEmpties(forgotten);
    var configured := Configure(forgotten);
    SetReadyStaysEmpty(configured.(d := configured.d.(recoveries := configured.d.recoveries + 1)), false, Release);
  }

  lemma SetReadyStaysEmpty(w: World, level: bool, edge: Edge)
    requires w.h.TxContents() == []
    ensures SetReady(w, level, edge).h.TxContents() == []
  {
    StaysEmpty(w);
    hide Tick;
  }

  // ---- A quiet bus: the controller only reads ----

  ghost predicate ClockOnly(script: seq<seq<Event>>) {
    forall i, j | 0 <= i < |script| && 0 <= j < |script[i]| :: script[i][j] == Clock
  }

  ghost predicate Quiet(w: World) {
    w.h.rxFifo == [] && !w.h.rxBusy && ClockOnly(w.script)
  }

  /** No input arrived between the two, and none is going to. */
  ghost predicate StaysQuiet(w: World, after: World) {
    && Quiet(after) && after.rx == w.rx && after.own == w.own
  }

  lemma {:induction false} ClocksStayQuiet(w: World, events: seq<Event>)
    requires forall j | 0 <= j < |events| :: events[j] == Clock
    ensures var after := HappenAll(w, events);
            && after.rx == w.rx && after.own == w.own && after.script == w.script
            && after.h.rxFifo == w.h.rxFifo && after.h.rxBusy == w.h.rxBusy
            && after.h.overrun == w.h.overrun
    decreases |events|
  {
    if events != [] {
      var next := Happen(w, Clock);
      assert next.rx == w.rx && next.own == w.own && next.script == w.script
             && next.h.rxFifo == w.h.rxFifo && next.h.rxBusy == w.h.rxBusy && next.h.overrun == w.h.overrun;
      hide Happen;
      ClocksStayQuiet(next, events[1..]);
    }
  }

  lemma QuietTick(w: World)
    requires Quiet(w)
    ensures StaysQuiet(w, Tick(w))
  {
    if w.script != [] {
      ClocksStayQuiet(w.(script := w.script[1..]), w.script[0]);
      hide HappenAll;
      assert forall i | 0 <= i < |w.script[1..]| :: w.script[1..][i] == w.script[i + 1];
    }
  }

  lemma QuietRegisters(w: World, value: nat)
    requires Quiet(w)
    ensures StaysQuiet(w, WriteImsc(w, value)) && StaysQuiet(w, WriteSlv(w, value)) && StaysQuiet(w, WriteRsr(w))
    ensures StaysQuiet(w, WriteCr(w, value))
  {
    QuietTick(w);
    hide Tick, ClockOnly;
  }

  lemma {:induction false} QuietTransitions(w: World, count: nat)
    requires Quiet(w)
    ensures StaysQuiet(w, Transitions(w, count))
    decreases count
  {
    hide WriteCr, Quiet;
    if count > 0 {
      var enabled := WriteCr(w, CR_EN + CR_TXE);
      var off := WriteCr(enabled, 0);
      QuietRegisters(w, CR_EN + CR_TXE);
      QuietRegisters(enabled, 0);
      QuietTransitions(off, count - 1);
    }
  }

  lemma QuietPurge(w: World)
    requires Quiet(w)
    ensures StaysQuiet(w, PurgeTxFifo(w))
  {
    var seen := ReadFr(w);
    QuietTick(w);
    QuietRegisters(seen, 0);
    hide Tick, WriteCr, Transitions, ClockOnly;
    QuietTransitions(WriteCr(seen, 0), FlagsOf(seen.h).txLevel + 1);
  }

  lemma QuietConfigure(w: World)
    requires Quiet(w)
    ensures StaysQuiet(w, Configure(w))
  {
    hide Quiet, Tick, PurgeTxFifo, WriteCr, WriteImsc, WriteSlv, WriteRsr;
    var masked := WriteImsc(w, 0);
    QuietRegisters(w, 0);
    var purged := PurgeTxFifo(masked);
    QuietPurge(masked);
    var cleared := WriteRsr(purged);
    QuietRegisters(purged, 0);
    var addressed := WriteSlv(cleared, purged.d.address);
    QuietRegisters(cleared, purged.d.address);
    QuietTick(addressed);
    QuietTick(Tick(addressed));
    var touched := Tick(Tick(addressed));
    QuietRegisters(touched, CR_I2C_TARGET);
    var enabled := WriteCr(touched, CR_I2C_TARGET);
    QuietRegisters(enabled, InterruptMask(enabled.d));
    assert Configure(w) == SetInterrupts(enabled);
  }

  lemma QuietSnapshot(w: World)
    requires Quiet(w)
    ensures var after := Snapshot(w);
            && StaysQuiet(w, after) && after.d == w.d.(stats := after.d.stats)
            && after.h.ready == w.h.ready && after.edges == w.edges
  {
    var read := ReadRsr(w);
    QuietTick(w);
    TickIsBusOnly(w);
    QuietRegisters(CountErrors(read), 0);
    TickIsBusOnly(CountErrors(read));
    hide Tick, ClockOnly;
    var checked := ServiceErrors(w);
    QuietTick(checked);
    TickIsBusOnly(checked);
    assert DrainRx(checked) == Tick(checked);
    QuietTick(Tick(checked));
    TickIsBusOnly(Tick(checked));
  }

  lemma QuietNext(w: World)
    requires Quiet(w) && w.d.loaded < |w.d.tx|
    ensures StaysQuiet(w, WriteNext(w))
  {
    QuietTick(w);
    TickIsBusOnly(w);
    hide Tick, ClockOnly;
  }

  lemma {:induction false} QuietLoad(w: World)
    requires Quiet(w)
    ensures StaysQuiet(w, LoadTx(w))
    decreases |w.d.tx| - w.d.loaded
  {
    hide Tick, WriteNext, Quiet;
    if w.d.Unloaded() {
      TickIsBusOnly(w);
      QuietTick(w);
      var seen := ReadFr(w);
      if !FlagsOf(seen.h).txFull {
        QuietNext(seen);
        WriteNextAdvances(seen);
        QuietLoad(WriteNext(seen));
      }
    }
  }

  lemma QuietRefill(w: World)
    requires Quiet(w)
    ensures StaysQuiet(w, RefillTx(w))
  {
    QuietLoad(w);
    QuietRegisters(LoadTx(w), InterruptMask(LoadTx(w).d));
    hide LoadTx, WriteImsc, InterruptMask, Quiet;
  }

  lemma QuietReady(w: World, level: bool, edge: Edge)
    requires Quiet(w)
    ensures StaysQuiet(w, SetReady(w, level, edge))
  {
    QuietTick(w);
    hide Tick, ClockOnly;
  }

  /** The end of a burst changes no generation and no turn. */
  lemma FinishOwnership(w: World)
    requires Quiet(w) && |w.own.ids| == |w.d.queue|
    ensures var (after, d) := (FinishRx(w), FinishRx(w).d);
            && Quiet(after) && !d.InBurst() && d.hasReady == w.d.hasReady && d.workerPending == w.d.workerPending
            && d.requestGeneration == w.d.requestGeneration && d.workerGeneration == w.d.workerGeneration
  {
    if w.d.InBurst() {
      var cleared := w.(d := w.d.(tx := [], loaded := 0));
      var raised := SetReady(cleared, true, Ack(cleared.d.requestGeneration));
      QuietReady(cleared, true, Ack(cleared.d.requestGeneration));
      QuietReady(raised, false, Release);
      SetReadyIsSteady(cleared, true, Ack(cleared.d.requestGeneration));
      SetReadyIsSteady(raised, false, Release);
      hide SetReady, ClockOnly, CloseBurst;
      var acked := if w.d.hasReady then AckRequest(cleared) else w;
      CloseFrame(acked, |w.rx.writes|);
      CloseKeepsScript(acked, |w.rx.writes|);
    }
  }

  lemma CloseKeepsScript(w: World, cut: nat)
    ensures CloseBurst(w, cut).script == w.script
  {
  }

  /** With no input, service only loads the response and ends a burst in progress. */
  lemma QuietService(w: World)
    requires Quiet(w) && |w.own.ids| == |w.d.queue|
    ensures var (after, d) := (Service(w), Service(w).d);
            && Quiet(after) && !d.InBurst() && d.hasReady == w.d.hasReady && d.workerPending == w.d.workerPending
            && d.requestGeneration == w.d.requestGeneration && d.workerGeneration == w.d.workerGeneration
            && (!w.d.InBurst() ==> StaysQuiet(w, after) && d == w.d.(loaded := d.loaded, stats := d.stats)
                                   && after.h.ready == w.h.ready && after.edges == w.edges)
  {
    QuietSnapshot(w);
    hide Snapshot, RefillTx, FinishRx, ClockOnly;
    var seen := Snapshot(w);
    FinishOwnership(seen);
    NoBurstNoFinish(seen);
    QuietRefill(FinishRx(seen));
    RefillFrame(FinishRx(seen));
  }

  lemma NoBurstNoFinish(w: World)
    ensures !w.d.InBurst() ==> FinishRx(w) == w
  {
  }

  lemma QuietCheck(w: World)
    requires Quiet(w)
    ensures StaysQuiet(w, CheckIdle(w)) && MayReply(CheckIdle(w)) == OwnsLatest(w.d)
  {
    QuietTick(w);
    TickIsBusOnly(w);
    hide Tick, ClockOnly;
  }

  /** On a quiet bus a recovery succeeds exactly for the worker that owns the latest request. */
  lemma RecoverySucceedsWhenQuiet(w: World)
    requires Inv(w, false) && Quiet(w)
    ensures RecoverResponse(w).1 == Done(0) <==>
            w.d.hasReady && w.d.workerPending && w.d.workerGeneration == w.d.requestGeneration
  {
    assert |w.own.ids| == |w.d.queue|;
    hide Inv, Service, CheckIdle, Recover, MayReply, Quiet;
    QuietService(w);
    QuietCheck(Service(w));
  }

  // ---- The reply after a recovery ----

  lemma QuietRecover(w: World)
    requires Quiet(w)
    ensures StaysQuiet(w, Recover(w))
  {
    hide Configure, SetReady, ClockOnly;
    var configured := Configure(w.(d := w.d.(queued := false, tx := [], loaded := 0)));
    QuietConfigure(w.(d := w.d.(queued := false, tx := [], loaded := 0)));
    QuietReady(configured.(d := configured.d.(recoveries := configured.d.recoveries + 1)), false, Release);
  }

  lemma OwnerHasNoBurst(w: World)
    requires Inv(w, false) && w.d.hasReady && w.d.workerGeneration == w.d.requestGeneration
    ensures w.rx.burst == [] && !w.d.InBurst() && |w.own.ids| == |w.d.queue|
  {
    hide SentInv, SignalInv, RecordsInv, TxInv, EdgeInv, CutsOk, OpenWrites;
  }

  /** The worker that owns the latest request, and may recover or reply. */
  ghost predicate Owner(w: World) {
    w.d.hasReady && w.d.workerPending && w.d.workerGeneration == w.d.requestGeneration
  }

  lemma QuietRecovery(w: World)
    requires Inv(w, false) && Operational(w) && Quiet(w) && Owner(w)
    ensures var (after, result) := RecoverResponse(w);
            && result == Done(0) && StaysQuiet(w, after) && Owner(after) && Restarted(Service(w), after)
  {
    OwnerHasNoBurst(w);
    RecoverySucceedsWhenQuiet(w);
    RecoveryOutcome(w);
    QuietService(w);
    hide Inv, Operational, Service, CheckIdle, Recover, MayReply, Quiet;
    QuietCheck(Service(w));
    QuietRecover(CheckIdle(Service(w)));
  }

  lemma QuietServiceStaysEmpty(w: World)
    requires Quiet(w) && !w.d.InBurst() && !w.d.queued && w.h.TxContents() == []
    ensures Service(w).h.TxContents() == []
  {
    SnapshotStaysEmpty(w);
    QuietSnapshot(w);
    hide Snapshot;
    var seen := Snapshot(w);
    NoBurstNoFinish(seen);
    assert RefillTx(seen) == SetInterrupts(seen);
    hide Tick;
    StaysEmpty(seen);
  }

  lemma SnapshotStaysEmpty(w: World)
    requires Quiet(w) && w.h.TxContents() == []
    ensures Snapshot(w).h.TxContents() == []
  {
    var read := ReadRsr(w);
    StaysEmpty(w);
    StaysEmpty(CountErrors(read));
    QuietTick(w);
    QuietRegisters(CountErrors(read), 0);
    hide Tick, ClockOnly;
    var checked := ServiceErrors(w);
    assert StaysQuiet(w, checked);
    StaysEmpty(checked);
    QuietTick(checked);
    assert DrainRx(checked) == Tick(checked);
    StaysEmpty(Tick(checked));
  }

  /** What a reply that meets an empty transmit path puts on the wire. */
  ghost predicate RepliedExactly(w: World, after: World, data: seq<byte>) {
    && after.own.published == w.own.published + [Publication(w.own.LastRead(), w.rx.Begun(), data)]
    && after.d.queued && after.d.tx == data && after.h.ready
    && after.wire.stale == [] && after.rx == w.rx
  }

  lemma ReplyIsExact(w: World, data: seq<byte>)
    requires Quiet(w) && w.h.TxContents() == [] && w.d.hasReady
    ensures RepliedExactly(w, Reply(w, data), data)
  {
    var begun := BeginResponse(w, data);
    assert Quiet(begun) && begun.rx == w.rx && begun.wire.stale == [] && begun.d.queued && begun.d.tx == data
           && begun.own.published == w.own.published + [Publication(w.own.LastRead(), w.rx.Begun(), data)];
    hide BeginResponse, RefillTx, SetReady, Quiet;
    RefillGrows(begun);
    RefillFrame(begun);
    QuietRefill(begun);
    var counted := CountReply(RefillTx(begun), |data|);
    CountReplyIsQuiet(RefillTx(begun), |data|);
    hide CountReply;
    SetReadyGrows(counted, true, Respond(counted.d.requestGeneration));
    SetReadyFrame(counted, true, Respond(counted.d.requestGeneration));
    QuietReady(counted, true, Respond(counted.d.requestGeneration));
  }

  lemma CountReplyIsQuiet(w: World, count: nat)
    ensures var after := CountReply(w, count);
            && after == w.(d := after.d) && after.d == w.d.(stats := after.d.stats)
            && (Quiet(w) ==> Quiet(after))
  {
  }

  lemma QuietPublish(w: World, data: seq<byte>)
    requires Quiet(w) && Owner(w) && !w.d.InBurst() && !w.d.queued && w.h.TxContents() == [] && |w.own.ids| == |w.d.queue|
    ensures var (after, result) := PublishResponse(w, data);
            result == Done(|data|) && RepliedExactly(w, after, data)
  {
    QuietService(w);
    QuietServiceStaysEmpty(w);
    hide Service, CheckIdle, Reply, MayReply, ClockOnly;
    var turn := ConsumeTurn(Service(w));
    QuietCheck(turn);
    CheckIdleFrame(turn);
    ReplyIsExact(CheckIdle(turn), data);
  }

  lemma CheckIdleFrame(w: World)
    ensures CheckIdle(w).d == w.d
    ensures w.h.TxContents() == [] ==> CheckIdle(w).h.TxContents() == []
  {
    TickIsBusOnly(w);
    if w.h.TxContents() == [] {
      StaysEmpty(w);
    }
    hide Tick;
  }
}
