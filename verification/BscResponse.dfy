/**
 Recovery and publication keep the invariant. Both begin with a service run, which may end the burst that the
 worker was about to answer, and both decide by a look at the flags, before which the bus moves once more. What
 survives that last look is `Entitled`: the worker still has its turn, READY is released, and if nothing newer has
 begun its record is the latest burst, acknowledged and not yet answered.
 */
module BscResponse {
  import opened Bytes
  import opened BscWorld
  import opened BscDriver
  import opened BscInvariant
  import opened BscService
  import opened BscActions

  /**
   The worker may still decide the fate of the record it has read: READY is released, and if nothing newer
   has begun, the record it has read is the latest burst, which has been acknowledged.
   */
  ghost predicate Entitled(w: World) {
    && w.d.hasReady && !w.h.ready
    && w.own.LastRead() == w.d.workerGeneration
    && |w.own.published| + w.own.discards < |w.own.delivered|
    && (w.d.workerGeneration == w.d.requestGeneration && w.rx.burst == [] ==>
          w.d.queue == [] && LastRise(w.edges) == Some(Ack(w.d.requestGeneration)))
  }

  lemma PendingIsEntitled(w: World)
    requires Inv(w, false) && w.d.hasReady && w.d.workerPending
    ensures Entitled(w)
    ensures Inv(ConsumeTurn(w), false) && Entitled(ConsumeTurn(w))
  {
    hide RxInv, SentInv, SignalInv, RecordsInv, OwnInv, TxInv, EdgeInv, Entitled;
    var d := ConsumeTurn(w).d;
    BusyInTarget(w.d, w.h, w.rx);
    SameWorkKeepsRx(w.d, d, w.h, w.h, w.rx);
    SameQueueKeepsRecords(w.d, d, w.rx, w.own);
    SameReplyKeepsTx(w.d, d, w.h, w.h, w.wire);
    ConsumedKeepsPromises(w);
  }

  lemma ConsumedKeepsPromises(w: World)
    requires OwnInv(w.d, w.h.ready, w.rx, w.own, false) && EdgeInv(w.d, w.h.ready, w.rx, w.edges, false)
    requires w.d.hasReady && w.d.workerPending
    ensures var d := ConsumeTurn(w).d; OwnInv(d, w.h.ready, w.rx, w.own, false) && EdgeInv(d, w.h.ready, w.rx, w.edges, false)
    ensures Entitled(w) && Entitled(ConsumeTurn(w))
  {
    hide CutsOk, Disciplined, LastRise;
  }

  lemma TickKeepsEntitled(w: World)
    requires Entitled(w)
    ensures Entitled(Tick(w))
  {
    TickIsBusOnly(w);
    hide Tick, LastRise;
  }

  lemma OwnsLatestIsIdle(w: World)
    requires Inv(w, false) && OwnsLatest(w.d)
    ensures w.rx.burst == [] && w.d.requestGeneration == w.rx.Begun()
  {
    hide SentInv, SignalInv, RecordsInv, OpenWrites, CutsOk, Disciplined, LastRise;
  }

  lemma CheckKeeps(w: World)
    requires Inv(w, false)
    ensures Inv(CheckIdle(w), false) && OnlyLoads(w, CheckIdle(w)) && CheckIdle(w).d == w.d
    ensures CheckIdle(w).h.imsc == w.h.imsc
    ensures Entitled(w) ==> Entitled(CheckIdle(w))
  {
    TickKeeps(w, false);
    TickOnlyLoads(w);
    NothingLoads(w);
    if Entitled(w) {
      TickKeepsEntitled(w);
    }
    hide Inv, Tick, Entitled, OnlyLoads;
  }

  // ---- Recovery ----

  lemma ForgetResponseKeeps(w: World)
    requires Inv(w, false) && !w.h.ready
    ensures Inv(w.(d := w.d.(queued := false, tx := [], loaded := 0)), false)
  {
    hide RxInv, SentInv, SignalInv, RecordsInv, OwnInv, TxInv, EdgeInv;
    var d := w.d.(queued := false, tx := [], loaded := 0);
    BusyInTarget(w.d, w.h, w.rx);
    SameWorkKeepsRx(w.d, d, w.h, w.h, w.rx);
    SameQueueKeepsRecords(w.d, d, w.rx, w.own);
    SameReplyKeepsTx(w.d, d, w.h, w.h, w.wire);
    UnqueuedKeepsPromises(w.d, d, w.rx, w.own, w.edges);
  }

  lemma UnqueuedKeepsPromises(d: Driver, e: Driver, rx: RxLog, own: OwnLog, edges: seq<Edge>)
    requires OwnInv(d, false, rx, own, false) && EdgeInv(d, false, rx, edges, false)
    requires e == d.(queued := false, tx := [], loaded := 0)
    ensures OwnInv(e, false, rx, own, false) && EdgeInv(e, false, rx, edges, false)
  {
    hide CutsOk, Disciplined, LastRise;
  }

  lemma RecoveriesAreFree(w: World)
    requires Inv(w, false)
    ensures Inv(w.(d := w.d.(recoveries := w.d.recoveries + 1)), false)
  {
    StatsAreFree(w, w.d.stats, w.d.recoveries + 1, w.h.overrun, w.h.underrun, false);
    hide Inv;
    assert w.(d := w.d.(recoveries := w.d.recoveries + 1)) ==
           w.(d := w.d.(stats := w.d.stats, recoveries := w.d.recoveries + 1),
              h := w.h.(overrun := w.h.overrun, underrun := w.h.underrun));
  }

  lemma RecoverKeeps(w: World)
    requires Inv(w, false) && w.d.hasReady && !w.h.ready && w.h.cr == CR_I2C_TARGET && w.h.slv == w.d.address
    ensures var after := Recover(w);
            && Inv(after, false) && !after.h.ready
            && after.d == w.d.(queued := false, tx := [], loaded := 0, recoveries := w.d.recoveries + 1)
            && after.h.cr == CR_I2C_TARGET && after.h.slv == w.d.address && after.h.imsc == InterruptMask(after.d)
  {
    hide Inv, Configure, SetReady;
    var forgotten := w.(d := w.d.(queued := false, tx := [], loaded := 0));
    ForgetResponseKeeps(w);
    ConfigureKeeps(forgotten);
    var configured := Configure(forgotten);
    RecoveriesAreFree(configured);
    var counted := configured.(d := configured.d.(recoveries := configured.d.recoveries + 1));
    ReleaseKeeps(counted, false);
    SetReadyIsSteady(counted, false, Release);
  }

  /** The interrupt mask and the registers of an active device between critical sections. */
  ghost predicate Operational(w: World) {
    w.h.cr == CR_I2C_TARGET && w.h.slv == w.d.address && w.h.imsc == InterruptMask(w.d)
  }

  ghost predicate SameLife(w: World, after: World) {
    && after.d.hasReady == w.d.hasReady && after.d.address == w.d.address
    && after.d.active == w.d.active && after.d.dead == w.d.dead && after.d.isOpen == w.d.isOpen
  }

  lemma ServiceReady(w: World)
    requires Inv(w, false) && Operational(w)
    ensures Inv(Service(w), false) && Operational(Service(w)) && SameLife(w, Service(w))
  {
    ServiceKeeps(w);
    ServiceIsSteady(w);
    hide Inv, Service, InterruptMask;
  }

  lemma RecoverResponseKeeps(w: World)
    requires Inv(w, false) && Operational(w)
    ensures var after := RecoverResponse(w).0;
            Inv(after, false) && Operational(after) && SameLife(w, after)
  {
    ServiceReady(w);
    var s := Service(w);
    hide Inv, Service, CheckIdle, InterruptMask, Recover, MayReply;
    if s.d.hasReady && s.d.workerPending {
      PendingIsEntitled(s);
      CheckKeeps(s);
      var c := CheckIdle(s);
      if MayReply(c) {
        RecoverKeeps(c);
      }
    }
  }

  // ---- Publication ----

  lemma DiscardKeeps(w: World)
    requires Inv(w, false) && Entitled(w) && !w.d.workerPending
    ensures Inv(Discard(w), false)
  {
    var after := Discard(w);
    hide OpenWrites, CutsOk, Disciplined, LastRise, RecordOk;
    assert after.h.TxContents() == w.h.TxContents();
  }

  /** A response is about to be announced. */
  ghost predicate Announced(w: World) {
    && w.d.hasReady && !w.h.ready && w.d.queued && !w.d.workerPending && w.d.queue == [] && w.rx.burst == []
    && LastRise(w.edges) == Some(Ack(w.d.requestGeneration))
  }

  lemma BeginResponseKeeps(w: World, data: seq<byte>)
    requires Inv(w, false) && Entitled(w) && !w.d.workerPending && OwnsLatest(w.d)
    ensures var after := BeginResponse(w, data);
            && Inv(after, false) && Announced(after)
            && after.wire == WireLog(w.h.TxContents(), [], [], 0, false, w.wire.signals) && after.h == w.h
  {
    var after := BeginResponse(w, data);
    OwnsLatestIsIdle(w);
    assert after.wire.stale + after.wire.fed == after.wire.out + after.h.TxContents();
    PublishedKeepsRecords(w, after);
    hide OpenWrites, CutsOk, Disciplined, LastRise, SentInv, SignalInv, RecordsInv;
  }

  lemma PublishedKeepsRecords(w: World, after: World)
    requires RecordsInv(w.d, w.rx, w.own) && after.d.queue == w.d.queue && after.rx == w.rx
    requires after.own == w.own.(published := after.own.published)
    ensures RecordsInv(after.d, after.rx, after.own)
  {
  }

  lemma OnlyLoadsKeepsAnnounced(w: World, after: World)
    requires Announced(w) && OnlyLoads(w, after)
    ensures Announced(after)
  {
  }

  /** The response has been loaded, whole or as far as serializer and FIFO reach. */
  ghost predicate Prepared(w: World) {
    w.d.loaded == |w.d.tx| || |w.wire.stale| + |w.wire.fed| >= 17
  }

  /** However the controller clocks meanwhile, loading goes on until everything is loaded or nothing more fits. */
  lemma {:induction false} LoadPrepares(w: World)
    requires Inv(w, false) && w.d.queued
    ensures Prepared(LoadTx(w))
    decreases |w.d.tx| - w.d.loaded
  {
    TickKeeps(w, false);
    var seen := ReadFr(w);
    if w.d.Unloaded() {
      if FlagsOf(seen.h).txFull {
        FullIsPrepared(seen);
        hide Inv, Tick;
      } else {
        hide Inv, Tick, WriteNext, Prepared;
        WriteNextKeeps(seen);
        WriteNextAdvances(seen);
        LoadPrepares(WriteNext(seen));
      }
    } else {
      LoadedIsWhole(w);
      hide Inv;
    }
  }

  lemma FullIsPrepared(w: World)
    requires Inv(w, false) && |w.h.txFifo| >= FIFO_SIZE
    ensures Prepared(w)
  {
    hide RxInv, SentInv, SignalInv, RecordsInv, OwnInv, EdgeInv;
    assert |w.wire.stale + w.wire.fed| == |w.wire.out| + |w.h.TxContents()|;
  }

  lemma LoadedIsWhole(w: World)
    requires Inv(w, false) && w.d.queued
    ensures w.d.loaded <= |w.d.tx|
  {
    hide RxInv, SentInv, SignalInv, RecordsInv, OwnInv, EdgeInv;
  }

  lemma RefillPrepares(w: World)
    requires Inv(w, false) && w.d.queued
    ensures Prepared(RefillTx(w))
  {
    LoadPrepares(w);
    TickIsBusOnly(LoadTx(w));
    hide Tick, LoadTx, Inv;
  }

  /** What the controller finds is what has been prepared, less what it has taken already. */
  lemma SignalIsOk(w: World)
    requires TxInv(w.d, w.h, w.wire) && w.d.queued && Prepared(w)
    ensures SignalOk(SignalOf(w))
  {
    assert |w.wire.fed| == w.d.loaded;
  }

  lemma RespondKeepsSignals(w: World)
    requires Inv(w, false) && w.d.queued && Prepared(w)
    ensures SignalInv(w.edges + [Respond(w.d.requestGeneration)], w.wire.signals + [SignalOf(Tick(w))])
  {
    TickKeeps(w, false);
    TickIsBusOnly(w);
    ResponsesAppend(w.edges, Respond(w.d.requestGeneration));
    assert Prepared(Tick(w));
    TransmitStands(Tick(w));
    SignalIsOk(Tick(w));
    hide Tick, Responses, SignalOk, RxInv, SentInv, RecordsInv, OwnInv, TxInv, EdgeInv;
  }

  lemma TransmitStands(w: World)
    requires Inv(w, false)
    ensures TxInv(w.d, w.h, w.wire)
  {
    hide RxInv, SentInv, SignalInv, RecordsInv, OwnInv, TxInv, EdgeInv;
  }

  lemma RespondKeeps(w: World)
    requires Inv(w, false) && Announced(w) && Prepared(w)
    ensures Inv(SetReady(w, true, Respond(w.d.requestGeneration)), false)
  {
    TickKeeps(w, false);
    TickIsBusOnly(w);
    SetReadyFrame(w, true, Respond(w.d.requestGeneration));
    RespondKeepsSignals(w);
    hide Tick, SetReady, SentInv, SignalInv, RecordsInv, RxInv, Disciplined, LastRise, TxInv, Prepared;
    EdgeAppend(w.edges, Respond(w.d.requestGeneration));
    RespondedIsInv(Tick(w), SetReady(w, true, Respond(w.d.requestGeneration)));
  }

  lemma RespondedIsInv(w: World, after: World)
    requires Inv(w, false) && Announced(w) && Disciplined(after.edges)
    requires LastRise(after.edges) == Some(Respond(w.d.requestGeneration))
    requires after == w.(h := w.h.(ready := true), edges := w.edges + [Respond(w.d.requestGeneration)],
                         wire := w.wire.(signals := after.wire.signals))
    requires SignalInv(after.edges, after.wire.signals)
    ensures Inv(after, false)
  {
    hide SentInv, SignalInv, RecordsInv, RxInv, Disciplined, LastRise, TxInv;
    ReadyIsNotReceived(w, true);
    SignalsAreLog(w.d, after.h, w.wire, after.wire);
  }

  lemma SignalsAreLog(d: Driver, h: Hw, wire: WireLog, after: WireLog)
    requires TxInv(d, h, wire) && after == wire.(signals := after.signals)
    ensures TxInv(d, h, after)
  {
  }

  lemma CountReplyKeeps(w: World, count: nat)
    requires Inv(w, false)
    ensures Inv(CountReply(w, count), false) && CountReply(w, count).h == w.h
    ensures Announced(w) ==> Announced(CountReply(w, count))
  {
    var stats := CountReply(w, count).d.stats;
    StatsAreFree(w, stats, w.d.recoveries, w.h.overrun, w.h.underrun, false);
    hide Inv;
    assert CountReply(w, count) == w.(d := w.d.(stats := stats, recoveries := w.d.recoveries),
                                      h := w.h.(overrun := w.h.overrun, underrun := w.h.underrun));
  }

  lemma ReplyKeeps(w: World, data: seq<byte>)
    requires Inv(w, false) && Entitled(w) && !w.d.workerPending && OwnsLatest(w.d)
    requires w.h.cr == CR_I2C_TARGET && w.h.slv == w.d.address
    ensures Inv(Reply(w, data), false) && Operational(Reply(w, data)) && SameLife(w, Reply(w, data))
  {
    BeginResponseKeeps(w, data);
    var begun := BeginResponse(w, data);
    assert SameLife(w, begun);
    assert begun.d.queued;
    hide Inv, BeginResponse, RefillTx, SetReady, Entitled, LastRise, CountReply, Prepared;
    RefillKeeps(begun);
    RefillFrame(begun);
    var loaded := RefillTx(begun);
    OnlyLoadsKeepsAnnounced(begun, loaded);
    RefillPrepares(begun);
    CountReplyKeeps(loaded, |data|);
    CountReplyFrame(loaded, |data|);
    var counted := CountReply(loaded, |data|);
    RespondKeeps(counted);
    SetReadyIsSteady(counted, true, Respond(counted.d.requestGeneration));
  }

  lemma CountReplyFrame(w: World, count: nat)
    ensures SameLife(w, CountReply(w, count)) && InterruptMask(CountReply(w, count).d) == InterruptMask(w.d)
    ensures CountReply(w, count).d.requestGeneration == w.d.requestGeneration
    ensures Prepared(w) ==> Prepared(CountReply(w, count))
  {
  }

  lemma PublishKeeps(w: World, data: seq<byte>)
    requires Inv(w, false) && Operational(w)
    ensures var after := PublishResponse(w, data).0;
            Inv(after, false) && Operational(after) && SameLife(w, after)
  {
    ServiceReady(w);
    var s := Service(w);
    hide Inv, Service, CheckIdle, Reply, Discard, Entitled, InterruptMask, OnlyLoads, MayReply;
    if s.d.hasReady && s.d.workerPending {
      PendingIsEntitled(s);
      var p := ConsumeTurn(s);
      assert Operational(p) && SameLife(s, p) by {
        ConsumeFrame(s);
      }
      CheckKeeps(p);
      CheckReady(p);
      var c := CheckIdle(p);
      if MayReply(c) {
        MayReplyOwns(c);
        ReplyKeeps(c, data);
      } else {
        DiscardKeeps(c);
        DiscardFrame(c);
      }
    }
  }

  lemma ConsumeFrame(w: World)
    ensures SameLife(w, ConsumeTurn(w)) && ConsumeTurn(w).h == w.h && InterruptMask(ConsumeTurn(w).d) == InterruptMask(w.d)
  {
  }

  lemma DiscardFrame(w: World)
    ensures SameLife(w, Discard(w)) && Discard(w).h == w.h && InterruptMask(Discard(w).d) == InterruptMask(w.d)
  {
  }

  lemma CheckReady(w: World)
    requires Operational(w)
    ensures Operational(CheckIdle(w)) && CheckIdle(w).d == w.d
  {
    TickIsBusOnly(w);
    hide Tick;
  }

  lemma MayReplyOwns(w: World)
    requires MayReply(w)
    ensures OwnsLatest(w.d)
  {
  }
}
