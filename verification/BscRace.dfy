/** A write that no check sees. */
module BscRace {
  // The check looks at the driver's own state and at RXBUSY, not at the receive FIFO. A whole write that slips in
  // between the drain and that check is answered with the response to the one before.

  import opened Bytes
  import opened BscWorld
  import opened BscDriver
  import opened BscInvariant
  import opened BscService
  import opened BscActions
  import opened BscResponse
  import opened BscRecovery
  import opened BscLatency
  import opened BscBooks

  /** No byte has been received since the last cut. */
  ghost predicate NothingNewer(rx: RxLog)
    requires CutsOk(rx)
  {
    forall i | rx.cuts[|rx.cuts| - 1] <= i < |rx.writes| :: rx.writes[i] == []
  }

  /**
   A published response answers the last write on the bus that brought a byte, and not only the last burst drained,
   exactly if the receive FIFO is empty when the publication is decided.
   */
  lemma AnswersLastWriteIffFifoEmpty(w: World, data: seq<byte>)
    requires Inv(w, false) && Operational(w)
    ensures var (after, decision) := (PublishResponse(w, data).0, Decision(w));
            |after.own.published| > |w.own.published| ==>
              && CutsOk(decision.rx)
              && (NothingNewer(decision.rx) <==> decision.h.rxFifo == [])
  {
    hide Inv, Service, CheckIdle, PublishResponse, Entitled, OnlyLoads, NothingNewer, CutsOk, OpenWrites;
    PublicationDecided(w, data);
    ServiceKeeps(w);
    var s := Service(w);
    if w.d.hasReady && w.d.workerPending {
      ServiceKeepsBooks(w);
      PendingIsEntitled(s);
      PendingHasRead(s);
      CheckKeeps(ConsumeTurn(s));
      var decision := Decision(w);
      CheckKeepsBooks(ConsumeTurn(s));
      CheckKeepsCuts(ConsumeTurn(s));
      if OwnsLatest(decision.d) && !decision.h.rxBusy {
        IdleStream(decision);
        NewerAreOpen(decision.rx);
      }
    }
  }

  lemma NewerAreOpen(rx: RxLog)
    requires CutsOk(rx)
    ensures NothingNewer(rx) <==> Flatten(OpenWrites(rx)) == []
  {
    var last := rx.cuts[|rx.cuts| - 1];
    OnlyEmptyParts(OpenWrites(rx));
    hide Flatten;
    assert forall i | 0 <= i < |OpenWrites(rx)| :: OpenWrites(rx)[i] == rx.writes[last + i];
    assert forall i | last <= i < |rx.writes| :: rx.writes[i] == OpenWrites(rx)[i - last];
  }

  lemma CheckKeepsCuts(w: World)
    ensures CheckIdle(w).rx.cuts == w.rx.cuts
  {
    TickIsBusOnly(w);
    hide Tick;
  }

  /** A pending worker has read a record, so at least one burst is closed. */
  lemma PendingHasRead(w: World)
    requires Inv(w, false) && w.d.hasReady && w.d.workerPending
    ensures |w.rx.cuts| >= 2
  {
    hide RxInv, SentInv, SignalInv, TxInv, EdgeInv, OpenWrites;
    assert RecordOk(w.rx, w.own.delivered[0]);
  }

  lemma {:induction false} OnlyEmptyParts(parts: seq<seq<byte>>)
    ensures Flatten(parts) == [] <==> forall i | 0 <= i < |parts| :: parts[i] == []
  {
    if parts != [] {
      OnlyEmptyParts(parts[1..]);
      assert forall i | 0 <= i < |parts[1..]| :: parts[1..][i] == parts[i + 1];
      assert |Flatten(parts)| == |parts[0]| + |Flatten(parts[1..])|;
    }
  }

  lemma IdleStream(w: World)
    requires Inv(w, false) && OwnsLatest(w.d) && !w.h.rxBusy && |w.rx.cuts| >= 2
    ensures CutsOk(w.rx) && Flatten(OpenWrites(w.rx)) == w.h.rxFifo
  {
    OwnsLatestIsIdle(w);
    hide SentInv, SignalInv, RecordsInv, OwnInv, TxInv, EdgeInv, OpenWrites, CutsOk, Flatten;
    var bytes := Flatten(OpenWrites(w.rx));
    assert ([] + bytes) + [] == bytes && [] + w.h.rxFifo == w.h.rxFifo;
  }

  /** The fifth register access of a publication is the final look at the flags: the write comes just before it. */
  function Intruder(b: byte): seq<seq<Event>> {
    [[], [], [], []] + [[Start, Send(b), Stop]]
  }

  lemma SilentTick(w: World, rest: seq<seq<Event>>)
    requires w.script == [[]] + rest
    ensures Tick(w) == w.(script := rest)
  {
    assert w.script[1..] == rest;
  }

  lemma IntrusionHappens(w: World, b: byte)
    requires w.script == [[Start, Send(b), Stop]] && w.h.cr == CR_I2C_TARGET && !w.h.rxBusy && w.h.rxFifo == []
    ensures var after := Tick(w);
            && after.script == [] && after.d == w.d && after.own == w.own
            && after.h.rxFifo == [b] && !after.h.rxBusy && |after.rx.writes| == |w.rx.writes| + 1
  {
    var events := [Start, Send(b), Stop];
    assert events[1..] == [Send(b), Stop] && events[1..][1..] == [Stop] && [Stop][1..] == [];
    var base := w.(script := []);
    assert w.script[1..] == [];
    var started := Happen(base, Start);
    var sent := Happen(started, Send(b));
    var stopped := Happen(sent, Stop);
    assert HappenAll(stopped, []) == stopped;
    assert HappenAll(sent, [Stop]) == HappenAll(stopped, [Stop][1..]);
    assert HappenAll(started, [Send(b), Stop]) == HappenAll(sent, [Stop]);
    assert HappenAll(base, events) == HappenAll(started, events[1..]);
  }

  /** Service of an idle device with nothing to load makes four register accesses and changes only the mask. */
  lemma IdleService(w: World, rest: seq<seq<Event>>)
    requires w.script == [[], [], [], []] + rest
    requires w.h.rxFifo == [] && !w.h.rxBusy && !w.h.overrun && !w.h.underrun && !w.d.InBurst() && !w.d.queued
    ensures Service(w) == w.(script := rest, h := w.h.(imsc := InterruptMask(w.d)))
  {
    var w1 := w.(script := [[], [], []] + rest);
    var w2 := w.(script := [[], []] + rest);
    var w3 := w.(script := [[]] + rest);
    assert w.script == [[]] + w1.script && w1.script == [[]] + w2.script && w2.script == [[]] + w3.script;
    SilentTick(w, w1.script);
    SilentTick(w1, w2.script);
    SilentTick(w2, w3.script);
    SilentTick(w3, rest);
    hide Tick;
    assert ServiceErrors(w) == w1;
    assert DrainRx(w1) == w2;
    assert Snapshot(w) == w3;
  }

  /** From every idle state whose worker owns the latest request, such a write is answered with a stale response. */
  lemma PublishesPastANewWrite(w: World, b: byte, data: seq<byte>)
    requires Inv(w, false) && Operational(w) && Owner(w)
    requires w.h.rxFifo == [] && !w.h.rxBusy && !w.h.overrun && !w.h.underrun && w.script == Intruder(b)
    ensures var after := PublishResponse(w, data).0;
            && |after.own.published| == |w.own.published| + 1 && after.d.queued && after.d.tx == data
            && |after.rx.writes| == |w.rx.writes| + 1 && after.h.rxFifo == [b]
  {
    OwnerHasNoBurst(w);
    assert !w.d.queued by {
      hide RxInv, SentInv, SignalInv, RecordsInv, TxInv, EdgeInv;
    }
    hide Inv;
    IdleService(w, [[Start, Send(b), Stop]]);
    PublicationDecided(w, data);
    hide Service;
    var turn := ConsumeTurn(Service(w));
    IntrusionHappens(turn, b);
    hide Tick, Reply;
    ReplyInStillness(Decision(w), data);
  }

  /** A write that has only begun by that look is seen: the response is discarded. */
  lemma NoticesAWriteInProgress(w: World, data: seq<byte>)
    requires Inv(w, false) && Operational(w) && Owner(w)
    requires w.h.rxFifo == [] && !w.h.rxBusy && !w.h.overrun && !w.h.underrun
    requires w.script == [[], [], [], []] + [[Start]]
    ensures var after := PublishResponse(w, data).0;
            && after.own.published == w.own.published && after.own.discards == w.own.discards + 1 && after.h.rxBusy
  {
    OwnerHasNoBurst(w);
    assert !w.d.queued by {
      hide RxInv, SentInv, SignalInv, RecordsInv, TxInv, EdgeInv;
    }
    hide Inv;
    IdleService(w, [[Start]]);
    PublicationDecided(w, data);
    hide Service;
    WriteBeginsThen(ConsumeTurn(Service(w)));
    hide Tick, Reply;
  }

  lemma WriteBeginsThen(w: World)
    requires w.script == [[Start]] && w.h.cr == CR_I2C_TARGET
    ensures Tick(w).h.rxBusy && Tick(w).d == w.d
  {
    var base := w.(script := []);
    assert w.script[1..] == [] && [Start][1..] == [];
    assert HappenAll(base, [Start]) == HappenAll(Happen(base, Start), []);
  }

  lemma ReplyInStillness(w: World, data: seq<byte>)
    requires w.script == []
    ensures Reply(w, data).h.rxFifo == w.h.rxFifo && Reply(w, data).rx == w.rx
  {
    var begun := BeginResponse(w, data);
    RefillInStillness(begun);
    hide RefillTx;
  }
}
