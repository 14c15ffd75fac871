/**
 What holds at every register access, whatever the bus does, and its preservation by the bus. The invariant has seven
 parts that are proved one by one: the bytes of the burst in progress, what the target took of each write, the records
 made of finished bursts, the ownership of the latest request, the transmit path, the drives of READY, and what was loaded
 when READY announced a response. Each part depends on few fields, and the lemmas here say which.
 */
module BscInvariant {
  import opened Bytes
  import opened BscWorld

  ghost predicate CutsOk(rx: RxLog) {
    && |rx.cuts| >= 1
    && (forall i, j | 0 <= i < j < |rx.cuts| :: rx.cuts[i] <= rx.cuts[j])
    && rx.cuts[|rx.cuts| - 1] <= |rx.writes|
  }

  /** The controller writes of finished burst `k`. */
  ghost function BurstWrites(rx: RxLog, k: nat): seq<seq<byte>>
    requires CutsOk(rx) && 1 <= k <= rx.Bursts()
  {
    rx.writes[rx.cuts[k - 1]..rx.cuts[k]]
  }

  /** The completed writes that no finished burst contains yet. */
  ghost function OpenWrites(rx: RxLog): seq<seq<byte>>
    requires CutsOk(rx)
  {
    rx.writes[rx.cuts[|rx.cuts| - 1]..]
  }

  /** What the first burst begins with: bytes that are older than the writes in the log. */
  ghost function Lead(rx: RxLog, burst: int): seq<byte> {
    if burst == 1 then rx.leftover else []
  }

  /** The bytes since the last cut, up to the write in progress. */
  ghost function Ended(rx: RxLog): seq<byte>
    requires CutsOk(rx)
  {
    Lead(rx, |rx.cuts|) + Flatten(OpenWrites(rx))
  }

  /** The bytes of finished burst `k`. */
  ghost function BurstBytes(rx: RxLog, k: nat): seq<byte>
    requires CutsOk(rx) && 1 <= k <= rx.Bursts()
  {
    Lead(rx, k) + Flatten(BurstWrites(rx, k))
  }

  ghost predicate NoEmptyBurst(rx: RxLog)
    requires CutsOk(rx)
  {
    forall k | 1 <= k <= rx.Bursts() :: BurstBytes(rx, k) != []
  }

  /**
   The bytes since the last burst are the drained ones and those in the FIFO: none is lost or reordered. The
   receiver works in target mode only.
   */
  ghost predicate RxInv(d: Driver, h: Hw, rx: RxLog) {
    && CutsOk(rx) && NoEmptyBurst(rx)
    && (!h.rxBusy ==> rx.partial == [])
    && (h.rxBusy ==> h.cr == CR_I2C_TARGET)
    && Ended(rx) + rx.partial == rx.burst + h.rxFifo
    && (if |rx.burst| <= MAX_TRANSFER then d.work == rx.burst && !d.overflowed
        else d.work == rx.burst[..MAX_TRANSFER] && d.overflowed)
  }

  /** Write `i` has lost bytes, to a full FIFO or at its end. */
  predicate Damaged(rx: RxLog, i: nat) {
    i in rx.holed || i in rx.bus.clipped
  }

  /** The target has taken each write as it was sent unless a mark says otherwise, and then it has taken less. */
  ghost predicate SentInv(busy: bool, rx: RxLog) {
    && |rx.bus.sent| == |rx.writes|
    && (forall i | 0 <= i < |rx.writes| ::
          if Damaged(rx, i) then |rx.writes[i]| < |rx.bus.sent[i]| else rx.writes[i] == rx.bus.sent[i])
    && (if |rx.writes| in rx.holed then |rx.partial| < |rx.bus.sending| else rx.partial == rx.bus.sending)
    && (!busy ==> rx.bus.sending == [])
    && (forall i | i in rx.holed :: i <= |rx.writes|)
    && (forall i | i in rx.bus.clipped :: i in rx.severed)
    && (forall i | i in rx.severed :: i < |rx.writes|)
    && (rx.bus.trailing ==> !busy && rx.writes != [] && |rx.writes| - 1 in rx.severed)
  }

  /** A record is one burst: the controller writes between two cuts, after what the first burst began with. */
  ghost predicate RecordOk(rx: RxLog, r: Record) {
    && CutsOk(rx)
    && 1 <= r.burst <= rx.Bursts()
    && 0 < |r.data| <= MAX_TRANSFER
    && r.data == BurstBytes(rx, r.burst)
  }

  /**
   Every record delivered or queued is whole and in bus order. Its position in that order trails its burst
   number by at most the number of records lost, so nothing is missing while nothing has been lost.
   */
  ghost predicate RecordsInv(d: Driver, rx: RxLog, own: OwnLog) {
    && CutsOk(rx)
    && |own.ids| == |d.queue|
    && |own.delivered| + |own.ids| + own.lost == rx.Bursts()
    && (forall i | 0 <= i < |own.ids| :: RecordOk(rx, Record(own.ids[i], d.queue[i])))
    && (forall i | 0 <= i < |own.delivered| :: RecordOk(rx, own.delivered[i]))
    && (forall i | 0 <= i < |own.ids| :: 0 <= own.ids[i] - (|own.delivered| + i + 1) <= own.lost)
    && (forall i | 0 <= i < |own.delivered| :: 0 <= own.delivered[i].burst - (i + 1) <= own.lost)
    && (forall i, j | 0 <= i < j < |own.ids| :: own.ids[i] < own.ids[j])
    && (forall i, j | 0 <= i < j < |own.delivered| :: own.delivered[i].burst < own.delivered[j].burst)
    && (forall i, j | 0 <= i < |own.delivered| && 0 <= j < |own.ids| :: own.delivered[i].burst < own.ids[j])
  }

  /**
   Generations count bursts; a waiting record is always the latest burst, so the generation a reader takes
   is the burst of the record it reads; and a response is only ever published for the latest burst.
   `acking` allows the instant at which READY acknowledges a request.
   */
  ghost predicate OwnInv(d: Driver, ready: bool, rx: RxLog, own: OwnLog, acking: bool) {
    && d.requestGeneration == rx.Begun()
    && d.workerGeneration <= d.requestGeneration
    && d.loaded <= |d.tx|
    && |own.ids| == |d.queue| <= RX_SLOTS
    && (d.hasReady && rx.burst != [] ==> d.workerGeneration < d.requestGeneration)
    && (d.hasReady && d.queue != [] ==>
          |d.queue| == 1 && rx.burst == [] && own.ids[0] == d.requestGeneration && d.workerGeneration < d.requestGeneration)
    && (d.hasReady && d.workerPending ==> own.delivered != [] && own.LastRead() == d.workerGeneration)
    && (d.queued ==> d.hasReady && rx.burst == [] && d.workerGeneration == d.requestGeneration && !d.workerPending)
    && (d.queued ==> own.published != [] && own.published[|own.published| - 1].data == d.tx)
    && (ready && !acking ==> d.hasReady && !d.workerPending && d.queue == [] && (d.queued || rx.burst != []))
    && (forall i | 0 <= i < |own.published| :: own.published[i].burst == own.published[i].latest)
    && |own.published| + own.discards + (if d.workerPending then 1 else 0) <= |own.delivered|
  }

  /** What was there and what was fed is what came out and what is there; only the response is fed. */
  ghost predicate TxInv(d: Driver, h: Hw, wire: WireLog) {
    && (h.serializer.None? ==> h.txFifo == [])
    && |h.txFifo| <= FIFO_SIZE
    && !wire.overfilled
    && wire.stale + wire.fed == wire.out + h.TxContents()
    && (d.queued ==> d.loaded <= |d.tx| && wire.fed == d.tx[..d.loaded])
  }

  function LastRise(edges: seq<Edge>): Option<Edge> {
    if edges == [] then None
    else if edges[|edges| - 1].Release? then LastRise(edges[..|edges| - 1])
    else Some(edges[|edges| - 1])
  }

  predicate Asserted(edges: seq<Edge>) {
    edges != [] && !edges[|edges| - 1].Release?
  }

  /**
   An acknowledgement is released before anything else happens to READY; a response asserts a released
   line, and the assertion before it was the acknowledgement of the same generation.
   */
  ghost predicate Disciplined(edges: seq<Edge>) {
    forall i | 0 <= i < |edges| ::
      && (edges[i].Ack? && i + 1 < |edges| ==> edges[i + 1] == Release)
      && (edges[i].Respond? ==> !Asserted(edges[..i]) && LastRise(edges[..i]) == Some(Ack(edges[i].generation)))
  }

  /** The generation whose response may still be published has been acknowledged, and nothing since. */
  ghost predicate AwaitsReply(d: Driver, rx: RxLog) {
    d.hasReady && rx.burst == [] && (d.queue != [] || (d.workerPending && d.workerGeneration == d.requestGeneration))
  }

  ghost predicate EdgeInv(d: Driver, ready: bool, rx: RxLog, edges: seq<Edge>, acking: bool) {
    && (!d.hasReady ==> edges == [])
    && ready == Asserted(edges)
    && Disciplined(edges)
    && (!acking ==> LastRiseReleased(edges))
    && (AwaitsReply(d, rx) ==> LastRise(edges) == Some(Ack(d.requestGeneration)))
  }

  /** How often a response was announced. */
  function Responses(edges: seq<Edge>): nat {
    if edges == [] then 0 else Responses(edges[..|edges| - 1]) + (if edges[|edges| - 1].Respond? then 1 else 0)
  }

  /**
   When READY announces a response, the hardware has been given the whole of it, or as much as serializer and FIFO hold;
   what the controller has not taken of that since is there for it to read.
   */
  ghost predicate SignalOk(s: Signal) {
    && s.loaded <= |s.data|
    && s.out + s.held == s.before + s.data[..s.loaded]
    && (s.loaded == |s.data| || |s.before| + s.loaded >= 17)
  }

  /** Every announcement of a response was made with the response in place. */
  ghost predicate SignalInv(edges: seq<Edge>, signals: seq<Signal>) {
    |signals| == Responses(edges) && forall i | 0 <= i < |signals| :: SignalOk(signals[i])
  }

  /** Outside the acknowledgement itself, no acknowledgement is still asserted. */
  ghost predicate LastRiseReleased(edges: seq<Edge>) {
    edges != [] ==> !edges[|edges| - 1].Ack?
  }

  ghost predicate Inv(w: World, acking: bool) {
    && RxInv(w.d, w.h, w.rx)
    && SentInv(w.h.rxBusy, w.rx)
    && RecordsInv(w.d, w.rx, w.own)
    && OwnInv(w.d, w.h.ready, w.rx, w.own, acking)
    && TxInv(w.d, w.h, w.wire)
    && EdgeInv(w.d, w.h.ready, w.rx, w.edges, acking)
    && SignalInv(w.edges, w.wire.signals)
  }

  // ---- The bus preserves the invariant ----

  lemma RecordKeeps(before: RxLog, after: RxLog, r: Record)
    requires RecordOk(before, r) && before.writes <= after.writes && after.cuts == before.cuts
    requires after.leftover == before.leftover
    ensures RecordOk(after, r)
  {
    assert after.writes[before.cuts[r.burst - 1]..before.cuts[r.burst]] == BurstWrites(before, r.burst);
  }

  lemma RecordsKeep(d: Driver, before: RxLog, after: RxLog, own: OwnLog)
    requires RecordsInv(d, before, own) && before.writes <= after.writes && after.cuts == before.cuts
    requires after.leftover == before.leftover
    ensures RecordsInv(d, after, own)
  {
    forall i | 0 <= i < |own.ids| ensures RecordOk(after, Record(own.ids[i], d.queue[i])) {
      RecordKeeps(before, after, Record(own.ids[i], d.queue[i]));
    }
    forall i | 0 <= i < |own.delivered| ensures RecordOk(after, own.delivered[i]) {
      RecordKeeps(before, after, own.delivered[i]);
    }
  }

  lemma FilledStays(before: RxLog, after: RxLog)
    requires CutsOk(before) && NoEmptyBurst(before) && before.writes <= after.writes
    requires after.cuts == before.cuts && after.leftover == before.leftover
    ensures CutsOk(after) && NoEmptyBurst(after)
  {
    forall k | 1 <= k <= after.Bursts() ensures BurstBytes(after, k) != [] {
      assert BurstWrites(after, k) == BurstWrites(before, k);
      assert BurstBytes(before, k) != [];
    }
  }

  /** The write in progress completes. */
  lemma EndWriteKeepsRx(w: World)
    requires RxInv(w.d, w.h, w.rx)
    ensures RxInv(w.d, EndWrite(w).h, EndWrite(w).rx)
  {
    var (open, after) := (OpenWrites(w.rx), EndWrite(w).rx);
    assert OpenWrites(after) == open + [w.rx.partial];
    FlattenAppend(open, [w.rx.partial]);
    FlattenOne(w.rx.partial);
    Reassociate(Lead(w.rx, |w.rx.cuts|), Flatten(open), w.rx.partial);
    assert Ended(after) == Ended(w.rx) + w.rx.partial;
    FilledStays(w.rx, after);
    hide Flatten, OpenWrites, NoEmptyBurst;
    assert Ended(after) + [] == Ended(after);
  }

  lemma SameEnded(before: RxLog, after: RxLog)
    requires CutsOk(before) && NoEmptyBurst(before)
    requires after.writes == before.writes && after.cuts == before.cuts && after.leftover == before.leftover
    ensures CutsOk(after) && NoEmptyBurst(after) && Ended(after) == Ended(before)
  {
    assert OpenWrites(after) == OpenWrites(before);
    FilledStays(before, after);
    hide NoEmptyBurst;
  }

  lemma SendKeepsRx(w: World, b: byte)
    requires RxInv(w.d, w.h, w.rx)
    ensures RxInv(w.d, Happen(w, Send(b)).h, Happen(w, Send(b)).rx)
  {
    hide Ended, CutsOk, NoEmptyBurst;
    var after := Happen(w, Send(b));
    SameEnded(w.rx, after.rx);
    Reassociate(Ended(w.rx), w.rx.partial, [b]);
    Reassociate(w.rx.burst, w.h.rxFifo, [b]);
  }

  lemma ClockKeepsTx(w: World)
    requires TxInv(w.d, w.h, w.wire)
    ensures TxInv(w.d, Happen(w, Clock).h, Happen(w, Clock).wire)
  {
    var after := Happen(w, Clock);
    if w.h.cr == CR_I2C_TARGET && w.h.serializer.Some? {
      var b := w.h.serializer.value;
      assert after.h.TxContents() == w.h.txFifo && after.wire == w.wire.(out := w.wire.out + [b]);
      Reassociate(w.wire.out, [b], w.h.txFifo);
    }
  }

  lemma HappenKeepsRx(w: World, e: Event)
    requires RxInv(w.d, w.h, w.rx)
    ensures RxInv(w.d, Happen(w, e).h, Happen(w, e).rx)
  {
    hide OpenWrites, CutsOk, Ended;
    match e
    case Start => MarksAreFree(w.d, w.h, w.rx, w.rx.holed, w.rx.severed, w.rx.bus.(trailing := false));
    case Send(b) => SendKeepsRx(w, b);
    case Stop =>
      EndWriteKeepsRx(w);
      MarksAreFree(w.d, w.h, w.rx, w.rx.holed, w.rx.severed, w.rx.bus.(trailing := false));
    case Clock =>
  }

  lemma SendKeepsSent(w: World, b: byte)
    requires SentInv(w.h.rxBusy, w.rx)
    ensures SentInv(Happen(w, Send(b)).h.rxBusy, Happen(w, Send(b)).rx)
  {
  }

  lemma EndWriteKeepsSent(rx: RxLog, severed: set<nat>, trailing: bool)
    requires SentInv(true, rx) && severed == if trailing then rx.severed + {|rx.writes|} else rx.severed
    ensures SentInv(false, rx.(writes := rx.writes + [rx.partial], partial := [], severed := severed,
                               bus := rx.bus.End().(trailing := trailing)))
  {
  }

  lemma HappenKeepsSent(w: World, e: Event)
    requires SentInv(w.h.rxBusy, w.rx)
    ensures SentInv(Happen(w, e).h.rxBusy, Happen(w, e).rx)
  {
    match e
    case Start =>
    case Send(b) => SendKeepsSent(w, b);
    case Stop =>
      if w.h.rxBusy {
        EndWriteKeepsSent(w.rx, w.rx.severed, false);
      }
    case Clock =>
  }

  /** The driver's own view of the log does not matter here. */
  lemma SameBusKeepsSent(busy: bool, rx: RxLog, after: RxLog)
    requires SentInv(busy, rx) && after == rx.(burst := after.burst, cuts := after.cuts, leftover := after.leftover)
    ensures SentInv(busy, after)
  {
  }

  lemma HappenKeepsTx(w: World, e: Event)
    requires TxInv(w.d, w.h, w.wire)
    ensures TxInv(w.d, Happen(w, e).h, Happen(w, e).wire)
  {
    if e.Clock? {
      ClockKeepsTx(w);
    } else {
      assert Happen(w, e).h.TxContents() == w.h.TxContents();
    }
  }

  lemma BusyInTarget(d: Driver, h: Hw, rx: RxLog)
    requires RxInv(d, h, rx)
    ensures h.rxBusy ==> h.cr == CR_I2C_TARGET
  {
  }

  lemma SameWorkKeepsRx(d: Driver, e: Driver, h: Hw, g: Hw, rx: RxLog)
    requires RxInv(d, h, rx) && e.work == d.work && e.overflowed == d.overflowed
    requires g.rxFifo == h.rxFifo && g.rxBusy == h.rxBusy && (g.rxBusy ==> g.cr == CR_I2C_TARGET)
    ensures RxInv(e, g, rx)
  {
  }

  lemma SameReplyKeepsTx(d: Driver, e: Driver, h: Hw, g: Hw, wire: WireLog)
    requires TxInv(d, h, wire) && (e.queued ==> d.queued && e.tx == d.tx && e.loaded == d.loaded)
    requires g.serializer == h.serializer && g.txFifo == h.txFifo
    ensures TxInv(e, g, wire)
  {
    assert g.TxContents() == h.TxContents();
  }

  lemma SameQueueKeepsRecords(d: Driver, e: Driver, rx: RxLog, own: OwnLog)
    requires RecordsInv(d, rx, own) && e.queue == d.queue
    ensures RecordsInv(e, rx, own)
  {
  }

  /** The fields that ownership and READY depend on. */
  ghost predicate SameTurn(d: Driver, e: Driver) {
    && e.hasReady == d.hasReady && e.requestGeneration == d.requestGeneration && e.workerGeneration == d.workerGeneration
    && e.workerPending == d.workerPending && e.queue == d.queue && e.queued == d.queued
    && ((e.tx == d.tx && e.loaded == d.loaded) || (!e.queued && e.tx == [] && e.loaded == 0))
  }

  lemma SameTurnKeepsPromises(d: Driver, e: Driver, ready: bool, rx: RxLog, own: OwnLog, edges: seq<Edge>, acking: bool)
    requires SameTurn(d, e) && OwnInv(d, ready, rx, own, acking) && EdgeInv(d, ready, rx, edges, acking)
    ensures OwnInv(e, ready, rx, own, acking) && EdgeInv(e, ready, rx, edges, acking)
  {
    hide Disciplined, LastRise, LastRiseReleased;
  }

  lemma SameBurstKeepsPromises(d: Driver, ready: bool, rx: RxLog, after: RxLog, own: OwnLog, edges: seq<Edge>, acking: bool)
    requires OwnInv(d, ready, rx, own, acking) && EdgeInv(d, ready, rx, edges, acking)
    requires after.burst == rx.burst && after.cuts == rx.cuts
    ensures OwnInv(d, ready, after, own, acking) && EdgeInv(d, ready, after, edges, acking)
  {
    hide Disciplined, LastRise, LastRiseReleased;
  }

  /** Releasing READY is always right, and ends an acknowledgement. */
  lemma ReleaseKeepsPromises(d: Driver, ready: bool, rx: RxLog, own: OwnLog, edges: seq<Edge>, acking: bool)
    requires OwnInv(d, ready, rx, own, acking) && EdgeInv(d, ready, rx, edges, acking) && d.hasReady
    ensures OwnInv(d, false, rx, own, false) && EdgeInv(d, false, rx, edges + [Release], false)
  {
    ReleaseIsDisciplined(edges);
    hide CutsOk, Disciplined, LastRise;
  }

  lemma ReleaseIsDisciplined(edges: seq<Edge>)
    requires Disciplined(edges)
    ensures Disciplined(edges + [Release]) && LastRise(edges + [Release]) == LastRise(edges)
  {
    var all := edges + [Release];
    assert all[..|edges|] == edges;
    forall i | 0 <= i < |all|
      ensures all[i].Ack? && i + 1 < |all| ==> all[i + 1] == Release
      ensures all[i].Respond? ==> !Asserted(all[..i]) && LastRise(all[..i]) == Some(Ack(all[i].generation))
    {
      if i < |edges| {
        assert all[i] == edges[i] && all[..i] == edges[..i];
      }
    }
  }

  lemma MarksAreFree(d: Driver, h: Hw, rx: RxLog, holed: set<nat>, severed: set<nat>, bus: BusLog)
    requires RxInv(d, h, rx)
    ensures RxInv(d, h, rx.(holed := holed, severed := severed, bus := bus))
  {
    hide Ended, CutsOk, NoEmptyBurst;
    SameEnded(rx, rx.(holed := holed, severed := severed, bus := bus));
  }

  /** What the driver and READY promise does not depend on the rest of the bus. */
  lemma BusKeepsPromises(w: World, after: World, acking: bool)
    requires BusOnly(w, after) && OwnInv(w.d, w.h.ready, w.rx, w.own, acking) && EdgeInv(w.d, w.h.ready, w.rx, w.edges, acking)
    ensures OwnInv(after.d, after.h.ready, after.rx, after.own, acking)
    ensures EdgeInv(after.d, after.h.ready, after.rx, after.edges, acking)
  {
    hide Disciplined, LastRise, LastRiseReleased;
  }

  lemma HappenKeeps(w: World, e: Event, acking: bool)
    requires Inv(w, acking)
    ensures Inv(Happen(w, e), acking)
  {
    HappenIsBusOnly(w, e);
    HappenKeepsRx(w, e);
    HappenKeepsSent(w, e);
    HappenKeepsTx(w, e);
    hide Happen, RxInv, SentInv, SignalInv, OwnInv, TxInv, EdgeInv, RecordsInv;
    BusKeepsPromises(w, Happen(w, e), acking);
    RecordsKeep(w.d, w.rx, Happen(w, e).rx, w.own);
  }

  lemma {:induction false} HappenAllKeeps(w: World, events: seq<Event>, acking: bool)
    requires Inv(w, acking)
    ensures Inv(HappenAll(w, events), acking)
    decreases |events|
  {
    hide Inv, Happen;
    if events == [] {
    } else {
      HappenKeeps(w, events[0], acking);
      HappenAllKeeps(Happen(w, events[0]), events[1..], acking);
    }
  }

  lemma TickKeeps(w: World, acking: bool)
    requires Inv(w, acking)
    ensures Inv(Tick(w), acking) && BusOnly(w, Tick(w))
  {
    TickIsBusOnly(w);
    if w.script != [] {
      hide HappenAll;
      HappenAllKeeps(w.(script := w.script[1..]), w.script[0], acking);
    }
  }
}
