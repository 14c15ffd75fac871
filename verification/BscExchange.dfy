/** The normal exchange is exact, any number of times, whatever its timing. */
module BscExchange {
  // The controller writes a request, the application reads it and writes its response, the controller reads that
  // response to its end. Any number of exchanges, each with any phase of timer service, are exact if the interrupts
  // are prompt and no reply is abandoned.

  import opened Bytes
  import opened BscWorld
  import opened BscDriver
  import opened BscInvariant
  import opened BscService
  import opened BscActions
  import opened BscResponse
  import opened BscRecovery
  import opened BscLatency
  import opened BscBooks
  import opened BscPurge
  import opened BscMachine

  /** An active device in READY mode on which nothing arrives and nothing more is to be loaded. */
  ghost predicate Resting(w: World, left: seq<byte>) {
    && Inv(w, false) && Operational(w) && Live(w) && w.d.hasReady
    && w.h.rxFifo == [] && !w.h.rxBusy && !w.h.overrun && !w.d.InBurst()
    && !w.d.Unloaded() && w.h.TxContents() == left
  }

  /** Between exchanges: every response has also been read. */
  ghost predicate Rested(w: World) {
    Resting(w, [])
  }

  // ---- The request arrives ----

  /** The bytes that the controller writes during these beats. */
  function SentIn(beats: seq<Beat>): seq<byte> {
    if beats == [] then []
    else (if beats[0].OnBus? && beats[0].e.Send? then [beats[0].e.b] else []) + SentIn(beats[1..])
  }

  predicate Writing(beats: seq<Beat>) {
    forall i | 0 <= i < |beats| :: !beats[i].OnBus? || beats[i].e.Send?
  }

  /** A write is in progress, `bytes` of it have arrived, and none has been lost. */
  ghost predicate Receiving(w: World, bytes: seq<byte>, left: seq<byte>, generation: nat, own: OwnLog, edges: seq<Edge>) {
    && Inv(w, false) && Operational(w) && Live(w) && w.d.hasReady && w.h.rxBusy && !w.h.overrun
    && w.rx.burst + w.h.rxFifo == bytes
    && !w.d.Unloaded() && w.h.TxContents() == left
    && w.d.requestGeneration == generation + (if w.rx.burst != [] then 1 else 0)
    && w.own.delivered == own.delivered && w.own.published == own.published && w.own.discards == own.discards
    && w.edges == edges
  }

  /** These bytes have joined the burst, which begins with them if there was none. */
  ghost predicate Took(w: World, after: World, bytes: seq<byte>) {
    && after.rx.burst == w.rx.burst + bytes && after.edges == w.edges
    && after.d.requestGeneration == w.d.requestGeneration + (if w.rx.burst == [] && bytes != [] then 1 else 0)
    && (!w.d.Unloaded() ==> !after.d.Unloaded())
  }

  lemma TookChain(a: World, b: World, c: World, first: seq<byte>, second: seq<byte>)
    requires Took(a, b, first) && Took(b, c, second) && first != []
    ensures Took(a, c, first + second)
  {
    assert a.rx.burst + (first + second) == (a.rx.burst + first) + second;
  }

  lemma DrainTakesOne(w: World)
    requires w.script == [] && Inv(w, false) && w.h.rxFifo != []
    ensures var next := DrainByte(w);
            && Took(w, next, [w.h.rxFifo[0]]) && next.h.rxFifo == w.h.rxFifo[1..] && next.script == []
  {
    BurstIsWork(w);
    DrainByteIsDrained(w);
    DrainedFrame(w, w.h.rxFifo[0]);
    DrainByteShrinks(w);
    hide DrainByte, Drained, Inv;
  }

  /** Draining without the bus moving takes the whole FIFO into the burst. */
  lemma {:induction false} DrainTakesAll(w: World)
    requires w.script == [] && Inv(w, false)
    ensures Took(w, DrainRx(w), w.h.rxFifo)
    decreases |w.h.rxFifo|
  {
    hide DrainByte, Inv, Took;
    if w.h.rxFifo == [] {
      TookNothing(w);
    } else {
      var next := DrainByte(w);
      DrainTakesOne(w);
      DrainByteKeeps(w);
      DrainTakesAll(next);
      TookChain(w, next, DrainRx(next), [w.h.rxFifo[0]], w.h.rxFifo[1..]);
      assert [w.h.rxFifo[0]] + w.h.rxFifo[1..] == w.h.rxFifo;
      assert ReadFr(w) == w;
      assert DrainRx(w) == DrainRx(next);
    }
  }

  lemma TookNothing(w: World)
    requires w.script == [] && w.h.rxFifo == []
    ensures Took(w, DrainRx(w), [])
  {
    assert DrainRx(w) == w;
    assert w.rx.burst + [] == w.rx.burst;
  }

  lemma SnapshotTakesAll(w: World)
    requires w.script == [] && Inv(w, false)
    ensures var after := Snapshot(w);
            Inv(after, false) && Took(w, after, w.h.rxFifo)
  {
    hide DrainRx, Inv;
    ErrorsKeep(w);
    SnapshotKeeps(w);
    var checked := ServiceErrors(w);
    assert checked.script == [] && checked.rx == w.rx && checked.h.rxFifo == w.h.rxFifo && checked.edges == w.edges
           && checked.d.requestGeneration == w.d.requestGeneration && checked.d.Unloaded() == w.d.Unloaded();
    hide ServiceErrors;
    DrainTakesAll(checked);
    DrainInStillness(checked);
  }

  /** Service in the middle of a write: nothing is published, nothing is loaded. */
  lemma ServiceMidway(w: World, bytes: seq<byte>, left: seq<byte>, generation: nat, own: OwnLog, edges: seq<Edge>)
    requires Receiving(w, bytes, left, generation, own, edges)
    ensures Receiving(Service(w), bytes, left, generation, own, edges) && Service(w).h.rxFifo == []
  {
    hide Inv, Snapshot, Operational, InterruptMask;
    ServiceReady(w);
    ServiceKeepsBooks(w);
    SnapshotTakesAll(w);
    SnapshotInStillness(w);
    var seen := Snapshot(w);
    assert RefillTx(seen) == SetInterrupts(seen);
    assert Service(w) == SetInterrupts(seen);
    assert (w.rx.burst + w.h.rxFifo) + [] == w.rx.burst + w.h.rxFifo;
  }

  lemma CountingMidway(w: World, b: Beat, bytes: seq<byte>, left: seq<byte>, generation: nat, own: OwnLog, edges: seq<Edge>)
    requires Receiving(w, bytes, left, generation, own, edges)
    ensures Receiving(Counted(w, b), bytes, left, generation, own, edges)
  {
    CountingIsFree(w, b);
    CountedFrame(w, b);
    hide Inv, Operational, Counted;
  }

  lemma ServeMidway(w: World, b: Beat, bytes: seq<byte>, left: seq<byte>, generation: nat, own: OwnLog, edges: seq<Edge>)
    requires Receiving(w, bytes, left, generation, own, edges) && !b.OnBus?
    ensures Receiving(Pulse(w, b), bytes, left, generation, own, edges) && Pulse(w, b).h.rxFifo == []
  {
    ReceivingIsBusy(w, bytes, left, generation, own, edges);
    hide Receiving, Service, Pulse, Counted;
    ServingIs(w, b);
    CountingMidway(w, b, bytes, left, generation, own, edges);
    ServiceMidway(Counted(w, b), bytes, left, generation, own, edges);
  }

  lemma SendMidway(w: World, b: byte, bytes: seq<byte>, left: seq<byte>, generation: nat, own: OwnLog, edges: seq<Edge>)
    requires Receiving(w, bytes, left, generation, own, edges) && |w.h.rxFifo| < FIFO_SIZE
    ensures Receiving(Happen(w, Send(b)), bytes + [b], left, generation, own, edges)
    ensures |Happen(w, Send(b)).h.rxFifo| == |w.h.rxFifo| + 1
  {
    hide Inv, InterruptMask, Happen;
    HappenKeeps(w, Send(b), false);
    SendTakes(w, b);
    Reassociate(w.rx.burst, w.h.rxFifo, [b]);
  }

  lemma SendTakes(w: World, b: byte)
    requires w.h.rxBusy && |w.h.rxFifo| < FIFO_SIZE
    ensures var after := Happen(w, Send(b));
            && after == w.(h := w.h.(rxFifo := w.h.rxFifo + [b]), rx := after.rx)
            && after.rx == w.rx.(partial := w.rx.partial + [b], bus := after.rx.bus)
            && after.h.TxContents() == w.h.TxContents()
  {
  }

  lemma {:induction false} WriteArrives(w: World, beats: seq<Beat>, rest: seq<Beat>, late: nat,
                                        bytes: seq<byte>, left: seq<byte>, generation: nat, own: OwnLog, edges: seq<Edge>)
    requires Receiving(w, bytes, left, generation, own, edges) && Writing(beats)
    requires PromptRx(w, beats + rest, late) && late <= RX_SLACK && |w.h.rxFifo| <= RX_THRESHOLD + late
    ensures Receiving(Play(w, beats), bytes + SentIn(beats), left, generation, own, edges)
    ensures Play(w, beats + rest) == Play(Play(w, beats), rest)
    decreases |beats|
  {
    hide Receiving, Happen, Irq, Timer;
    if beats == [] {
      assert beats + rest == rest && bytes + [] == bytes;
    } else {
      var (next, more) := (Pulse(w, beats[0]), beats[1..]);
      assert (beats + rest)[0] == beats[0] && (beats + rest)[1..] == more + rest;
      ReceivingIsBusy(w, bytes, left, generation, own, edges);
      if !beats[0].OnBus? {
        ServeMidway(w, beats[0], bytes, left, generation, own, edges);
        WriteArrives(next, more, rest, 0, bytes, left, generation, own, edges);
        assert SentIn(beats) == SentIn(more);
      } else {
        SendMidway(w, beats[0].e.b, bytes, left, generation, own, edges);
        WriteArrives(next, more, rest, if |w.h.rxFifo| >= RX_THRESHOLD then late + 1 else late,
                     bytes + [beats[0].e.b], left, generation, own, edges);
        assert bytes + SentIn(beats) == (bytes + [beats[0].e.b]) + SentIn(more);
      }
    }
  }

  lemma ReceivingIsBusy(w: World, bytes: seq<byte>, left: seq<byte>, generation: nat, own: OwnLog, edges: seq<Edge>)
    requires Receiving(w, bytes, left, generation, own, edges)
    ensures w.h.rxBusy && Live(w)
  {
  }

  lemma WriteBegins(w: World, left: seq<byte>)
    requires Resting(w, left)
    ensures Receiving(Happen(w, Start), [], left, w.d.requestGeneration, w.own, w.edges) && Happen(w, Start).h.rxFifo == []
  {
    BurstIsWork(w);
    HappenKeeps(w, Start, false);
    hide Inv, InterruptMask;
  }

  // ---- The request is recorded ----

  /** The write is complete and not yet drained to its end. */
  ghost predicate Complete(w: World, bytes: seq<byte>, left: seq<byte>, generation: nat, own: OwnLog, edges: seq<Edge>) {
    && Inv(w, false) && Operational(w) && Live(w) && w.d.hasReady && !w.h.rxBusy
    && w.rx.burst + w.h.rxFifo == bytes
    && w.h.TxContents() == left
    && w.d.requestGeneration == generation + (if w.rx.burst != [] then 1 else 0)
    && w.own.delivered == own.delivered && w.own.published == own.published && w.own.discards == own.discards
    && w.edges == edges
  }

  /** The request is the one waiting record, and it has been acknowledged. */
  ghost predicate Requested(w: World, request: seq<byte>, left: seq<byte>, generation: nat, own: OwnLog, edges: seq<Edge>) {
    && Resting(w, left) && !w.h.underrun && w.d.queue == [request] && w.d.requestGeneration == generation && !w.d.queued
    && w.own.delivered == own.delivered && w.own.published == own.published && w.own.discards == own.discards
    && w.edges == edges + [Ack(generation), Release]
  }

  lemma AckInStillness(w: World)
    requires w.script == [] && w.d.hasReady
    ensures var after := AckRequest(w);
            && after.d == w.d && after.rx == w.rx && after.own == w.own && after.script == []
            && after.edges == w.edges + [Ack(w.d.requestGeneration), Release]
  {
    assert (w.edges + [Ack(w.d.requestGeneration)]) + [Release] == w.edges + [Ack(w.d.requestGeneration), Release];
  }

  /** The end of a burst that fits: its bytes become a record, the only one if none was waiting. */
  lemma FinishRecords(w: World)
    requires Inv(w, false) && w.script == [] && w.rx.burst != [] && |w.rx.burst| <= MAX_TRANSFER
    ensures var after := FinishRx(w);
            && (w.d.queue == [] ==> after.d.queue == [w.rx.burst]) && (w.d.hasReady ==> w.d.queue == [])
            && after.d.requestGeneration == w.d.requestGeneration
            && after.rx == w.rx.(cuts := w.rx.cuts + [|w.rx.writes|], burst := [])
            && after.edges == w.edges + if w.d.hasReady then [Ack(w.d.requestGeneration), Release] else []
  {
    BurstIsWork(w);
    hide Inv;
    if w.d.hasReady {
      var cleared := w.(d := w.d.(tx := [], loaded := 0));
      AckInStillness(cleared);
      hide AckRequest, CloseBurst;
      CloseFrame(AckRequest(cleared), |w.rx.writes|);
    } else {
      hide CloseBurst;
      CloseFrame(w, |w.rx.writes|);
      assert w.edges + [] == w.edges;
    }
  }

  /** An idle device that is served ends what it was receiving. */
  lemma FinishEnds(w: World)
    requires |w.own.ids| == |w.d.queue|
    ensures !FinishRx(w).d.InBurst() && FinishRx(w).d.queued == w.d.queued
  {
    if w.d.InBurst() {
      var cleared := w.(d := w.d.(tx := [], loaded := 0));
      var raised := SetReady(cleared, true, Ack(cleared.d.requestGeneration));
      SetReadyIsSteady(cleared, true, Ack(cleared.d.requestGeneration));
      SetReadyIsSteady(raised, false, Release);
      hide SetReady, CloseBurst;
      CloseFrame(if w.d.hasReady then AckRequest(cleared) else w, |w.rx.writes|);
    }
  }

  lemma WriteEnds(w: World, request: seq<byte>, left: seq<byte>, generation: nat, own: OwnLog, edges: seq<Edge>)
    requires Receiving(w, request, left, generation, own, edges)
    ensures Complete(Happen(w, Stop), request, left, generation, own, edges)
  {
    HappenKeeps(w, Stop, false);
    hide Inv, InterruptMask;
  }

  /** Service without the bus moving, of an idle device that has no response to load. */
  lemma StillService(w: World)
    requires Inv(w, false) && w.script == [] && !w.h.rxBusy && !Snapshot(w).d.queued
    ensures var (seen, after) := (Snapshot(w), Service(w));
            && after == FinishRx(seen).(h := FinishRx(seen).h.(imsc := InterruptMask(FinishRx(seen).d)))
            && after.script == [] && !after.d.InBurst() && !after.d.queued
            && after.h == w.h.(rxFifo := [], overrun := false, underrun := false, ready := after.h.ready, imsc := after.h.imsc)
  {
    hide Inv, Snapshot, FinishRx, RefillTx, InterruptMask;
    SnapshotKeeps(w);
    SnapshotInStillness(w);
    var seen := Snapshot(w);
    BurstIsWork(seen);
    FinishEnds(seen);
    FinishInStillness(seen);
    RefillNothing(FinishRx(seen));
  }

  lemma RefillNothing(w: World)
    requires w.script == [] && !w.d.queued
    ensures RefillTx(w) == w.(h := w.h.(imsc := InterruptMask(w.d)))
  {
  }

  lemma CompleteIsLive(w: World, bytes: seq<byte>, left: seq<byte>, generation: nat, own: OwnLog, edges: seq<Edge>)
    requires Complete(w, bytes, left, generation, own, edges)
    ensures Live(w)
  {
  }

  lemma CountingCompletes(w: World, b: Beat, bytes: seq<byte>, left: seq<byte>, generation: nat, own: OwnLog, edges: seq<Edge>)
    requires Complete(w, bytes, left, generation, own, edges)
    ensures Complete(Counted(w, b), bytes, left, generation, own, edges)
  {
    CountingIsFree(w, b);
    CountedFrame(w, b);
    hide Inv, Operational, Counted;
  }

  /** An interrupt or a timer run after a write makes it the one waiting record, and acknowledges it. */
  lemma RequestIsRecorded(w: World, b: Beat, request: seq<byte>, left: seq<byte>, generation: nat, own: OwnLog, edges: seq<Edge>)
    requires Complete(w, request, left, generation, own, edges) && 0 < |request| <= MAX_TRANSFER && !b.OnBus?
    ensures Requested(Pulse(w, b), request, left, generation + 1, own, edges)
  {
    CompleteIsLive(w, request, left, generation, own, edges);
    hide Complete, Requested, Service, Pulse, Counted;
    ServingIs(w, b);
    CountingCompletes(w, b, request, left, generation, own, edges);
    CompleteIsServed(Counted(w, b), request, left, generation, own, edges);
  }

  lemma CompleteIsServed(w: World, request: seq<byte>, left: seq<byte>, generation: nat, own: OwnLog, edges: seq<Edge>)
    requires Complete(w, request, left, generation, own, edges) && 0 < |request| <= MAX_TRANSFER
    ensures Requested(Service(w), request, left, generation + 1, own, edges)
  {
    hide Inv, Operational, Snapshot, InterruptMask, FinishRx, Service;
    SnapshotTakesAll(w);
    SnapshotInStillness(w);
    SnapshotIsReady(w);
    var seen := Snapshot(w);
    BurstIsWork(seen);
    FinishRecords(seen);
    StillService(w);
    ServiceReady(w);
    ServiceKeepsBooks(w);
    assert Service(w).h.TxContents() == w.h.TxContents();
  }

  lemma SnapshotIsReady(w: World)
    ensures Snapshot(w).d.hasReady == w.d.hasReady
  {
    ErrorsAreSteady(w);
    DrainIsSteady(ServiceErrors(w));
    TickIsSteady(DrainRx(ServiceErrors(w)));
    hide ServiceErrors, DrainRx, Tick;
  }

  // ---- The application takes it and replies ----

  lemma TakingTheRequest(w: World, request: seq<byte>, capacity: nat, left: seq<byte>, generation: nat, own: OwnLog,
                         edges: seq<Edge>)
    requires Requested(w, request, left, generation, own, edges) && capacity >= |request|
    ensures var (after, result) := ReadMessage(w, capacity);
            && result == Done(|request|) && Resting(after, left) && !after.h.underrun && Owner(after) && !after.d.queued
            && after.own.delivered == own.delivered + [Record(after.own.LastRead(), request)]
            && after.own.published == own.published && after.own.discards == own.discards
            && after.d.requestGeneration == generation && after.edges == w.edges && after.rx == w.rx
  {
    hide Inv, InterruptMask, ReadMessage, Operational;
    ReadKeeps(w, capacity);
    ReadFrame(w, capacity);
    BurstIsWork(w);
    OldestIsTaken(w, capacity);
    OperatesAsBefore(w, ReadMessage(w, capacity).0);
  }

  lemma OldestIsTaken(w: World, capacity: nat)
    requires w.d.queue != [] && capacity >= |w.d.queue[0]| && |w.own.ids| == |w.d.queue|
    ensures var (after, result) := ReadMessage(w, capacity);
            && result == Done(|w.d.queue[0]|)
            && after == w.(d := after.d, own := after.own)
            && after.d == w.d.(queue := w.d.queue[1..], workerGeneration := w.d.requestGeneration, workerPending := true)
            && after.own.delivered == w.own.delivered + [Record(after.own.LastRead(), w.d.queue[0])]
            && after.own.published == w.own.published && after.own.discards == w.own.discards
  {
  }

  lemma OperatesAsBefore(w: World, after: World)
    requires Operational(w) && Steady(w, after) && after.h == w.h && InterruptMask(after.d) == InterruptMask(w.d)
    ensures Operational(after)
  {
    hide InterruptMask;
  }

  /** A publication without the bus moving: the transmit path is loaded as far as it goes. */
  lemma PublishInStillness(w: World, data: seq<byte>)
    requires Rested(w) && Owner(w) && !w.d.queued
    ensures var (after, result) := PublishResponse(w, data);
            && result == Done(|data|) && Replying(after) && RepliedExactly(w, after, data)
            && after.own.delivered == w.own.delivered && after.own.discards == w.own.discards
            && after.wire.out == [] && after.wire.gaps == 0
            && (after.d.Unloaded() ==> |after.h.txFifo| >= FIFO_SIZE)
            && after.d.requestGeneration == w.d.requestGeneration
            && after.edges == w.edges + [Respond(w.d.requestGeneration)]
  {
    hide Inv, Operational, Service, CheckIdle, Reply, MayReply, InterruptMask, RepliedExactly, Entitled;
    BurstIsWork(w);
    PublishKeeps(w, data);
    PublicationDecided(w, data);
    QuietPublish(w, data);
    QuietService(w);
    ServeInStillness(w);
    var turn := ConsumeTurn(Service(w));
    QuietCheck(turn);
    StillCheck(turn);
    StillReply(turn, data);
  }

  lemma StillCheck(w: World)
    requires w.script == []
    ensures CheckIdle(w) == w
  {
  }

  lemma StillReply(w: World, data: seq<byte>)
    requires w.script == [] && w.d.hasReady
    ensures var after := Reply(w, data);
            && after.script == [] && after.h.rxFifo == w.h.rxFifo && after.h.rxBusy == w.h.rxBusy
            && after.h.overrun == w.h.overrun && after.wire.out == [] && after.wire.gaps == 0
            && (after.d.Unloaded() ==> |after.h.txFifo| >= FIFO_SIZE)
            && after.d.requestGeneration == w.d.requestGeneration
            && after.edges == w.edges + [Respond(w.d.requestGeneration)]
  {
    var begun := BeginResponse(w, data);
    RefillInStillness(begun);
    RefillFrame(begun);
    hide RefillTx, BeginResponse;
  }

  // ---- The exchange ----

  /** A request with the beats of its write, and a response with the beats of its reading. */
  datatype Exchange = Exchange(writing: seq<Beat>, closing: Beat, capacity: nat, response: seq<byte>, reading: seq<Beat>) {
    function Request(): seq<byte> {
      SentIn(writing)
    }

    function Sending(): seq<Beat> {
      [OnBus(Start)] + (writing + [OnBus(Stop), closing])
    }

    /** The application reads the request and writes its response. */
    function Answering(): seq<Action> {
      [Read(capacity), BscMachine.Write(response, [])]
    }

    function Performing(): seq<Action> {
      (Actions(Sending()) + Answering()) + Actions(reading)
    }

    predicate Fits() {
      0 < |Request()| <= 8192 && capacity >= |Request()| && 0 < |response| <= 8192
    }
  }

  function Perform(m: Machine, x: Exchange): Machine {
    Run(m, x.Performing())
  }

  /** The interrupts are prompt both ways, and the controller reads exactly as many bytes as the response has. */
  ghost predicate Proper(m: Machine, x: Exchange) {
    && x.Fits() && Writing(x.writing) && !x.closing.OnBus? && PromptRx(m.w, x.Sending(), 0)
    && Reading(x.reading) && ReadsIn(x.reading) == |x.response|
    && PromptTx(Run(m, Actions(x.Sending()) + x.Answering()).w, x.reading, 0)
  }

  /**
   One normal exchange, exactly: the application is given the bytes of the request, the controller reads the
   bytes of the response, READY acknowledges, is released and announces the response once, nothing is lost or
   discarded, and the device is ready for the next exchange.
   */
  ghost predicate Exact(m: Machine, x: Exchange) {
    var (w, after, generation) := (m.w, Perform(m, x).w, m.w.d.requestGeneration + 1);
    && Rested(after)
    && Datas(after.own.delivered) == Datas(w.own.delivered) + [x.Request()]
    && |after.own.published| == |w.own.published| + 1 && after.own.discards == w.own.discards
    && after.wire.out == x.response && after.wire.gaps == 0
    && after.d.requestGeneration == generation
    && after.edges == w.edges + [Ack(generation), Release, Respond(generation)]
  }

  lemma RecordingIsExact(w: World, x: Exchange, left: seq<byte>)
    requires Resting(w, left) && x.Fits() && Writing(x.writing) && !x.closing.OnBus? && PromptRx(w, x.Sending(), 0)
    ensures Requested(Play(w, x.Sending()), x.Request(), left, w.d.requestGeneration + 1, w.own, w.edges)
  {
    hide Resting, Happen, Irq, Timer, Receiving, Requested, Complete;
    var closing := [OnBus(Stop), x.closing];
    var tail := x.writing + closing;
    var started := Happen(w, Start);
    assert x.Sending()[0] == OnBus(Start) && x.Sending()[1..] == tail;
    WriteBegins(w, left);
    WriteArrives(started, x.writing, closing, 0, [], left, w.d.requestGeneration, w.own, w.edges);
    var written := Play(started, x.writing);
    assert [] + SentIn(x.writing) == SentIn(x.writing);
    WriteEnds(written, x.Request(), left, w.d.requestGeneration, w.own, w.edges);
    RequestIsRecorded(Happen(written, Stop), x.closing, x.Request(), left, w.d.requestGeneration, w.own, w.edges);
    PlayStopServe(written, x.closing);
  }

  lemma PlayStopServe(w: World, b: Beat)
    ensures Play(w, [OnBus(Stop), b]) == Pulse(Happen(w, Stop), b)
  {
    hide Happen, Irq, Timer;
    assert [OnBus(Stop), b][1..] == [b] && [b][1..] == [];
    assert Play(Happen(w, Stop), [b]) == Play(Pulse(Happen(w, Stop), b), []);
  }

  /** The steps of an exchange as a run. */
  lemma PerformInSteps(m: Machine, x: Exchange)
    requires m.phase.Opened? && Live(m.w) && 0 < |x.response| <= MAX_TRANSFER
    ensures var recorded := Play(m.w, x.Sending());
            var taken := ReadMessage(recorded, x.capacity).0;
            var answered := PublishResponse(taken, x.response).0;
            && Live(recorded)
            && (Live(taken) && Live(answered) ==>
                  && Run(m, Actions(x.Sending()) + x.Answering()) == m.(w := answered)
                  && Perform(m, x) == m.(w := Play(answered, x.reading)))
  {
    hide Play, Run, ReadMessage, PublishResponse, Actions;
    var m1 := m.(w := Play(m.w, x.Sending()));
    PlayIsRun(m, x.Sending());
    var taken := ReadMessage(m1.w, x.capacity).0;
    var m2 := m.(w := PublishResponse(taken, x.response).0);
    RunAppend(m, Actions(x.Sending()), x.Answering());
    TwoSteps(m1, Read(x.capacity), BscMachine.Write(x.response, []));
    RunAppend(m, Actions(x.Sending()) + x.Answering(), Actions(x.reading));
    if Live(taken) && Live(m2.w) {
      assert Under(taken, []) == taken && Rest(m2.w) == m2.w;
      PlayIsRun(m2, x.reading);
    }
  }

  /** Every normal exchange is exact, whatever was exchanged before it. */
  lemma ExchangeIsExact(m: Machine, x: Exchange)
    requires m.phase.Opened? && Rested(m.w) && Proper(m, x)
    ensures Exact(m, x) && Perform(m, x).phase.Opened?
  {
    hide Requested, Play, Run, ReadMessage, PublishResponse, PromptRx, PromptTx, Inv, Operational, RepliedExactly;
    var w := m.w;
    RecordingIsExact(w, x, []);
    var recorded := Play(w, x.Sending());
    TakingTheRequest(recorded, x.Request(), x.capacity, [], w.d.requestGeneration + 1, w.own, w.edges);
    RequestedEdges(recorded, x.Request(), [], w.d.requestGeneration + 1, w.own, w.edges);
    var taken := ReadMessage(recorded, x.capacity).0;
    PublishInStillness(taken, x.response);
    var answered := PublishResponse(taken, x.response).0;
    RepliedFrame(taken, answered, x.response);
    PerformInSteps(m, x);
    FullEnough(answered);
    PromptRefillFeedsAll(answered, x.reading, 0);
    var after := Play(answered, x.reading);
    assert after.wire.out == x.response by {
      assert [] + x.response == x.response;
    }
    NoBurstWhileQueued(after);
    assert Datas(after.own.delivered) == Datas(w.own.delivered) + [x.Request()];
    assert (w.edges + [Ack(w.d.requestGeneration + 1), Release]) + [Respond(w.d.requestGeneration + 1)]
        == w.edges + [Ack(w.d.requestGeneration + 1), Release, Respond(w.d.requestGeneration + 1)];
  }

  lemma RequestedEdges(w: World, request: seq<byte>, left: seq<byte>, generation: nat, own: OwnLog, edges: seq<Edge>)
    requires Requested(w, request, left, generation, own, edges)
    ensures w.edges == edges + [Ack(generation), Release]
  {
  }

  lemma RepliedFrame(w: World, after: World, data: seq<byte>)
    requires RepliedExactly(w, after, data)
    ensures |after.own.published| == |w.own.published| + 1 && after.wire.stale == [] && after.d.tx == data && after.d.queued
  {
  }

  lemma FullEnough(w: World)
    requires Replying(w) && (w.d.Unloaded() ==> |w.h.txFifo| >= FIFO_SIZE)
    ensures w.d.Unloaded() ==> |w.h.TxContents()| >= TX_SLACK
  {
    ReplyAccount(w);
    hide Inv;
  }

  // ---- Any number of exchanges ----

  ghost predicate AllProper(m: Machine, xs: seq<Exchange>)
    decreases |xs|
  {
    xs == [] || (Proper(m, xs[0]) && AllProper(Perform(m, xs[0]), xs[1..]))
  }

  ghost predicate AllExact(m: Machine, xs: seq<Exchange>)
    decreases |xs|
  {
    xs == [] || (Exact(m, xs[0]) && AllExact(Perform(m, xs[0]), xs[1..]))
  }

  lemma {:induction false} EveryExchangeIsExact(m: Machine, xs: seq<Exchange>)
    requires m.phase.Opened? && Rested(m.w) && AllProper(m, xs)
    ensures AllExact(m, xs)
    decreases |xs|
  {
    hide Proper, Perform, Rested;
    if xs != [] {
      ExchangeIsExact(m, xs[0]);
      ExactRests(m, xs[0]);
      EveryExchangeIsExact(Perform(m, xs[0]), xs[1..]);
    }
  }

  lemma ExactRests(m: Machine, x: Exchange)
    requires Exact(m, x)
    ensures Rested(Perform(m, x).w)
  {
    hide Rested, Perform;
  }

  // ---- Where it starts ----

  /** Nothing is received while the mode changes on a silent bus. */
  ghost predicate StillReceiver(w: World, after: World) {
    && after.script == [] && after.h.rxFifo == w.h.rxFifo && !after.h.rxBusy
    && after.rx.writes == w.rx.writes && after.rx.cuts == w.rx.cuts && after.rx.burst == w.rx.burst
    && after.rx.leftover == w.rx.leftover
  }

  lemma StillSetCr(w: World, value: nat)
    requires w.script == [] && !w.h.rxBusy
    ensures StillReceiver(w, SetCr(w, value)) && SetCr(w, value).h.overrun == w.h.overrun
    ensures WriteCr(w, value) == SetCr(w, value)
  {
  }

  lemma {:induction false} StillTransitions(w: World, count: nat)
    requires w.script == [] && !w.h.rxBusy
    ensures StillReceiver(w, Transitions(w, count))
    decreases count
  {
    hide SetCr, WriteCr;
    if count > 0 {
      var enabled := WriteCr(w, CR_EN + CR_TXE);
      StillSetCr(w, CR_EN + CR_TXE);
      StillSetCr(enabled, 0);
      StillTransitions(WriteCr(enabled, 0), count - 1);
    }
  }

  lemma StillConfigure(w: World)
    requires w.script == [] && !w.h.rxBusy
    ensures StillReceiver(w, Configure(w)) && !Configure(w).h.overrun
  {
    hide WriteCr, Transitions;
    var masked := WriteImsc(w, 0);
    StillSetCr(masked, 0);
    StillTransitions(WriteCr(masked, 0), FlagsOf(masked.h).txLevel + 1);
    var purged := PurgeTxFifo(masked);
    hide PurgeTxFifo;
    var addressed := WriteSlv(WriteRsr(purged), purged.d.address);
    StillSetCr(addressed, CR_I2C_TARGET);
  }

  /** What an activation on a silent bus begins with: the bytes that the receive FIFO still holds. */
  ghost predicate Activated(w: World, after: World) {
    && Inv(after, false) && Operational(after) && after.script == [] && !after.h.rxBusy && !after.h.overrun
    && after.d.hasReady == w.d.hasReady && after.d.queue == [] && !after.d.InBurst() && !after.d.queued
    && after.h.TxContents() == [] && after.h.rxFifo == w.h.rxFifo
    && after.rx.writes == w.rx.writes && after.rx.cuts == [|w.rx.writes|] && after.rx.burst == []
    && after.rx.leftover == w.h.rxFifo
  }

  lemma NotBusyOutOfTarget(w: World)
    requires Inv(w, false)
    ensures w.h.rxBusy ==> w.h.cr == CR_I2C_TARGET
  {
    hide SentInv, SignalInv, RecordsInv, OwnInv, TxInv, EdgeInv;
  }

  lemma ResetInStillness(w: World)
    requires w.script == []
    ensures var after := ResetIo(w);
            && after.script == [] && after.h.rxFifo == w.h.rxFifo && after.h.rxBusy == w.h.rxBusy
            && after.rx == w.rx.(burst := [], cuts := [|w.rx.writes|], leftover := w.h.rxFifo) && !after.d.overflowed
            && after.d.hasReady == w.d.hasReady
  {
  }

  lemma ActivationBegins(w: World)
    requires Inv(w, false) && w.script == [] && w.h.cr == 0
    ensures Activated(w, Activate(w))
  {
    hide Inv, Operational, ResetIo, Configure;
    NotBusyOutOfTarget(w);
    ActivateIsSafe(w);
    ResetKeeps(w);
    var reset := ResetIo(w);
    ResetInStillness(w);
    var activated := reset.(d := reset.d.(active := true));
    KeptInOrder(reset);
    StillConfigure(activated);
    ConfigureEmpties(activated);
    ConfigureFrame(activated);
  }

  function Claim(w: World): World {
    w.(d := w.d.(isOpen := true))
  }

  /** A closed device, as it is after boot and after every release. */
  ghost predicate Shut(m: Machine) {
    Safe(m) && m.phase.Closed? && !m.removing && !m.w.d.dead && m.w.script == []
  }

  const OPENING: seq<Action> := [OpenBegin, OpenFinish(true, [])]

  lemma OpeningActivates(m: Machine)
    requires Shut(m)
    ensures var after := Run(m, OPENING);
            && Safe(after) && after.phase.Opened? && after.w.d.active && !after.w.d.dead && !after.removing
            && Activated(m.w, after.w)
  {
    hide Safe, Activate, Inv, Operational, Run;
    RunIsSafe(m, OPENING);
    ShutIsIdle(m);
    OpeningIs(m);
    ClaimIsFree(m.w);
    ActivationBegins(Claim(m.w));
    ActivateIsSafe(Claim(m.w));
    assert Rest(Activate(Claim(m.w))) == Activate(Claim(m.w));
  }

  lemma ClaimIsFree(w: World)
    requires Inv(w, false)
    ensures Inv(Claim(w), false)
  {
    hide Inv;
    LifecycleIsFree(w, w.d.active, w.d.dead, true);
    assert Claim(w) == w.(d := w.d.(active := w.d.active, dead := w.d.dead, isOpen := true));
  }

  lemma OpeningIs(m: Machine)
    requires m.phase.Closed? && !m.removing && !m.w.d.dead && !m.w.d.isOpen && m.w.script == []
    ensures Run(m, OPENING) == m.(w := Rest(Activate(Claim(m.w))), phase := Opened)
  {
    hide Activate, Run;
    TwoSteps(m, OpenBegin, OpenFinish(true, []));
    assert Under(Claim(m.w), []) == Claim(m.w);
  }

  lemma ShutIsIdle(m: Machine)
    requires Shut(m)
    ensures Inv(m.w, false) && m.w.h.cr == 0 && !m.w.d.isOpen && !m.w.d.active
  {
    hide Inv, Operational;
  }

  lemma BootIsShut(s: Setup)
    requires s.Plausible()
    ensures Shut(Boot(s)) && Boot(s).w.d.hasReady == s.hasReady
  {
    BootIsSafe(s);
    FoundIsSound(s);
    DisableIsSafe(Found(s));
    hide Inv, Disable, Operational;
  }

  /** One service run on a silent bus ends whatever an open began with. */
  lemma ServedRests(w: World)
    requires Inv(w, false) && Operational(w) && Live(w) && w.d.hasReady && !w.h.rxBusy && !w.d.queued
    requires w.h.TxContents() == []
    ensures Rested(Service(w))
  {
    StillUnqueued(w);
    hide Inv, Operational, Snapshot, FinishRx, Service, InterruptMask;
    StillService(w);
    ServiceReady(w);
    assert Service(w).h.TxContents() == w.h.TxContents();
  }

  lemma StillUnqueued(w: World)
    requires Inv(w, false) && w.script == [] && !w.d.queued
    ensures !Snapshot(w).d.queued
  {
    var checked := ServiceErrors(w);
    assert checked.script == [] && !checked.d.queued;
    hide ServiceErrors, DrainRx, Inv;
    DrainUnqueues(checked);
    DrainInStillness(checked);
  }

  lemma {:induction false} DrainUnqueues(w: World)
    requires w.script == [] && !w.d.queued
    ensures !DrainRx(w).d.queued
    decreases |w.h.rxFifo|
  {
    if w.h.rxFifo != [] {
      DrainByteIsDrained(w);
      DrainedFrame(w, w.h.rxFifo[0]);
      DrainByteShrinks(w);
      hide DrainByte, Drained;
      DrainUnqueues(DrainByte(w));
      assert DrainRx(w) == DrainRx(DrainByte(w));
    } else {
      assert DrainRx(w) == w;
    }
  }

  /**
   A device in READY mode that is opened on a silent bus rests at once if and only if the receive FIFO is empty, and
   otherwise after one timer run, whatever the FIFOs held before.
   */
  lemma OpenedDeviceRests(s: Setup)
    requires s.Plausible() && s.hasReady
    ensures var opening := Reach(s, OPENING).w;
            && (Rested(opening) <==> Boot(s).w.h.rxFifo == [])
            && Rested(Run(Reach(s, OPENING), [TimerRun([])]).w)
  {
    BootIsShut(s);
    OpeningActivates(Boot(s));
    var opening := Reach(s, OPENING);
    hide Inv, Operational, Boot, Service, Activate, InterruptMask, Safe;
    ServedByTimer(opening);
    CountingIsFree(opening.w, OnTimer);
    ServedRests(Counted(opening.w, OnTimer));
  }

  lemma ServedByTimer(m: Machine)
    requires Live(m.w)
    ensures Run(m, [TimerRun([])]) == Act(m, TimerRun([])) == m.(w := Service(Counted(m.w, OnTimer)))
    ensures Live(Service(Counted(m.w, OnTimer)))
  {
    ServingIs(m.w, OnTimer);
    PulseIsAct(m, OnTimer);
    OneStep(m, TimerRun([]));
    hide Act, Pulse;
  }
}
