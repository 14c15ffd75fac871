/** Runs that show where a promise of the documentation ends. */
module BscFindings {
  import opened Bytes
  import opened BscWorld
  import opened BscDriver
  import opened BscInvariant
  import opened BscService
  import opened BscActions
  import opened BscResponse
  import opened BscRecovery
  import opened BscMachine
  import opened BscPurge
  import opened BscBooks
  import opened BscPromises
  import opened BscReplies
  import opened BscLatency
  import opened BscExchange
  import opened BscRace

  /** An open device on a silent bus. */
  ghost predicate Running(m: Machine) {
    m.phase.Opened? && m.w.d.active && !m.w.d.dead && !m.removing && m.w.script == []
  }

  // ---- Bytes that were left in the receive FIFO ----

  const REOPENING: seq<Action> := [ReleaseBegin([]), ReleaseEnd] + OPENING

  lemma StillReset(w: World)
    requires w.script == []
    ensures ResetIo(w).script == [] && ResetIo(w).h == w.h.(ready := ResetIo(w).h.ready) && ResetIo(w).rx.writes == w.rx.writes
  {
    ReadyInStillness(Cleared(w), false, Release);
    ResetIsRelease(w);
    StillSetReady(Cleared(w));
    hide ResetIo, SetReady;
  }

  lemma StillSetReady(w: World)
    requires w.script == []
    ensures SetReady(w, false, Release).rx == w.rx
  {
  }

  lemma StillDeactivation(w: World)
    requires w.script == [] && w.d.active && !w.h.rxBusy
    ensures var after := Deactivate(w); after.script == [] && after.h.rxFifo == w.h.rxFifo && after.rx.writes == w.rx.writes
  {
    var masked := WriteImsc(w.(d := w.d.(active := false)), 0);
    StillSetCr(masked, 0);
    hide WriteCr, ResetIo;
    StillReset(WriteSlv(WriteRsr(WriteCr(masked, 0)), 0));
  }

  lemma Released(m: Machine)
    requires Safe(m) && Running(m) && !m.w.h.rxBusy
    ensures var after := Run(m, [ReleaseBegin([]), ReleaseEnd]);
            Shut(after) && after.w.h.rxFifo == m.w.h.rxFifo && after.w.rx.writes == m.w.rx.writes
  {
    hide Safe, Deactivate;
    RunIsSafe(m, [ReleaseBegin([]), ReleaseEnd]);
    TwoSteps(m, ReleaseBegin([]), ReleaseEnd);
    StillDeactivation(m.w);
    DeactivatedAlive(m.w);
    assert Under(m.w, []) == m.w;
  }

  lemma DeactivatedAlive(w: World)
    ensures Deactivate(w).d.dead == w.d.dead
  {
    hide WriteImsc, WriteCr, WriteRsr, WriteSlv, ResetIo;
    var inactive := w.(d := w.d.(active := false));
    RegisterFrames(inactive, 0);
    var masked := WriteImsc(inactive, 0);
    RegisterFrames(masked, 0);
    var off := WriteCr(masked, 0);
    RegisterFrames(off, 0);
    RegisterFrames(WriteRsr(off), 0);
    var silent := WriteSlv(WriteRsr(off), 0);
    ResetIsRelease(silent);
    SetReadyIsSteady(Cleared(silent), false, Release);
    hide SetReady;
  }

  /** What the FIFO held when the device was opened is the first record, although nothing has been written since. */
  lemma LeftoverIsServed(m: Machine, before: World)
    requires Safe(m) && Running(m) && Activated(before, m.w) && 0 < |before.h.rxFifo| <= MAX_TRANSFER
    ensures var w := Run(m, [TimerRun([])]).w;
            && w.d.queue == [before.h.rxFifo] && w.rx.writes == before.rx.writes
            && w.rx.cuts == [|before.rx.writes|, |before.rx.writes|] && w.rx.leftover == before.h.rxFifo
  {
    hide Inv, Operational, Service, Snapshot, FinishRx, InterruptMask, Safe;
    ServedByTimer(m);
    CountingIsFree(m.w, OnTimer);
    CountedFrame(m.w, OnTimer);
    var w := Counted(m.w, OnTimer);
    SnapshotTakesAll(w);
    StillSnapshot(w);
    StillUnqueued(w);
    StillService(w);
    var seen := Snapshot(w);
    assert [] + before.h.rxFifo == before.h.rxFifo;
    FinishRecords(seen);
  }

  /** Draining without the bus moving adds to the burst only. */
  ghost predicate StillLog(w: World, after: World) {
    && after.d.queue == [] && after.script == []
    && after.rx.writes == w.rx.writes && after.rx.cuts == w.rx.cuts && after.rx.leftover == w.rx.leftover
  }

  lemma StillSnapshot(w: World)
    requires w.script == [] && w.d.queue == []
    ensures StillLog(w, Snapshot(w))
  {
    var checked := ServiceErrors(w);
    StillErrors(w);
    hide ServiceErrors, DrainRx;
    StillDrain(checked);
  }

  lemma StillErrors(w: World)
    requires w.script == []
    ensures var after := ServiceErrors(w); after.script == [] && after.rx == w.rx && after.d.queue == w.d.queue
  {
  }

  lemma {:induction false} StillDrain(w: World)
    requires w.script == [] && w.d.queue == []
    ensures StillLog(w, DrainRx(w))
    decreases |w.h.rxFifo|
  {
    if w.h.rxFifo != [] {
      DrainByteIsDrained(w);
      DrainedFrame(w, w.h.rxFifo[0]);
      DrainByteShrinks(w);
      hide DrainByte, Drained;
      StillDrain(DrainByte(w));
      assert DrainRx(w) == DrainRx(DrainByte(w));
    } else {
      assert DrainRx(w) == w;
    }
  }

  /**
   Neither closing nor opening empties the receive FIFO: bytes that were not drained when the device was closed
   come back as the first record of the next open, in which nothing has been written.
   */
  lemma LeftoverBecomesARecord(m: Machine)
    requires Safe(m) && Running(m) && !m.w.h.rxBusy && 0 < |m.w.h.rxFifo| <= MAX_TRANSFER
    ensures var w := Run(Run(m, REOPENING), [TimerRun([])]).w;
            && w.d.queue == [m.w.h.rxFifo] && w.rx.writes == m.w.rx.writes
            && w.rx.cuts == [|w.rx.writes|, |w.rx.writes|] && w.rx.leftover == m.w.h.rxFifo
  {
    hide Safe, Activated, Act;
    RunAppend(m, [ReleaseBegin([]), ReleaseEnd], OPENING);
    Released(m);
    var closed := Run(m, [ReleaseBegin([]), ReleaseEnd]);
    OpeningActivates(closed);
    OpenedIsRunning(closed.w, Run(closed, OPENING));
    LeftoverIsServed(Run(closed, OPENING), closed.w);
  }

  lemma OpenedIsRunning(w: World, m: Machine)
    requires Activated(w, m.w) && m.phase.Opened? && m.w.d.active && !m.w.d.dead && !m.removing
    ensures Running(m)
  {
  }

  // ---- A reply that was abandoned ----

  function Request(a: byte): seq<Action> {
    [Bus([Start, Send(a), Stop]), TimerRun([])]
  }

  lemma ThreeEvents(w: World, a: byte)
    ensures HappenAll(w, [Start, Send(a), Stop]) == Happen(Happen(Happen(w, Start), Send(a)), Stop)
  {
    hide Happen;
    var events := [Start, Send(a), Stop];
    assert events[1..] == [Send(a), Stop] && [Send(a), Stop][1..] == [Stop] && [Stop][1..] == [];
    var last := Happen(Happen(Happen(w, Start), Send(a)), Stop);
    assert HappenAll(last, []) == last;
    assert HappenAll(Happen(Happen(w, Start), Send(a)), [Stop]) == last;
    assert HappenAll(Happen(w, Start), [Send(a), Stop]) == last;
  }

  /** One byte is written and served, whatever the controller has left unread. */
  lemma RequestArrives(m: Machine, a: byte, left: seq<byte>)
    requires Running(m) && Resting(m.w, left)
    ensures var after := Run(m, Request(a));
            Running(after) && Requested(after.w, [a], left, m.w.d.requestGeneration + 1, m.w.own, m.w.edges)
  {
    hide Happen, Timer, Resting, Receiving, Complete, Requested;
    var (g, own, edges) := (m.w.d.requestGeneration, m.w.own, m.w.edges);
    var started := Happen(m.w, Start);
    var sent := Happen(started, Send(a));
    var stopped := Happen(sent, Stop);
    WriteBegins(m.w, left);
    SendMidway(started, a, [], left, g, own, edges);
    assert [] + [a] == [a];
    WriteEnds(sent, [a], left, g, own, edges);
    ThreeEvents(m.w, a);
    HappenAllIsBusOnly(m.w, [Start, Send(a), Stop]);
    CompleteIsLive(stopped, [a], left, g, own, edges);
    var written := m.(w := stopped);
    TwoSteps(m, Bus([Start, Send(a), Stop]), TimerRun([]));
    PulseIsAct(written, OnTimer);
    RequestIsRecorded(stopped, OnTimer, [a], left, g, own, edges);
  }

  lemma SameScript(w: World)
    ensures w.script == [] ==> w.(script := []) == w
  {
  }

  /** The worker takes the request. */
  lemma RequestIsTaken(m: Machine, a: byte, left: seq<byte>, generation: nat, own: OwnLog, edges: seq<Edge>)
    requires Running(m) && Requested(m.w, [a], left, generation, own, edges)
    ensures var after := Act(m, Read(1));
            && Running(after) && Resting(after.w, left) && Owner(after.w) && !after.w.d.queued && !after.w.h.underrun
            && after.w.own.published == own.published && after.w.rx == m.w.rx
            && after.w.own.delivered == own.delivered + [Record(after.w.own.LastRead(), [a])]
  {
    hide Resting, Owner, Requested, ReadMessage, InterruptMask;
    TakingTheRequest(m.w, [a], 1, left, generation, own, edges);
    ReadFrame(m.w, 1);
    RestingIsStill(ReadMessage(m.w, 1).0, left);
  }

  lemma RestingIsStill(w: World, left: seq<byte>)
    requires Resting(w, left)
    ensures w.script == []
  {
  }

  /** A publication on a silent bus: what was left unread stays before the response. */
  lemma PublishAfter(w: World, data: seq<byte>, left: seq<byte>)
    requires Resting(w, left) && Owner(w) && !w.d.queued
    ensures var (after, result) := PublishResponse(w, data);
            && result == Done(|data|) && Inv(after, false) && Operational(after) && after.script == []
            && after.own.published == w.own.published + [Publication(w.own.LastRead(), Decision(w).rx.Begun(), data)]
            && after.d.queued && after.d.tx == data && after.wire.stale == left && after.wire.out == []
            && after.h.rxFifo == [] && !after.h.rxBusy && !after.h.overrun && !after.d.InBurst() && SameLife(w, after)
            && (after.d.Unloaded() ==> |after.h.txFifo| >= FIFO_SIZE)
  {
    hide Inv, Operational, Service, CheckIdle, Reply, MayReply, InterruptMask, Entitled, Snapshot, FinishRx;
    BurstIsWork(w);
    PublishKeeps(w, data);
    PublicationDecided(w, data);
    StillUnqueued(w);
    StillService(w);
    QuietService(w);
    var turn := ConsumeTurn(Service(w));
    assert turn.h.TxContents() == left;
    StillCheck(turn);
    QuietCheck(turn);
    StillReply(turn, data);
    NoBurstWhileQueued(PublishResponse(w, data).0);
  }

  /** A response that fits into FIFO and serializer waits there whole. */
  lemma ShortReplyWaits(w: World, data: seq<byte>)
    requires Inv(w, false) && w.d.queued && w.d.tx == data && w.wire.stale == [] && w.wire.out == [] && |data| <= FIFO_SIZE + 1
    requires w.d.Unloaded() ==> |w.h.txFifo| >= FIFO_SIZE
    ensures !w.d.Unloaded() && w.h.TxContents() == data
  {
    hide Inv;
    ReplyAccount(w);
    assert [] + data[..w.d.loaded] == data[..w.d.loaded] && [] + w.h.TxContents() == w.h.TxContents();
    assert w.h.TxContents() == data[..w.d.loaded] && |w.h.TxContents()| == w.d.loaded;
    if |w.h.txFifo| >= FIFO_SIZE {
      assert |w.h.TxContents()| == 1 + |w.h.txFifo|;
    }
    assert data[..|data|] == data;
  }

  /** The worker's response is published and not read. */
  lemma ReplyIsAbandoned(m: Machine, data: seq<byte>)
    requires Running(m) && Resting(m.w, []) && Owner(m.w) && !m.w.d.queued && 0 < |data| <= FIFO_SIZE + 1
    ensures var after := Act(m, Write(data, [])); Running(after) && Resting(after.w, data)
  {
    hide Inv, Operational, PublishResponse;
    assert Under(m.w, []) == m.w;
    PublishAfter(m.w, data, []);
    var after := PublishResponse(m.w, data).0;
    ShortReplyWaits(after, data);
    NoBurstWhileQueued(after);
    SameScript(after);
  }

  /** The next response is published; the controller reads one byte for each of it, beginning with the old ones. */
  lemma OldBytesComeFirst(m: Machine, left: seq<byte>, data: seq<byte>)
    requires Running(m) && Resting(m.w, left) && Owner(m.w) && !m.w.d.queued && left != [] && 0 < |data| <= MAX_TRANSFER
    ensures var w := Act(Act(m, Write(data, [])), Bus([Clock])).w;
            w.d.queued && w.d.tx == data && w.wire.out == [left[0]]
  {
    hide Inv, Operational, PublishResponse;
    assert Under(m.w, []) == m.w;
    PublishAfter(m.w, data, left);
    var after := PublishResponse(m.w, data).0;
    SameScript(after);
    ReplyAccount(after);
    OperatesInTarget(after);
    FirstByte(after.h, left, after.wire.stale + after.d.tx[..after.d.loaded]);
    ClockReads(after);
    hide Happen;
    assert [Clock][1..] == [];
    assert HappenAll(after, [Clock]) == HappenAll(Happen(after, Clock), []) == Happen(after, Clock);
    assert [] + [left[0]] == [left[0]];
  }

  lemma OperatesInTarget(w: World)
    requires Operational(w)
    ensures w.h.cr == CR_I2C_TARGET
  {
  }

  lemma FirstByte(h: Hw, left: seq<byte>, all: seq<byte>)
    requires left != [] && left <= all && [] + h.TxContents() == all && (h.serializer.None? ==> h.txFifo == [])
    ensures h.serializer == Some(left[0])
  {
    assert h.TxContents()[0] == all[0] == left[0];
  }

  /**
   A run in which a reply is not exact: the controller abandons the response [x] and, without a recovery, sends
   another request. For the response [y] to that it reads [x].
   */
  lemma AbandonedReplyPrecedesTheNext(s: Setup, a: byte, b: byte, x: byte, y: byte)
    requires s.Plausible() && s.hasReady && Boot(s).w.h.rxFifo == []
    ensures var first := Act(Run(Reach(s, OPENING), Request(a)), Read(1));
            var second := Act(Run(Act(first, Write([x], [])), Request(b)), Read(1));
            var w := Act(Act(second, Write([y], [])), Bus([Clock])).w;
            w.d.queued && w.d.tx == [y] && w.wire.out == [x]
  {
    hide Resting, Requested, Owner, Act, Run, Boot, Running, Request;
    var m := OpenedForRequests(s);
    RequestArrives(m, a, []);
    var asked := Run(m, Request(a));
    RequestIsTaken(asked, a, [], m.w.d.requestGeneration + 1, m.w.own, m.w.edges);
    var first := Act(asked, Read(1));
    ReplyIsAbandoned(first, [x]);
    var abandoned := Act(first, Write([x], []));
    RequestArrives(abandoned, b, [x]);
    var again := Run(abandoned, Request(b));
    RequestIsTaken(again, b, [x], abandoned.w.d.requestGeneration + 1, abandoned.w.own, abandoned.w.edges);
    OldBytesComeFirst(Act(again, Read(1)), [x], [y]);
  }

  lemma OpenedForRequests(s: Setup) returns (m: Machine)
    requires s.Plausible() && s.hasReady && Boot(s).w.h.rxFifo == []
    ensures m == Reach(s, OPENING) && Running(m) && Resting(m.w, [])
  {
    m := Reach(s, OPENING);
    BootIsShut(s);
    OpeningActivates(Boot(s));
    OpenedDeviceRests(s);
    OpenedIsRunning(Boot(s).w, m);
    hide Boot, Safe, Resting, Activated, Running;
  }

  // ---- A response to the request before the last ----

  /**
   A run from boot in which a response answers a request that is no longer the last: the write of `b` comes just
   before the final look at the flags.
   */
  lemma StaleAnswerInARun(s: Setup, a: byte, b: byte, data: seq<byte>)
    requires s.Plausible() && s.hasReady && Boot(s).w.h.rxFifo == [] && 0 < |data| <= MAX_TRANSFER
    ensures var asked := Act(Run(Reach(s, OPENING), Request(a)), Read(1));
            var w := Act(asked, Write(data, Intruder(b))).w;
            && |w.own.published| == |asked.w.own.published| + 1 && w.d.queued && w.d.tx == data
            && |w.rx.writes| == |asked.w.rx.writes| + 1 && w.h.rxFifo == [b]
  {
    hide Resting, Requested, Owner, Act, Run, Boot, Running, Request;
    var m := OpenedForRequests(s);
    RequestArrives(m, a, []);
    var served := Run(m, Request(a));
    RequestIsTaken(served, a, [], m.w.d.requestGeneration + 1, m.w.own, m.w.edges);
    WriteIntruded(Act(served, Read(1)), b, data);
  }

  lemma WriteIntruded(m: Machine, b: byte, data: seq<byte>)
    requires Running(m) && Resting(m.w, []) && Owner(m.w) && !m.w.h.underrun && 0 < |data| <= MAX_TRANSFER
    ensures var w := Act(m, Write(data, Intruder(b))).w;
            && |w.own.published| == |m.w.own.published| + 1 && w.d.queued && w.d.tx == data
            && |w.rx.writes| == |m.w.rx.writes| + 1 && w.h.rxFifo == [b]
  {
    hide Inv, Operational, PublishResponse, Intruder;
    UnderOwes(m.w, Intruder(b));
    PublishesPastANewWrite(Under(m.w, Intruder(b)), b, data);
  }

  // ---- Overruns that are not counted ----

  function Sends(bytes: seq<byte>): seq<Event> {
    seq(|bytes|, i requires 0 <= i < |bytes| => Send(bytes[i]))
  }

  lemma {:induction false} SendsArrive(w: World, bytes: seq<byte>)
    requires w.h.rxBusy && |w.h.rxFifo| + |bytes| <= FIFO_SIZE
    ensures var after := HappenAll(w, Sends(bytes));
            && after == w.(h := w.h.(rxFifo := w.h.rxFifo + bytes), rx := after.rx)
            && after.rx.writes == w.rx.writes && after.rx.holed == w.rx.holed
    decreases |bytes|
  {
    if bytes == [] {
      assert w.h.rxFifo + [] == w.h.rxFifo;
      assert w == w.(h := w.h.(rxFifo := w.h.rxFifo), rx := w.rx);
    } else {
      var next := Happen(w, Send(bytes[0]));
      assert Sends(bytes)[0] == Send(bytes[0]) && Sends(bytes)[1..] == Sends(bytes[1..]);
      SendsArrive(next, bytes[1..]);
      Reassociate(w.h.rxFifo, [bytes[0]], bytes[1..]);
      assert [bytes[0]] + bytes[1..] == bytes;
    }
  }

  /** The controller is in a write of 16 bytes and more, of which the driver has read none yet. */
  ghost predicate Filled(m: Machine, before: World) {
    && Running(m) && m.w.h.rxBusy && |m.w.h.rxFifo| == FIFO_SIZE && m.w.h.cr == CR_I2C_TARGET && !m.w.h.overrun
    && m.w.d == before.d && m.w.rx.writes == before.rx.writes && m.w.rx.holed == before.rx.holed
  }

  lemma WriteStarts(w: World)
    requires Resting(w, [])
    ensures var after := Happen(w, Start);
            && after == w.(h := w.h.(rxBusy := true), rx := after.rx)
            && after.rx.writes == w.rx.writes && after.rx.holed == w.rx.holed
            && after.h.cr == CR_I2C_TARGET && !after.h.overrun && after.h.rxFifo == []
  {
    hide Inv, InterruptMask;
  }

  lemma WriteFills(m: Machine, bytes: seq<byte>)
    requires Running(m) && Resting(m.w, []) && |bytes| == FIFO_SIZE
    ensures var after := Act(m, Bus([Start] + Sends(bytes)));
            Filled(after, m.w) && after.w.h.underrun == m.w.h.underrun
  {
    hide Resting, Happen;
    var events := [Start] + Sends(bytes);
    assert events[0] == Start && events[1..] == Sends(bytes);
    var started := Happen(m.w, Start);
    WriteStarts(m.w);
    HappenFirst(m.w, events);
    SendsArrive(started, bytes);
    assert [] + bytes == bytes;
    hide HappenAll;
  }

  lemma HappenFirst(w: World, events: seq<Event>)
    requires events != []
    ensures HappenAll(w, events) == HappenAll(Happen(w, events[0]), events[1..])
  {
  }

  /** The controller clocks a byte although there is none to send. */
  lemma ClockUnderruns(m: Machine)
    requires Running(m) && Resting(m.w, [])
    ensures var after := Act(m, Bus([Clock])); Running(after) && Resting(after.w, []) && after.w.h.underrun && after.w.d == m.w.d
    ensures var after := Act(m, Bus([Clock])); after.w.rx == m.w.rx
  {
    hide Inv, InterruptMask;
    HappenKeeps(m.w, Clock, false);
    assert [Clock][1..] == [];
    assert HappenAll(Happen(m.w, Clock), []) == Happen(m.w, Clock);
    assert HappenAll(m.w, [Clock]) == Happen(m.w, Clock);
  }

  /** The byte that is lost between the reading and the clearing of the error register. */
  lemma ErrorsMask(w: World, b: byte)
    requires w.script == [[], [Send(b)]] && w.h.rxBusy && |w.h.rxFifo| == FIFO_SIZE && w.h.underrun && !w.h.overrun
    ensures var after := ServiceErrors(w);
            && after.rx.holed == w.rx.holed + {|w.rx.writes|} && after.script == [] && after.h.rxBusy
            && !after.h.overrun && after.d.stats.rxOverruns == w.d.stats.rxOverruns
  {
    SilentTick(w, [[Send(b)]]);
    var counted := CountErrors(w.(script := [[Send(b)]]));
    assert w.script == [[]] + [[Send(b)]];
    assert counted.script[1..] == [] && [Send(b)][1..] == [];
    var base := counted.(script := []);
    assert HappenAll(base, [Send(b)]) == HappenAll(Happen(base, Send(b)), []) == Happen(base, Send(b));
    assert Tick(counted) == Happen(base, Send(b));
  }

  lemma ServiceMasks(w: World, b: byte)
    requires w.script == [[], [Send(b)]] && w.h.rxBusy && |w.h.rxFifo| == FIFO_SIZE && w.h.underrun && !w.h.overrun
    ensures var after := Service(w);
            && after.rx.holed == w.rx.holed + {|w.rx.writes|}
            && !after.h.overrun && after.d.stats.rxOverruns == w.d.stats.rxOverruns
  {
    ErrorsMask(w, b);
    var checked := ServiceErrors(w);
    hide ServiceErrors, DrainRx, RefillTx;
    DrainInStillness(checked);
    RefillInStillness(DrainRx(checked));
    RefillFrame(DrainRx(checked));
  }

  /**
   A run from boot in which a byte is lost and no counter says so: the controller reads without a response, so that an
   underrun is reported, and overruns the FIFO just between the reading and the clearing of the error register.
   */
  lemma OverrunCanGoUncounted(s: Setup, bytes: seq<byte>, b: byte)
    requires s.Plausible() && s.hasReady && Boot(s).w.h.rxFifo == [] && |bytes| == FIFO_SIZE
    ensures var filled := Act(Act(Reach(s, OPENING), Bus([Clock])), Bus([Start] + Sends(bytes)));
            var w := Act(filled, TimerRun([[], [Send(b)]])).w;
            && w.rx.holed == filled.w.rx.holed + {|filled.w.rx.writes|} && |filled.w.rx.writes| !in filled.w.rx.holed
            && !w.h.overrun && w.d.stats.rxOverruns == filled.w.d.stats.rxOverruns
  {
    hide Resting, Act, Run, Boot, Running;
    var m := OpenedForRequests(s);
    ClockUnderruns(m);
    var clocked := Act(m, Bus([Clock]));
    WriteFills(clocked, bytes);
    TimerMasks(Act(clocked, Bus([Start] + Sends(bytes))), clocked.w, b);
    RestingIsWhole(clocked.w);
  }

  lemma RestingIsWhole(w: World)
    requires Resting(w, [])
    ensures |w.rx.writes| !in w.rx.holed
  {
    hide RxInv, RecordsInv, OwnInv, TxInv, EdgeInv, Operational;
  }

  lemma TimerMasks(m: Machine, before: World, b: byte)
    requires Filled(m, before) && m.w.h.underrun
    ensures var w := Act(m, TimerRun([[], [Send(b)]])).w;
            && w.rx.holed == m.w.rx.holed + {|m.w.rx.writes|}
            && !w.h.overrun && w.d.stats.rxOverruns == m.w.d.stats.rxOverruns
  {
    var script := [[], [Send(b)]];
    hide Service;
    ServiceMasks(CountTimer(Under(m.w, script)), b);
  }

  /** The same write is cut off by closing the device, which clears the error register without reading it. */
  lemma ClosingForgetsAnOverrun(s: Setup, bytes: seq<byte>, b: byte)
    requires s.Plausible() && s.hasReady && Boot(s).w.h.rxFifo == [] && |bytes| == FIFO_SIZE
    ensures var filled := Act(Reach(s, OPENING), Bus([Start] + Sends(bytes)));
            var w := Act(Act(filled, Bus([Send(b)])), ReleaseBegin([])).w;
            && w.rx.holed == filled.w.rx.holed + {|filled.w.rx.writes|} && |filled.w.rx.writes| !in filled.w.rx.holed
            && !w.h.overrun && w.d.stats == filled.w.d.stats
  {
    hide Resting, Act, Run, Boot, Running;
    var m := OpenedForRequests(s);
    WriteFills(m, bytes);
    ClosingForgets(Act(m, Bus([Start] + Sends(bytes))), m.w, b);
    RestingIsWhole(m.w);
  }

  lemma ClosingForgets(m: Machine, before: World, b: byte)
    requires Filled(m, before)
    ensures var w := Act(Act(m, Bus([Send(b)])), ReleaseBegin([])).w;
            && w.rx.holed == m.w.rx.holed + {|m.w.rx.writes|}
            && !w.h.overrun && w.d.stats == m.w.d.stats
  {
    assert [Send(b)][1..] == [];
    assert HappenAll(Happen(m.w, Send(b)), []) == Happen(m.w, Send(b));
    assert HappenAll(m.w, [Send(b)]) == Happen(m.w, Send(b));
    var lost := Happen(m.w, Send(b));
    assert Under(lost, []) == lost;
    DisableInStillness(lost.(d := lost.d.(active := false)));
    hide Disable;
  }

  lemma DisableInStillness(w: World)
    requires w.script == []
    ensures var after := Disable(w); after.rx.holed == w.rx.holed && !after.h.overrun && after.d.stats == w.d.stats
  {
    DisableIs(w);
    var off := WriteCr(WriteImsc(w, 0), 0);
    assert off.script == [] && off.d == w.d && off.rx.holed == w.rx.holed;
    var silent := WriteSlv(WriteRsr(off), 0);
    assert silent.script == [] && silent.d == w.d && silent.rx == off.rx && !silent.h.overrun;
    hide WriteCr, WriteImsc, WriteSlv, WriteRsr;
    ResetIsRelease(silent);
    ReadyInStillness(Cleared(silent), false, Release);
    SetReadyIsSteady(Cleared(silent), false, Release);
    hide SetReady, ResetIo;
  }
}
