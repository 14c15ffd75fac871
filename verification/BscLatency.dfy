/** How late the receive and the transmit FIFO may be served. */
module BscLatency {
  // The schedule is a sequence of bus events, interrupts and timer runs in any order: a timer may serve at any phase,
  // and the threshold interrupts serve within a number of byte times.

  import opened Bytes
  import opened BscWorld
  import opened BscDriver
  import opened BscInvariant
  import opened BscService
  import opened BscActions
  import opened BscResponse
  import opened BscMachine
  import opened BscRecovery

  /** IFLS_DEFAULT: receive at three quarters, transmit at seven eighths. */
  const RX_THRESHOLD: nat := 12
  const TX_THRESHOLD: nat := 14

  /** Arrivals that fit above the receive threshold. */
  const RX_SLACK: nat := 4

  /** Bytes left at the transmit threshold, including the one in the serializer. */
  const TX_SLACK: nat := 15

  datatype Beat = OnBus(e: Event) | OnInterrupt | OnTimer {
    function Action(): Action {
      match this
      case OnBus(e) => Bus([e])
      case OnInterrupt => Interrupt(true, [])
      case OnTimer => TimerRun([])
    }
  }

  function Pulse(w: World, b: Beat): World {
    match b
    case OnBus(e) => Happen(w, e)
    case OnInterrupt => Irq(w, true)
    case OnTimer => Timer(w)
  }

  function Play(w: World, beats: seq<Beat>): World
    decreases |beats|
  {
    if beats == [] then w else Play(Pulse(w, beats[0]), beats[1..])
  }

  function Actions(beats: seq<Beat>): (actions: seq<Action>) {
    seq(|beats|, i requires 0 <= i < |beats| => beats[i].Action())
  }

  /** The device is in use, and the bus moves only between the actions. */
  predicate Live(w: World) {
    w.script == [] && w.d.active && !w.d.dead
  }

  function Counters(b: Beat, stats: Stats): Stats {
    if b.OnInterrupt? then stats.(interrupts := stats.interrupts + 1) else stats.(timerRuns := stats.timerRuns + 1)
  }

  function Counted(w: World, b: Beat): World {
    w.(d := w.d.(stats := Counters(b, w.d.stats)))
  }

  lemma ServingIs(w: World, b: Beat)
    requires Live(w) && !b.OnBus?
    ensures Pulse(w, b) == Service(Counted(w, b)) && Live(Pulse(w, b))
  {
    ServeInStillness(Counted(w, b));
    ServiceIsSteady(Counted(w, b));
    hide Service;
  }

  lemma CountingIsFree(w: World, b: Beat)
    requires Inv(w, false) && Operational(w)
    ensures Inv(Counted(w, b), false) && Operational(Counted(w, b))
  {
    var counted := Counted(w, b);
    StatsAreFree(w, counted.d.stats, w.d.recoveries, w.h.overrun, w.h.underrun, false);
    hide Inv;
    assert counted == w.(d := w.d.(stats := counted.d.stats, recoveries := w.d.recoveries),
                         h := w.h.(overrun := w.h.overrun, underrun := w.h.underrun));
  }

  lemma EventIsAlive(w: World, e: Event)
    requires Live(w)
    ensures Live(Happen(w, e))
  {
    HappenIsBusOnly(w, e);
    hide Happen;
  }

  /** A schedule is a run of the device. */
  lemma {:induction false} PlayIsRun(m: Machine, beats: seq<Beat>)
    requires Live(m.w)
    ensures Run(m, Actions(beats)) == m.(w := Play(m.w, beats)) && Live(Play(m.w, beats))
    decreases |beats|
  {
    hide Act, Pulse, Live;
    if beats == [] {
      assert Actions(beats) == [];
    } else {
      assert Actions(beats)[0] == beats[0].Action() && Actions(beats)[1..] == Actions(beats[1..]);
      PulseIsAct(m, beats[0]);
      PlayIsRun(m.(w := Pulse(m.w, beats[0])), beats[1..]);
    }
  }

  lemma PulseIsAct(m: Machine, b: Beat)
    requires Live(m.w)
    ensures Act(m, b.Action()) == m.(w := Pulse(m.w, b)) && Live(Pulse(m.w, b))
  {
    if b.OnBus? {
      EventIsAlive(m.w, b.e);
      hide Happen;
      assert [b.e][1..] == [];
      assert HappenAll(m.w, [b.e]) == HappenAll(Happen(m.w, b.e), []);
    } else {
      ServingIs(m.w, b);
      hide Service;
      assert Under(m.w, []) == m.w && Rest(Pulse(m.w, b)) == Pulse(m.w, b);
    }
  }

  // ---- Receiving ----

  /** `late` bytes have arrived since the threshold was reached: no more than the slack ever do. */
  predicate PromptRx(w: World, beats: seq<Beat>, late: nat)
    decreases |beats|
  {
    if beats == [] then true
    else if beats[0].OnBus? && beats[0].e.Send? && w.h.rxBusy && |w.h.rxFifo| >= RX_THRESHOLD then
      late < RX_SLACK && PromptRx(Pulse(w, beats[0]), beats[1..], late + 1)
    else
      PromptRx(Pulse(w, beats[0]), beats[1..], if beats[0].OnBus? then late else 0)
  }

  /** A world without a script moves only by the driver's hand. */
  lemma {:induction false} DrainInStillness(w: World)
    requires w.script == []
    ensures var after := DrainRx(w);
            && after.script == [] && after.h.rxFifo == [] && after.h == w.h.(rxFifo := []) && after.wire == w.wire
            && after.rx == w.rx.(burst := after.rx.burst) && after.d.stats.rxOverruns == w.d.stats.rxOverruns
    decreases |w.h.rxFifo|
  {
    if w.h.rxFifo != [] {
      var next := DrainByte(w);
      DrainByteIsDrained(w);
      DrainedFrame(w, w.h.rxFifo[0]);
      DrainingCounts(w, w.h.rxFifo[0]);
      DrainByteShrinks(w);
      hide DrainByte, Drained;
      DrainInStillness(next);
    } else {
      assert DrainRx(w) == w;
      assert w.h == w.h.(rxFifo := []) && w.rx == w.rx.(burst := w.rx.burst);
    }
  }

  lemma DrainingCounts(w: World, b: byte)
    requires w.h.rxFifo != []
    ensures Drained(w, b).d.stats == w.d.stats.(rxDropped := w.d.stats.rxDropped + Dropping(w.d))
  {
    hide BeginBurst, StoreByte;
    var popped := w.(h := w.h.(rxFifo := w.h.rxFifo[1..]));
    BeginCounts(popped);
    StoreCounts(popped, b);
    StoreCounts(BeginBurst(popped), b);
  }

  /** The waiting records that the next byte drops. */
  function Dropping(d: Driver): nat {
    if d.hasReady && !d.InBurst() then |d.queue| else 0
  }

  lemma BeginCounts(w: World)
    ensures BeginBurst(w).d.stats == w.d.stats.(rxDropped := w.d.stats.rxDropped + (if w.d.hasReady then |w.d.queue| else 0))
  {
    assert w.d.queue == [] ==> w.d.stats == w.d.stats.(rxDropped := w.d.stats.rxDropped + |w.d.queue|);
  }

  lemma StoreCounts(w: World, b: byte)
    ensures StoreByte(w, b).d.stats == w.d.stats
  {
  }

  /** What the controller has sent, and what of it was lost. */
  ghost predicate SameLoss(w: World, after: World) {
    after.rx.holed == w.rx.holed && after.rx.bus == w.rx.bus && after.rx.writes == w.rx.writes
  }

  /** Loading without the bus moving: only the transmit path and what is loaded change. */
  ghost predicate StillLoad(w: World, after: World) {
    && after.script == [] && after.rx == w.rx && after.h.rxFifo == w.h.rxFifo && after.h.rxBusy == w.h.rxBusy
    && after.h.overrun == w.h.overrun && after.h.underrun == w.h.underrun && after.h.cr == w.h.cr
    && after.wire.gaps == w.wire.gaps && after.wire.out == w.wire.out
  }

  lemma NextInStillness(w: World)
    requires w.script == [] && w.d.loaded < |w.d.tx|
    ensures StillLoad(w, WriteNext(w)) && WriteNext(w).d == w.d.(loaded := w.d.loaded + 1)
  {
  }

  lemma StillLoadChain(a: World, b: World, c: World)
    requires StillLoad(a, b) && StillLoad(b, c)
    ensures StillLoad(a, c)
  {
  }

  lemma {:induction false} LoadInStillness(w: World)
    requires w.script == []
    ensures StillLoad(w, LoadTx(w)) && (!LoadTx(w).d.Unloaded() || |LoadTx(w).h.txFifo| >= FIFO_SIZE)
    decreases |w.d.tx| - w.d.loaded
  {
    hide WriteNext;
    assert ReadFr(w) == w;
    if w.d.Unloaded() && |w.h.txFifo| < FIFO_SIZE {
      var next := WriteNext(w);
      NextInStillness(w);
      LoadInStillness(next);
      StillLoadChain(w, next, LoadTx(next));
      assert LoadTx(w) == LoadTx(next);
    } else {
      assert LoadTx(w) == w;
    }
  }

  lemma FinishInStillness(w: World)
    requires w.script == []
    ensures var after := FinishRx(w);
            && after.script == [] && after.wire == w.wire && after.h == w.h.(ready := after.h.ready) && SameLoss(w, after)
  {
    if w.d.InBurst() {
      var cleared := w.(d := w.d.(tx := [], loaded := 0));
      ReadyInStillness(cleared, true, Ack(cleared.d.requestGeneration));
      var raised := SetReady(cleared, true, Ack(cleared.d.requestGeneration));
      ReadyInStillness(raised, false, Release);
      hide SetReady, CloseBurst;
      CloseInStillness(if w.d.hasReady then AckRequest(cleared) else w, |w.rx.writes|);
    }
  }

  lemma ReadyInStillness(w: World, level: bool, edge: Edge)
    requires w.script == []
    ensures var after := SetReady(w, level, edge);
            && after.script == [] && after.wire == w.wire.(signals := after.wire.signals)
            && (!edge.Respond? ==> after.wire == w.wire)
            && after.h == w.h.(ready := after.h.ready) && after.rx == w.rx
  {
  }

  lemma CloseInStillness(w: World, cut: nat)
    ensures var after := CloseBurst(w, cut);
            after.script == w.script && after.wire == w.wire && after.h == w.h && SameLoss(w, after)
  {
  }

  lemma SnapshotInStillness(w: World)
    requires w.script == []
    ensures var after := Snapshot(w);
            && after.script == [] && after.wire == w.wire
            && after.h == w.h.(rxFifo := [], overrun := false, underrun := false) && SameLoss(w, after)
  {
    var checked := ServiceErrors(w);
    assert checked.script == [] && checked.wire == w.wire && checked.h == w.h.(overrun := false, underrun := false);
    assert checked.rx == w.rx;
    hide ServiceErrors, DrainRx;
    DrainInStillness(checked);
  }

  lemma RefillInStillness(w: World)
    requires w.script == []
    ensures StillLoad(w, RefillTx(w)) && (!RefillTx(w).d.Unloaded() || |RefillTx(w).h.txFifo| >= FIFO_SIZE)
  {
    LoadInStillness(w);
    hide LoadTx, InterruptMask;
  }

  /** A service run in one instant: the receive FIFO is empty, the transmit FIFO full or everything loaded. */
  lemma ServeInStillness(w: World)
    requires w.script == []
    ensures var after := Service(w);
            && after.script == [] && after.h.rxFifo == [] && !after.h.overrun && !after.h.underrun && after.h.cr == w.h.cr
            && after.wire.gaps == w.wire.gaps && after.wire.out == w.wire.out
            && (!after.d.Unloaded() || |after.h.txFifo| >= FIFO_SIZE) && SameLoss(w, after)
  {
    SnapshotInStillness(w);
    hide Snapshot, FinishRx, RefillTx;
    var seen := Snapshot(w);
    FinishInStillness(seen);
    RefillInStillness(FinishRx(seen));
    RefillInStillness(seen);
  }

  lemma SendPlaces(w: World, b: byte)
    ensures var after := Happen(w, Send(b));
            if !w.h.rxBusy then after == w.(rx := after.rx) && after.rx == w.rx.(bus := after.rx.bus)
            else if |w.h.rxFifo| < FIFO_SIZE then after.h.rxFifo == w.h.rxFifo + [b] && after.h.overrun == w.h.overrun
            else after.h.rxFifo == w.h.rxFifo && after.h.overrun
    ensures Happen(w, Send(b)).script == w.script
    ensures !w.h.rxBusy || |w.h.rxFifo| < FIFO_SIZE ==> Happen(w, Send(b)).rx.holed == w.rx.holed
  {
  }

  lemma OthersPlaceNothing(w: World, e: Event)
    requires !e.Send?
    ensures Happen(w, e).h.rxFifo == w.h.rxFifo && Happen(w, e).h.overrun == w.h.overrun && Happen(w, e).script == w.script
    ensures Happen(w, e).rx.holed == w.rx.holed
  {
    match e
    case Start =>
    case Stop =>
    case Clock =>
  }

  lemma {:induction false} PromptServiceFitsAll(w: World, beats: seq<Beat>, late: nat)
    requires Live(w) && !w.h.overrun && PromptRx(w, beats, late)
    requires late <= RX_SLACK && |w.h.rxFifo| <= RX_THRESHOLD + late
    ensures !Play(w, beats).h.overrun && Play(w, beats).rx.holed == w.rx.holed
    decreases |beats|
  {
    if beats != [] {
      var next := Pulse(w, beats[0]);
      match beats[0] {
        case OnBus(e) =>
          EventIsAlive(w, e);
          if e.Send? {
            SendPlaces(w, e.b);
          } else {
            OthersPlaceNothing(w, e);
          }
          hide Happen;
          PromptServiceFitsAll(next, beats[1..], if e.Send? && w.h.rxBusy && |w.h.rxFifo| >= RX_THRESHOLD then late + 1 else late);
        case _ =>
          ServingIs(w, beats[0]);
          ServeInStillness(Counted(w, beats[0]));
          hide Service;
          PromptServiceFitsAll(next, beats[1..], 0);
      }
    }
  }

  /**
   No byte is lost, however long the transfer and at whatever phase the timer serves, as long as no more than four bytes
   arrive between the threshold of 12 bytes and the interrupt or timer run that it calls for.
   */
  lemma PromptServiceNeverOverruns(m: Machine, beats: seq<Beat>, late: nat)
    requires Live(m.w) && !m.w.h.overrun && PromptRx(m.w, beats, late) && late <= 4 && |m.w.h.rxFifo| <= 12 + late
    ensures var after := Run(m, Actions(beats)).w; !after.h.overrun && after.rx.holed == m.w.rx.holed
  {
    PlayIsRun(m, beats);
    hide Play, Run, PromptRx;
    PromptServiceFitsAll(m.w, beats, late);
  }

  function Arrivals(bytes: seq<byte>): (beats: seq<Beat>) {
    seq(|bytes|, i requires 0 <= i < |bytes| => OnBus(Send(bytes[i])))
  }

  /** Unserved, a transfer overruns exactly when it is longer than the room left: the slack cannot be larger. */
  lemma {:induction false} UnservedTransferOverruns(w: World, bytes: seq<byte>)
    requires w.h.rxBusy && !w.h.overrun && |w.h.rxFifo| <= FIFO_SIZE
    ensures Play(w, Arrivals(bytes)).h.overrun <==> |w.h.rxFifo| + |bytes| > 16
    decreases |bytes|
  {
    if bytes != [] {
      var next := Happen(w, Send(bytes[0]));
      SendPlaces(w, bytes[0]);
      assert next.h.rxBusy;
      assert Arrivals(bytes)[1..] == Arrivals(bytes[1..]);
      hide Happen;
      if |w.h.rxFifo| < FIFO_SIZE {
        UnservedTransferOverruns(next, bytes[1..]);
      } else {
        OverrunStays(next, bytes[1..]);
      }
    }
  }

  lemma {:induction false} OverrunStays(w: World, bytes: seq<byte>)
    requires w.h.overrun
    ensures Play(w, Arrivals(bytes)).h.overrun
    decreases |bytes|
  {
    if bytes != [] {
      SendPlaces(w, bytes[0]);
      hide Happen;
      assert Arrivals(bytes)[1..] == Arrivals(bytes[1..]);
      OverrunStays(Happen(w, Send(bytes[0])), bytes[1..]);
    }
  }

  // ---- Transmitting ----

  predicate Reading(beats: seq<Beat>) {
    forall i | 0 <= i < |beats| :: !beats[i].OnBus? || beats[i].e.Clock?
  }

  /**
   The controller reads no more than the response, and at most the slack of bytes between the threshold and
   the service it calls for; `late` is how many it has read since.
   */
  predicate PromptTx(w: World, beats: seq<Beat>, late: nat)
    decreases |beats|
  {
    if beats == [] then true
    else if !beats[0].OnBus? then PromptTx(Pulse(w, beats[0]), beats[1..], 0)
    else
      var pending := w.d.Unloaded() && |w.h.txFifo| <= TX_THRESHOLD;
      && |w.wire.out| < |w.wire.stale| + |w.d.tx|
      && (pending ==> late < TX_SLACK)
      && PromptTx(Pulse(w, beats[0]), beats[1..], if pending then late + 1 else late)
  }

  /** How many bytes the controller reads. */
  function ReadsIn(beats: seq<Beat>): nat {
    if beats == [] then 0
    else (if beats[0].OnBus? && beats[0].e.Clock? then 1 else 0) + ReadsIn(beats[1..])
  }

  /** A response is being read. */
  ghost predicate Replying(w: World) {
    Inv(w, false) && Operational(w) && Quiet(w) && Live(w) && !w.h.overrun && w.d.queued
  }

  /** The same response, in the same account, and the controller has been given no more gaps. */
  ghost predicate SameReply(w: World, after: World) {
    && Replying(after) && after.d.tx == w.d.tx && after.wire.stale == w.wire.stale && after.wire.gaps == w.wire.gaps
    && after.own == w.own && after.edges == w.edges && after.purges == w.purges && SameLife(w, after)
    && after.d.requestGeneration == w.d.requestGeneration
  }

  lemma ServiceContinues(w: World)
    requires Replying(w)
    ensures SameReply(w, Service(w)) && Service(w).wire.out == w.wire.out
    ensures Service(w).d.Unloaded() ==> |Service(w).h.txFifo| >= FIFO_SIZE
  {
    NoBurstWhileQueued(w);
    hide Service, Inv, InterruptMask, Operational;
    ServiceReady(w);
    ServeInStillness(w);
    ServiceGrows(w);
    QuietService(w);
  }

  lemma CountedFrame(w: World, b: Beat)
    ensures var (after, d, e) := (Counted(w, b), w.d, Counted(w, b).d);
            && after.h == w.h && after.rx == w.rx && after.own == w.own && after.wire == w.wire
            && after.edges == w.edges && after.purges == w.purges && after.script == w.script
            && e.tx == d.tx && e.queued == d.queued && e.loaded == d.loaded && e.requestGeneration == d.requestGeneration
            && e.work == d.work && e.overflowed == d.overflowed && e.queue == d.queue && SameLife(w, after)
  {
  }

  lemma CountingContinues(w: World, b: Beat)
    requires Replying(w)
    ensures SameReply(w, Counted(w, b)) && Counted(w, b).wire == w.wire
  {
    CountingIsFree(w, b);
    CountedFrame(w, b);
    hide Inv, Operational, Counted, ClockOnly;
  }

  lemma SameReplyChain(a: World, b: World, c: World)
    requires SameReply(a, b) && SameReply(b, c)
    ensures SameReply(a, c)
  {
    hide Replying;
  }

  lemma ServeContinues(w: World, b: Beat)
    requires Replying(w) && !b.OnBus?
    ensures var after := Pulse(w, b);
            && SameReply(w, after) && after.wire.out == w.wire.out && (after.d.Unloaded() ==> |after.h.txFifo| >= FIFO_SIZE)
  {
    hide Service, Inv, Quiet, Operational, Pulse, SameReply, Counted;
    ServingIs(w, b);
    CountingContinues(w, b);
    ReplyingStill(w, Counted(w, b));
    ServiceContinues(Counted(w, b));
    SameReplyChain(w, Counted(w, b), Pulse(w, b));
  }

  lemma ReplyingStill(w: World, after: World)
    requires SameReply(w, after)
    ensures Replying(after)
  {
    hide Replying;
  }

  lemma NoBurstWhileQueued(w: World)
    requires Inv(w, false) && w.d.queued
    ensures !w.d.InBurst() && |w.own.ids| == |w.d.queue| && w.d.hasReady
  {
    hide SentInv, SignalInv, RecordsInv, TxInv, EdgeInv, CutsOk, OpenWrites;
  }

  /** While a response is queued, its bytes are accounted for. */
  lemma ReplyAccount(w: World)
    requires Inv(w, false) && w.d.queued
    ensures w.h.serializer.None? ==> w.h.txFifo == []
    ensures w.d.loaded <= |w.d.tx|
    ensures w.wire.stale + w.d.tx[..w.d.loaded] == w.wire.out + w.h.TxContents()
    ensures !w.d.Unloaded() ==> |w.wire.out| + |w.h.TxContents()| == |w.wire.stale| + |w.d.tx|
  {
    hide RxInv, SentInv, SignalInv, RecordsInv, OwnInv, EdgeInv;
  }

  lemma ClockReads(w: World)
    requires w.h.serializer.Some? && w.h.cr == CR_I2C_TARGET
    ensures var after := Happen(w, Clock);
            && after == w.(h := after.h, wire := after.wire)
            && after.h == w.h.(serializer := after.h.serializer, txFifo := after.h.txFifo)
            && after.wire == w.wire.(out := w.wire.out + [w.h.serializer.value])
            && |after.h.TxContents()| == |w.h.TxContents()| - 1
  {
  }

  lemma ClockContinues(w: World)
    requires Replying(w) && w.h.TxContents() != []
    ensures var after := Happen(w, Clock);
            && SameReply(w, after) && after.d == w.d
            && |after.h.TxContents()| == |w.h.TxContents()| - 1 && |after.wire.out| == |w.wire.out| + 1
  {
    hide Inv, InterruptMask, Happen;
    ReplyAccount(w);
    HappenKeeps(w, Clock, false);
    ClockReads(w);
  }

  lemma {:induction false} PromptRefillFeedsAll(w: World, beats: seq<Beat>, late: nat)
    requires Replying(w) && Reading(beats) && PromptTx(w, beats, late) && late <= TX_SLACK
    requires w.d.Unloaded() ==> |w.h.TxContents()| + late >= TX_SLACK
    ensures var after := Play(w, beats);
            && SameReply(w, after) && |after.wire.out| == |w.wire.out| + ReadsIn(beats)
            && (|after.wire.out| == |w.wire.stale| + |w.d.tx| ==>
                  after.wire.out == w.wire.stale + w.d.tx && after.h.TxContents() == [] && !after.d.Unloaded())
    decreases |beats|
  {
    hide Inv, Quiet, Happen, Operational, Irq, Timer;
    if beats == [] {
      WholeReply(w);
    } else {
      var next := Pulse(w, beats[0]);
      ReplyAccount(w);
      if !beats[0].OnBus? {
        ServeContinues(w, beats[0]);
        ReplyAccount(next);
        PromptRefillFeedsAll(next, beats[1..], 0);
      } else {
        ClockContinues(w);
        var pending := w.d.Unloaded() && |w.h.txFifo| <= TX_THRESHOLD;
        PromptRefillFeedsAll(next, beats[1..], if pending then late + 1 else late);
      }
    }
  }

  /**
   No underrun, however long the response and at whatever phase the timer serves, as long as an interrupt or a timer run
   comes within 15 byte clocks of the transmit threshold; and a response read to its length has been read exactly.
   */
  lemma PromptRefillNeverUnderruns(m: Machine, beats: seq<Beat>, late: nat)
    requires Replying(m.w) && Reading(beats) && PromptTx(m.w, beats, late) && late <= 15
    requires m.w.d.Unloaded() ==> |m.w.h.TxContents()| + late >= 15
    ensures var (before, after) := (m.w.wire, Run(m, Actions(beats)).w.wire);
            && after.gaps == before.gaps && after.stale == before.stale && |after.out| == |before.out| + ReadsIn(beats)
            && (|after.out| == |before.stale| + |m.w.d.tx| ==> after.out == before.stale + m.w.d.tx)
  {
    PlayIsRun(m, beats);
    hide Play, Run, PromptTx, Inv, Quiet, Operational;
    PromptRefillFeedsAll(m.w, beats, late);
  }

  lemma WholeReply(w: World)
    requires Replying(w)
    ensures |w.wire.out| == |w.wire.stale| + |w.d.tx| ==>
              w.wire.out == w.wire.stale + w.d.tx && w.h.TxContents() == [] && !w.d.Unloaded()
  {
    hide Inv, Quiet, Operational;
    ReplyAccount(w);
    ReadWhole(w.wire.out, w.h.TxContents(), w.wire.stale, w.d.tx, w.d.loaded);
  }

  /** As many bytes read as there were before and in the response, from what was before and what was loaded. */
  lemma ReadWhole(out: seq<byte>, rest: seq<byte>, before: seq<byte>, data: seq<byte>, loaded: nat)
    requires loaded <= |data| && out + rest == before + data[..loaded]
    ensures out <= before + data
    ensures |out| == |before| + |data| ==> out == before + data && rest == [] && loaded == |data|
  {
    assert |out + rest| == |before| + loaded;
    Reassociate(before, data[..loaded], data[loaded..]);
    assert data == data[..loaded] + data[loaded..];
    Reassociate(out, rest, data[loaded..]);
  }

  function Clocks(count: nat): seq<Beat> {
    seq(count, i => OnBus(Clock))
  }

  /** Unserved, the controller meets a gap exactly when it reads more than what is there. */
  lemma {:induction false} UnservedReadUnderruns(w: World, count: nat)
    requires w.h.cr == CR_I2C_TARGET && (w.h.serializer.None? ==> w.h.txFifo == [])
    ensures Play(w, Clocks(count)).wire.gaps ==
            w.wire.gaps + if count > |w.h.TxContents()| then count - |w.h.TxContents()| else 0
    decreases count
  {
    if count > 0 {
      ClockTakesOne(w);
      assert Clocks(count)[1..] == Clocks(count - 1);
      hide Happen;
      UnservedReadUnderruns(Happen(w, Clock), count - 1);
    }
  }

  lemma ClockTakesOne(w: World)
    requires w.h.cr == CR_I2C_TARGET && (w.h.serializer.None? ==> w.h.txFifo == [])
    ensures var (after, left) := (Happen(w, Clock), |w.h.TxContents()|);
            && after.h.cr == w.h.cr && (after.h.serializer.None? ==> after.h.txFifo == [])
            && (if left == 0 then after.wire.gaps == w.wire.gaps + 1 && |after.h.TxContents()| == 0
                else after.wire.gaps == w.wire.gaps && |after.h.TxContents()| == left - 1)
  {
  }
}
