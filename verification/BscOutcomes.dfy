/** What a caller is told, and when. */
module BscOutcomes {
  // The results of read, write, the ioctls and open, and what each result says of the state it leaves.

  import opened Bytes
  import opened BscWorld
  import opened BscDriver
  import opened BscInvariant
  import opened BscService
  import opened BscActions
  import opened BscResponse
  import opened BscRecovery
  import opened BscPurge
  import opened BscMachine
  import opened BscBooks
  import opened BscLatency
  import opened BscExchange
  import opened BscInterrupts

  // ---- A newer request supersedes ----

  /** A byte that nobody has drained begins a burst, and generations never go back. */
  function Advance(w: World): nat {
    if w.rx.burst == [] && w.h.rxFifo != [] then 1 else 0
  }

  lemma {:induction false} DrainAdvances(w: World)
    requires Inv(w, false)
    ensures DrainRx(w).d.requestGeneration >= w.d.requestGeneration + Advance(w)
    decreases |w.script|, |w.h.rxFifo|
  {
    TickKeeps(w, false);
    TickIsBusOnly(w);
    hide Tick, DrainByte, Inv;
    var seen := ReadFr(w);
    if seen.h.rxFifo != [] {
      DrainByteShrinks(seen);
      DrainByteKeeps(seen);
      DrainByteAdvances(seen);
      DrainAdvances(DrainByte(seen));
    }
  }

  lemma DrainByteAdvances(w: World)
    requires Inv(w, false) && w.h.rxFifo != []
    ensures DrainByte(w).d.requestGeneration == w.d.requestGeneration + Advance(w)
  {
    TickKeeps(w, false);
    TickIsBusOnly(w);
    BurstIsWork(Tick(w));
    DrainByteIsDrained(w);
    hide Tick, DrainByte, Drained, Inv;
    DrainedFrame(Tick(w), Tick(w).h.rxFifo[0]);
  }

  lemma FinishSameGeneration(w: World)
    requires |w.own.ids| == |w.d.queue|
    ensures FinishRx(w).d.requestGeneration == w.d.requestGeneration
  {
    if w.d.InBurst() {
      var cleared := w.(d := w.d.(tx := [], loaded := 0));
      var raised := SetReady(cleared, true, Ack(cleared.d.requestGeneration));
      SetReadyIsSteady(cleared, true, Ack(cleared.d.requestGeneration));
      SetReadyIsSteady(raised, false, Release);
      hide SetReady, CloseBurst;
      CloseFrame(if w.d.hasReady then AckRequest(cleared) else w, |w.rx.writes|);
    }
  }

  lemma ErrorsSeeInput(w: World)
    ensures var after := ServiceErrors(w);
            && after.d.requestGeneration == w.d.requestGeneration && after.rx.burst == w.rx.burst
            && w.h.rxFifo <= after.h.rxFifo
  {
    TickIsBusOnly(w);
    TickIsBusOnly(CountErrors(Tick(w)));
    hide Tick;
  }

  lemma SnapshotAdvances(w: World)
    requires Inv(w, false)
    ensures Snapshot(w).d.requestGeneration >= w.d.requestGeneration + Advance(w)
  {
    hide Inv, ServiceErrors, DrainRx, Tick;
    ErrorsKeep(w);
    ErrorsSeeInput(w);
    DrainAdvances(ServiceErrors(w));
    TickIsBusOnly(DrainRx(ServiceErrors(w)));
  }

  lemma ServiceAdvances(w: World)
    requires Inv(w, false)
    ensures Service(w).d.requestGeneration >= w.d.requestGeneration + Advance(w)
  {
    hide Inv, Snapshot, FinishRx, RefillTx, Advance;
    SnapshotAdvances(w);
    SnapshotKeeps(w);
    var seen := Snapshot(w);
    BurstIsWork(seen);
    FinishSameGeneration(seen);
    RefillFrame(seen);
    RefillFrame(FinishRx(seen));
  }

  /** Nothing has been received since the worker read the latest request. */
  ghost predicate UpToDate(w: World) {
    w.d.workerGeneration == w.d.requestGeneration && w.rx.burst == [] && w.h.rxFifo == []
  }

  lemma WorkerIsBehind(w: World)
    requires Inv(w, false) && w.d.hasReady && w.rx.burst != []
    ensures w.d.workerGeneration < w.d.requestGeneration
  {
    hide RxInv, SentInv, SignalInv, RecordsInv, TxInv, EdgeInv;
  }

  lemma WorkerNeverAhead(w: World)
    requires Inv(w, false)
    ensures w.d.workerGeneration <= w.d.requestGeneration
  {
    hide RxInv, SentInv, SignalInv, RecordsInv, TxInv, EdgeInv;
  }

  /** Whatever had been received when a service run began counts against the worker after it. */
  lemma ServiceSupersedes(w: World)
    requires Inv(w, false) && w.d.hasReady
    ensures Service(w).d.workerGeneration == Service(w).d.requestGeneration ==> UpToDate(w)
  {
    ServiceAdvances(w);
    ServiceKeepsBooks(w);
    hide Service, Inv;
    WorkerNeverAhead(w);
    if w.rx.burst != [] {
      WorkerIsBehind(w);
    }
  }

  /** Without the bus moving, nothing else does. */
  lemma StillUpToDate(w: World)
    requires Inv(w, false) && w.script == [] && UpToDate(w)
    ensures var after := Service(w);
            && after.d.workerGeneration == after.d.requestGeneration && after.d.work == [] && after.script == []
            && after.h.rxBusy == w.h.rxBusy
  {
    ServiceHandles(w);
    ServiceKeepsBooks(w);
    StillBusy(w);
    hide Service, Inv, Noted;
    assert w.rx.burst + w.h.rxFifo == [];
  }

  lemma StillBusy(w: World)
    requires w.script == []
    ensures Service(w).script == [] && Service(w).h.rxBusy == w.h.rxBusy
  {
    SnapshotInStillness(w);
    hide Snapshot, FinishRx, RefillTx;
    var seen := Snapshot(w);
    FinishInStillness(seen);
    RefillInStillness(FinishRx(seen));
    RefillInStillness(seen);
  }

  // ---- Writing ----

  /** The file is open on a device that has READY and a worker with a turn. */
  predicate HasTurn(d: Driver) {
    d.active && !d.dead && d.hasReady && d.workerPending
  }

  ghost predicate Published(w: World, after: World, data: seq<byte>) {
    && after.d.queued && after.d.tx == data && after.h.ready && |after.own.published| == |w.own.published| + 1
    && after.own.discards == w.own.discards
    && after.d.stats.txTransactions == w.d.stats.txTransactions + 1 && after.d.stats.txDiscarded == w.d.stats.txDiscarded
    && after.d.stats.txBytes == w.d.stats.txBytes + |data|
  }

  ghost predicate Discarded(w: World, after: World) {
    && after.own.published == w.own.published && after.own.discards == w.own.discards + 1
    && after.d.stats.txTransactions == w.d.stats.txTransactions && after.d.stats.txDiscarded == w.d.stats.txDiscarded + 1
    && after.d.stats.txBytes == w.d.stats.txBytes
  }

  /** The worker owns the latest request when it comes to the decision, and the controller is not in a write. */
  predicate Decided(w: World) {
    var decision := Decision(w);
    w.d.workerGeneration == decision.d.requestGeneration && decision.d.work == [] && !decision.h.rxBusy
  }

  lemma Verdict(w: World, data: seq<byte>)
    requires w.d.hasReady && w.d.workerPending
    ensures var (after, result) := PublishResponse(w, data);
            && result == Done(|data|) && !after.d.workerPending
            && if Decided(w) then Published(w, after, data) else Discarded(w, after)
  {
    hide PublishResponse, Balance, Decision;
    PublicationDecided(w, data);
  }

  lemma DecidedIs(w: World)
    requires Inv(w, false) && w.d.hasReady
    ensures Decided(w) ==> UpToDate(w)
    ensures w.script == [] ==> (Decided(w) <==> UpToDate(w) && !w.h.rxBusy)
  {
    hide Service, CheckIdle, Inv;
    ServiceSupersedes(w);
    ServiceKeepsBooks(w);
    var turn := ConsumeTurn(Service(w));
    CheckIdleFrame(turn);
    if w.script == [] {
      StillBusy(w);
      StillCheck(turn);
      if UpToDate(w) {
        StillUpToDate(w);
      }
    }
  }

  /**
   A worker that owns the latest request and finds everything received published its response; on a silent bus that is
   also enough if the controller is not in a write. Anything received before the call supersedes the response.
   */
  lemma PublishOutcome(w: World, data: seq<byte>)
    requires Inv(w, false) && w.d.hasReady && w.d.workerPending
    ensures var (after, result) := PublishResponse(w, data);
            && result == Done(|data|) && !after.d.workerPending
            && (Published(w, after, data) || Discarded(w, after))
            && (Published(w, after, data) ==> UpToDate(w))
            && (w.script == [] ==> (Published(w, after, data) <==> UpToDate(w) && !w.h.rxBusy))
  {
    hide PublishResponse, Inv, Decided, UpToDate;
    Verdict(w, data);
    DecidedIs(w);
  }

  /** The result of a write says whether the worker has spent its turn, and every error leaves it. */
  lemma WriteOutcome(w: World, data: seq<byte>)
    requires WorldSafe(w)
    ensures var ((after, result), fits, d) := (QueueResponse(w, data), 0 < |data| <= 8192, w.d);
            && (result == EMSGSIZE <==> !fits)
            && (result == ENODEV <==> fits && (d.dead || !d.active))
            && (result == EOPNOTSUPP <==> fits && d.active && !d.dead && !d.hasReady)
            && (result == EPROTO <==> fits && d.active && !d.dead && d.hasReady && !d.workerPending)
            && (result == Done(|data|) <==> fits && HasTurn(d))
            && (result == EMSGSIZE || result == ENODEV ==> after == w)
            && (!result.Done? ==> after.own.published == w.own.published && after.own.discards == w.own.discards)
            && (result.Done? ==>
                  && (Published(w, after, data) || Discarded(w, after)) && !after.d.workerPending
                  && (Published(w, after, data) ==> UpToDate(w))
                  && (w.script == [] ==> (Published(w, after, data) <==> UpToDate(w) && !w.h.rxBusy)))
  {
    hide PublishResponse, Inv, Operational, Published, Discarded, UpToDate, Decision, Balance;
    PublicationDecided(w, data);
    if w.d.hasReady && w.d.workerPending {
      PublishOutcome(w, data);
    }
  }

  // ---- Recovering ----

  /** The result of the recovery ioctl: a purge, and only then, is Done. */
  lemma RecoverOutcome(w: World)
    requires WorldSafe(w)
    ensures var ((after, result), d) := (RecoverIoctl(w), w.d);
            && (result == ENODEV <==> d.dead || !d.active)
            && (result == EPROTO <==> d.active && !d.dead && !(d.hasReady && d.workerPending))
            && (result == EAGAIN || result == Done(0) <==> HasTurn(d))
            && (result == ENODEV ==> after == w)
            && (result == Done(0) ==> UpToDate(w))
            && (w.script == [] ==> (result == Done(0) <==> HasTurn(d) && UpToDate(w) && !w.h.rxBusy))
  {
    hide RecoverResponse, Inv, Operational, UpToDate;
    if w.d.active && !w.d.dead {
      RecoveryIs(w);
    }
  }

  lemma RecoveryIs(w: World)
    requires Inv(w, false) && Operational(w)
    ensures var (result, turn) := (RecoverResponse(w).1, w.d.hasReady && w.d.workerPending);
            && (result == EPROTO <==> !turn) && (result == EAGAIN || result == Done(0) <==> turn)
            && result != ENODEV
            && (result == Done(0) ==> UpToDate(w))
            && (w.script == [] ==> (result == Done(0) <==> turn && UpToDate(w) && !w.h.rxBusy))
  {
    hide Inv, Operational, RecoverResponse, Service, CheckIdle, Restarted, WireGrows;
    RecoveryOutcome(w);
    ServiceKeepsBooks(w);
    if w.d.hasReady {
      ServiceSupersedes(w);
    }
    if w.script == [] {
      StillBusy(w);
      StillCheck(Service(w));
      if UpToDate(w) {
        StillUpToDate(w);
      }
    }
  }

  // ---- Reading ----

  /** A read returns the oldest record whole, once, and gives its worker the turn; or it changes nothing. */
  lemma ReadOutcome(w: World, capacity: nat)
    ensures var (after, result) := ReadMessage(w, capacity);
            && (result == Retry <==> w.d.queue == [])
            && (result == EMSGSIZE <==> w.d.queue != [] && |w.d.queue[0]| > capacity)
            && (if result.Done? then
                  && w.own.delivered < after.own.delivered && |after.own.delivered| == |w.own.delivered| + 1
                  && var record := after.own.delivered[|w.own.delivered|].data;
                     && w.d.queue == [record] + after.d.queue && result == Done(|record|)
                     && after.d.workerPending && after.d.workerGeneration == w.d.requestGeneration
                     && after.d == w.d.(queue := after.d.queue, workerGeneration := w.d.requestGeneration, workerPending := true)
                else
                  after == w && (result == Retry || result == EMSGSIZE))
  {
  }

  // ---- Opening ----

  /** A device as an open leaves it: in target mode at its address, with READY released and all traffic forgotten. */
  ghost predicate Fresh(w: World, after: World) {
    && after.d == w.d.(work := [], overflowed := false, queue := [], tx := [], loaded := 0, queued := false,
                       requestGeneration := 0, workerGeneration := 0, workerPending := false, active := true, isOpen := true)
    && after.h.cr == 0x305 && after.h.slv == w.d.address && after.h.imsc == 0xd && !after.h.ready
    && after.h.TxContents() == [] && after.own.delivered == [] && after.own.published == []
  }

  /** One open at a time; an open of a live device whose pins can be selected starts it anew, and keeps its counters. */
  lemma OpenOutcome(w: World, pinsSelected: bool)
    requires WorldSafe(w) && !w.d.active
    ensures var (after, result) := OpenFile(w, pinsSelected);
            && (result == EBUSY <==> w.d.isOpen)
            && (result == ENODEV <==> !w.d.isOpen && w.d.dead)
            && (result == EPINS <==> !w.d.isOpen && !w.d.dead && !pinsSelected)
            && (if result == Done(0) then Fresh(w, after) else after == w && !result.Done?)
  {
    hide Inv, Activate, Fresh;
    if !w.d.isOpen && !w.d.dead && pinsSelected {
      ClaimIsFree(w);
      ActivationIsFresh(Claim(w));
      FreshClaim(w, Activate(Claim(w)));
    }
  }

  lemma FreshClaim(w: World, after: World)
    requires Fresh(Claim(w), after)
    ensures Fresh(w, after)
  {
  }

  lemma ActivationIsFresh(w: World)
    requires Inv(w, false) && w.h.cr != CR_I2C_TARGET && w.d.isOpen
    ensures Fresh(w, Activate(w))
  {
    hide Inv, Configure, SetReady, ResetIo;
    ActivateIsSafe(w);
    ResetKeeps(w);
    ResetIsRelease(w);
    SetReadyIsSteady(Cleared(w), false, Release);
    var reset := ResetIo(w);
    var activated := reset.(d := reset.d.(active := true));
    KeptInOrder(reset);
    ConfigureFrame(activated);
    ConfigureEmpties(activated);
  }

  // ---- Counting ----

  /** Nothing but an interrupt or a timer run that is served is counted as one; what is ignored changes nothing. */
  lemma ServingIsCounted(m: Machine, a: Action)
    requires !a.Clear?
    ensures var (before, after) := (m.w.d.stats, Act(m, a).w.d.stats);
            && after.interrupts == before.interrupts + (if a.Interrupt? && Serves(m, a) then 1 else 0)
            && after.timerRuns == before.timerRuns + (if a.TimerRun? && Serves(m, a) then 1 else 0)
            && ((a.Interrupt? || a.TimerRun?) && !Serves(m, a) ==> Act(m, a).w == Rest(m.w))
  {
    match a
    case Interrupt(pending, script) =>
      IrqIsCounted(Under(m.w, script), pending);
      hide Irq;
    case TimerRun(script) =>
      TimerIsCounted(Under(m.w, script));
      hide Timer;
    case Write(data, script) =>
      WriteTallies(Under(m.w, script), data);
      hide QueueResponse;
    case RecoverRequest(script) =>
      RecoverTallies(Under(m.w, script));
      hide RecoverIoctl;
    case _ =>
      LifecycleCountsNothing(m, a);
      hide Act;
  }

  lemma IrqIsCounted(w: World, pending: bool)
    ensures var (after, served) := (Irq(w, pending), pending && w.d.active);
            && after.d.stats.interrupts == w.d.stats.interrupts + (if served then 1 else 0)
            && after.d.stats.timerRuns == w.d.stats.timerRuns && (!served ==> after == w)
  {
    hide Service, Tick;
    ServiceKeepsBooks(CountInterrupt(w));
    TickKeepsBooks(Service(CountInterrupt(w)));
  }

  lemma TimerIsCounted(w: World)
    ensures var (after, served) := (Timer(w), w.d.active && !w.d.dead);
            && after.d.stats.timerRuns == w.d.stats.timerRuns + (if served then 1 else 0)
            && after.d.stats.interrupts == w.d.stats.interrupts && (!served ==> after == w)
  {
    hide Service;
    ServiceKeepsBooks(CountTimer(w));
  }

  lemma WriteTallies(w: World, data: seq<byte>)
    ensures SameTallies(w, QueueResponse(w, data).0)
  {
    hide PublishResponse, Decision, Balance;
    PublicationDecided(w, data);
  }

  lemma RecoverTallies(w: World)
    ensures SameTallies(w, RecoverIoctl(w).0)
  {
    hide Service, CheckIdle, Recover;
    ServiceKeepsBooks(w);
    CheckIdleFrame(Service(w));
    RecoverFrame(CheckIdle(Service(w)));
  }

  ghost predicate SameCounters(w: World, after: World) {
    after.d.stats == w.d.stats && after.d.recoveries == w.d.recoveries
  }

  /** The counters are those of the device, not of one open. */
  lemma LifecycleCountsNothing(m: Machine, a: Action)
    requires !(a.Interrupt? || a.TimerRun? || a.Write? || a.RecoverRequest? || a.Clear?)
    ensures SameCounters(m.w, Act(m, a).w)
  {
    match a
    case Bus(events) =>
      HappenAllIsBusOnly(m.w, events);
      hide HappenAll;
    case Read(capacity) => ReadCountsNothing(m.w, capacity); hide ReadMessage;
    case OpenBegin =>
    case ReleaseEnd =>
    case RemoveBegin =>
    case _ => SwitchingCountsNothing(m, a);
  }

  lemma ReadCountsNothing(w: World, capacity: nat)
    ensures SameCounters(w, ReadMessage(w, capacity).0)
  {
  }

  lemma SwitchingCountsNothing(m: Machine, a: Action)
    requires a.OpenFinish? || a.ReleaseBegin? || a.RemoveEnd?
    ensures SameCounters(m.w, Act(m, a).w)
  {
    hide Activate, Deactivate, SameCounters;
    var w := Under(m.w, a.script);
    CountersAre(m.w, w);
    CountersAre(m.w, m.w);
    if a.OpenFinish? {
      ActivationCountsNothing(w);
      CountersAre(m.w, m.w.(d := m.w.d.(isOpen := false)));
      SameAfter(m.w, w, Activate(w));
    } else {
      DeactivationCountsNothing(w);
      SameAfter(m.w, w, Deactivate(w));
    }
  }

  lemma CountersAre(w: World, after: World)
    ensures SameCounters(w, after) <==> after.d.stats == w.d.stats && after.d.recoveries == w.d.recoveries
  {
  }

  lemma SameAfter(w: World, middle: World, after: World)
    requires SameCounters(w, middle) && SameCounters(middle, after)
    ensures SameCounters(w, Rest(after))
  {
  }

  lemma ResetCountsNothing(w: World)
    ensures SameCounters(w, ResetIo(w))
  {
    ResetIsRelease(w);
    SetReadyIsSteady(Cleared(w), false, Release);
    hide ResetIo, SetReady;
  }

  lemma ActivationCountsNothing(w: World)
    ensures SameCounters(w, Activate(w))
  {
    hide ResetIo, Configure;
    ResetCountsNothing(w);
    ConfigureFrame(ResetIo(w).(d := ResetIo(w).d.(active := true)));
  }

  lemma DeactivationCountsNothing(w: World)
    ensures SameCounters(w, Deactivate(w))
  {
    hide WriteImsc, WriteCr, WriteRsr, WriteSlv, ResetIo;
    var inactive := w.(d := w.d.(active := false));
    RegisterFrames(inactive, 0);
    var masked := WriteImsc(inactive, 0);
    RegisterFrames(masked, 0);
    var off := WriteCr(masked, 0);
    RegisterFrames(off, 0);
    RegisterFrames(WriteRsr(off), 0);
    ResetCountsNothing(WriteSlv(WriteRsr(off), 0));
  }

  /** CLEAR_STATS sets every counter to zero, and does nothing else. */
  lemma ClearOutcome(m: Machine)
    ensures Act(m, Clear).w ==
            if m.phase.Opened? then m.w.(d := m.w.d.(stats := Stats(0, 0, 0, 0, 0, 0, 0, 0, 0, 0), recoveries := 0)) else m.w
  {
  }
}
