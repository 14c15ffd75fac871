/** Overruns: counted or not. */
module BscOverruns {
  import opened Bytes
  import opened BscWorld
  import opened BscDriver
  import opened BscInvariant
  import opened BscService
  import opened BscActions
  import opened BscMachine
  import opened BscBooks
  import opened BscPromises
  import BscPurge

  /** The overrun flag is set: a loss that the error register still shows. */
  function Pending(w: World): nat {
    if w.h.overrun then 1 else 0
  }

  /** How often the flag rose and neither shows nor was counted; overflows of the work buffer are counted with it. */
  function Unreported(w: World): int {
    w.rx.bus.raised - Pending(w) - (w.d.stats.rxOverruns - w.own.overflowed)
  }

  function First(rx: RxLog): nat {
    if rx.cuts == [] then 0 else rx.cuts[0]
  }

  /**
   On the way from `w` to `after` the flag was cleared `missed` times without having been counted. Nothing was lost
   if it did not rise, and no counter went back.
   */
  ghost predicate Reports(w: World, after: World, missed: nat) {
    && Unreported(after) == Unreported(w) + missed
    && after.rx.bus.raised >= w.rx.bus.raised
    && (after.rx.bus.raised == w.rx.bus.raised && !w.h.overrun ==> after.rx.holed == w.rx.holed && !after.h.overrun)
    && after.d.stats.rxOverruns >= w.d.stats.rxOverruns && after.d.stats.txUnderruns >= w.d.stats.txUnderruns
    && after.d.recoveries >= w.d.recoveries
    && (First(w.rx) <= |w.rx.writes| ==> First(w.rx) <= First(after.rx) <= |after.rx.writes|)
  }

  lemma ReportsChain(a: World, b: World, c: World, first: nat, second: nat)
    requires Reports(a, b, first) && Reports(b, c, second)
    ensures Reports(a, c, first + second)
  {
  }

  lemma NothingReported(w: World)
    ensures Reports(w, w, 0)
  {
  }

  /** What the account of overruns depends on is as it was. */
  ghost predicate Untouched(w: World, after: World) {
    && after.h.overrun == w.h.overrun && after.rx == w.rx.(burst := after.rx.burst)
    && after.own.overflowed == w.own.overflowed && after.d.recoveries == w.d.recoveries
    && after.d.stats.rxOverruns == w.d.stats.rxOverruns && after.d.stats.txUnderruns == w.d.stats.txUnderruns
  }

  lemma UntouchedReports(w: World, middle: World, after: World)
    requires Reports(w, middle, 0) && Untouched(middle, after)
    ensures Reports(w, after, 0)
  {
  }

  // ---- The bus and the registers ----

  lemma HappenReports(w: World, e: Event)
    ensures Reports(w, Happen(w, e), 0)
  {
    match e
    case Start =>
    case Send(b) =>
    case Stop =>
    case Clock =>
  }

  lemma {:induction false} HappenAllReports(w: World, events: seq<Event>)
    ensures Reports(w, HappenAll(w, events), 0)
    decreases |events|
  {
    hide Happen, Reports;
    if events == [] {
      NothingReported(w);
    } else {
      var next := Happen(w, events[0]);
      HappenReports(w, events[0]);
      HappenAllReports(next, events[1..]);
      ReportsChain(w, next, HappenAll(w, events), 0, 0);
    }
  }

  lemma TickReports(w: World)
    ensures Reports(w, Tick(w), 0)
  {
    if w.script == [] {
      NothingReported(w);
    } else {
      hide HappenAll;
      HappenAllReports(w.(script := w.script[1..]), w.script[0]);
    }
  }

  lemma RegistersReport(w: World, value: nat)
    ensures Reports(w, WriteImsc(w, value), 0) && Reports(w, WriteSlv(w, value), 0)
  {
    hide Tick, Reports;
    TickReports(w);
    UntouchedReports(w, Tick(w), WriteImsc(w, value));
    UntouchedReports(w, Tick(w), WriteSlv(w, value));
  }

  lemma SetReadyReports(w: World, level: bool, edge: Edge)
    ensures Reports(w, SetReady(w, level, edge), 0)
  {
    hide Tick, Reports;
    NothingReported(w);
    TickReports(w);
    if w.d.hasReady {
      UntouchedReports(w, Tick(w), SetReady(w, level, edge));
    }
  }

  lemma CutShortReports(w: World)
    ensures Reports(w, CutShort(w), 0)
  {
  }

  lemma SetCrReports(w: World, value: nat)
    ensures Reports(w, SetCr(w, value), 0)
  {
    hide CutShort, Reports;
    NothingReported(w);
    CutShortReports(w);
    var cut := if w.h.rxBusy && value != CR_I2C_TARGET then CutShort(w) else w;
    UntouchedReports(w, cut, SetMode(cut, value));
  }

  lemma WriteCrReports(w: World, value: nat)
    ensures Reports(w, WriteCr(w, value), 0)
  {
    hide Tick, SetCr, Reports;
    TickReports(w);
    SetCrReports(Tick(w), value);
    ReportsChain(w, Tick(w), WriteCr(w, value), 0, 0);
  }

  /** The flag is set when the error register is cleared. */
  function ClearsPending(w: World): nat {
    Pending(Tick(w))
  }

  /** Clearing the register outside the service routine counts nothing: what is pending is missed. */
  lemma WriteRsrReports(w: World)
    ensures Reports(w, WriteRsr(w), ClearsPending(w))
  {
    hide Tick;
    TickReports(w);
  }

  // ---- Service ----

  /** Between the reading and the clearing of the register a byte is lost, and only an underrun was read. */
  function Masked(w: World): nat {
    var read := ReadRsr(w);
    if !read.h.overrun && read.h.underrun then ClearsPending(CountErrors(read)) else 0
  }

  lemma ErrorsReport(w: World)
    ensures Reports(w, ServiceErrors(w), Masked(w))
    ensures ServiceErrors(w).d.stats.txUnderruns >= w.d.stats.txUnderruns + Masked(w)
    ensures ServiceErrors(w).d.stats.rxOverruns >= w.d.stats.rxOverruns + Pending(w)
  {
    hide Tick;
    var read := Tick(w);
    TickIsBusOnly(w);
    TickReports(w);
    var counted := CountErrors(read);
    TickIsBusOnly(counted);
    TickReports(counted);
  }

  lemma DrainByteReports(w: World)
    ensures Reports(w, DrainByte(w), 0)
  {
    hide Tick, Reports;
    TickReports(w);
    var popped := ReadDr(w).0;
    UntouchedReports(w, Tick(w), popped);
    UntouchedReports(w, popped, DrainByte(w));
  }

  lemma {:induction false} DrainReports(w: World)
    ensures Reports(w, DrainRx(w), 0)
    decreases |w.script|, |w.h.rxFifo|
  {
    hide Tick, DrainByte, BusOnly, Reports;
    TickReports(w);
    TickIsBusOnly(w);
    var seen := ReadFr(w);
    if seen.h.rxFifo != [] {
      DrainByteShrinks(seen);
      DrainByteReports(seen);
      DrainReports(DrainByte(seen));
      ReportsChain(w, seen, DrainByte(seen), 0, 0);
      ReportsChain(w, DrainByte(seen), DrainRx(w), 0, 0);
    }
  }

  lemma CloseReports(w: World, cut: nat)
    requires cut <= |w.rx.writes|
    ensures Reports(w, CloseBurst(w, cut), 0)
  {
  }

  lemma FinishReports(w: World)
    ensures Reports(w, FinishRx(w), 0)
  {
    hide SetReady, CloseBurst, Reports;
    NothingReported(w);
    if w.d.InBurst() {
      var cut := |w.rx.writes|;
      var cleared := w.(d := w.d.(tx := [], loaded := 0));
      UntouchedReports(w, w, cleared);
      AckReports(cleared);
      ReportsChain(w, cleared, AckRequest(cleared), 0, 0);
      CloseReports(w, cut);
      CloseReports(AckRequest(cleared), cut);
      ReportsChain(w, AckRequest(cleared), CloseBurst(AckRequest(cleared), cut), 0, 0);
    }
  }

  lemma AckReports(w: World)
    ensures Reports(w, AckRequest(w), 0) && |AckRequest(w).rx.writes| >= |w.rx.writes|
  {
    hide SetReady, Reports;
    var raised := SetReady(w, true, Ack(w.d.requestGeneration));
    SetReadyReports(w, true, Ack(w.d.requestGeneration));
    SetReadyReports(raised, false, Release);
    ReportsChain(w, raised, AckRequest(w), 0, 0);
    WritesGrow(w, true, Ack(w.d.requestGeneration));
    WritesGrow(raised, false, Release);
  }

  lemma WritesGrow(w: World, level: bool, edge: Edge)
    ensures |SetReady(w, level, edge).rx.writes| >= |w.rx.writes|
  {
    hide Tick;
    TickIsBusOnly(w);
  }

  lemma {:induction false} LoadReports(w: World)
    ensures Reports(w, LoadTx(w), 0)
    decreases |w.d.tx| - w.d.loaded
  {
    hide Tick, WriteNext, Reports;
    NothingReported(w);
    if w.d.Unloaded() {
      TickIsBusOnly(w);
      TickReports(w);
      var seen := ReadFr(w);
      if !FlagsOf(seen.h).txFull {
        NextReports(seen);
        WriteNextAdvances(seen);
        LoadReports(WriteNext(seen));
        ReportsChain(w, seen, WriteNext(seen), 0, 0);
        ReportsChain(w, WriteNext(seen), LoadTx(w), 0, 0);
      }
    }
  }

  lemma NextReports(w: World)
    requires w.d.loaded < |w.d.tx|
    ensures Reports(w, WriteNext(w), 0)
  {
    hide Tick, Reports;
    TickReports(w);
    TickIsBusOnly(w);
    UntouchedReports(w, Tick(w), WriteNext(w));
  }

  lemma RefillReports(w: World)
    ensures Reports(w, RefillTx(w), 0)
  {
    hide LoadTx, WriteImsc, Reports;
    LoadReports(w);
    RegistersReport(LoadTx(w), InterruptMask(LoadTx(w).d));
    ReportsChain(w, LoadTx(w), RefillTx(w), 0, 0);
  }

  /** A service run misses an overrun exactly if one is masked, which an underrun shows; one that is set is counted. */
  lemma ServiceReports(w: World)
    ensures Reports(w, Service(w), Masked(w))
    ensures Service(w).d.stats.txUnderruns >= w.d.stats.txUnderruns + Masked(w)
    ensures Service(w).d.stats.rxOverruns >= w.d.stats.rxOverruns + Pending(w)
  {
    hide ServiceErrors, DrainRx, Tick, FinishRx, RefillTx, Unreported, First;
    var checked := ServiceErrors(w);
    var drained := DrainRx(checked);
    var seen := Snapshot(w);
    var finished := if !FlagsOf(seen.h).rxBusy && FlagsOf(seen.h).rxEmpty then FinishRx(seen) else seen;
    ErrorsReport(w);
    DrainReports(checked);
    TickReports(drained);
    FinishReports(seen);
    NothingReported(seen);
    RefillReports(finished);
    ReportsChain(checked, drained, seen, 0, 0);
    ReportsChain(checked, seen, finished, 0, 0);
    ReportsChain(checked, finished, Service(w), 0, 0);
    ReportsChain(w, checked, Service(w), Masked(w), 0);
  }

  lemma CheckReports(w: World)
    ensures Reports(w, CheckIdle(w), 0)
  {
    hide Tick, Reports;
    NothingReported(w);
    TickReports(w);
  }

  // ---- Publication ----

  lemma ReplyReports(w: World, data: seq<byte>)
    ensures Reports(w, Reply(w, data), 0)
  {
    hide RefillTx, SetReady, Reports;
    var begun := BeginResponse(w, data);
    NothingReported(w);
    UntouchedReports(w, w, begun);
    RefillReports(begun);
    var loaded := RefillTx(begun);
    ReportsChain(w, begun, loaded, 0, 0);
    UntouchedReports(w, loaded, CountReply(loaded, |data|));
    SetReadyReports(CountReply(loaded, |data|), true, Respond(loaded.d.requestGeneration));
    ReportsChain(w, CountReply(loaded, |data|), Reply(w, data), 0, 0);
  }

  /** What follows the service run of a publication. */
  lemma DecidedReports(w: World, data: seq<byte>)
    ensures Reports(Service(w), PublishResponse(w, data).0, 0)
  {
    hide Service, CheckIdle, Reply, MayReply, Reports;
    var served := Service(w);
    NothingReported(served);
    var turn := ConsumeTurn(served);
    UntouchedReports(served, served, turn);
    CheckReports(turn);
    var checked := CheckIdle(turn);
    ReportsChain(served, turn, checked, 0, 0);
    ReplyReports(checked, data);
    ReportsChain(served, checked, Reply(checked, data), 0, 0);
    UntouchedReports(served, checked, Discard(checked));
  }

  lemma PublishReports(w: World, data: seq<byte>)
    ensures Reports(w, PublishResponse(w, data).0, Masked(w))
    ensures PublishResponse(w, data).0.d.stats.txUnderruns >= w.d.stats.txUnderruns + Masked(w)
    ensures PublishResponse(w, data).0.d.stats.rxOverruns >= w.d.stats.rxOverruns + Pending(w)
  {
    hide Service, PublishResponse, Unreported, First, Masked;
    ServiceReports(w);
    DecidedReports(w, data);
    ReportsChain(w, Service(w), PublishResponse(w, data).0, Masked(w), 0);
  }

  // ---- Configuration ----

  lemma {:induction false} TransitionsReport(w: World, count: nat)
    ensures Reports(w, Transitions(w, count), 0)
    decreases count
  {
    hide WriteCr, Reports;
    if count == 0 {
      NothingReported(w);
    } else {
      var enabled := WriteCr(w, CR_EN + CR_TXE);
      WriteCrReports(w, CR_EN + CR_TXE);
      WriteCrReports(enabled, 0);
      ReportsChain(w, enabled, WriteCr(enabled, 0), 0, 0);
      TransitionsReport(WriteCr(enabled, 0), count - 1);
      ReportsChain(w, WriteCr(enabled, 0), Transitions(w, count), 0, 0);
    }
  }

  lemma PurgeReports(w: World)
    ensures Reports(w, PurgeTxFifo(w), 0)
  {
    hide Tick, WriteCr, Transitions, Reports;
    var seen := ReadFr(w);
    var count := FlagsOf(seen.h).txLevel + 1;
    TickReports(w);
    WriteCrReports(seen, 0);
    ReportsChain(w, seen, WriteCr(seen, 0), 0, 0);
    TransitionsReport(WriteCr(seen, 0), count);
    ReportsChain(w, WriteCr(seen, 0), Transitions(WriteCr(seen, 0), count), 0, 0);
    UntouchedReports(w, Transitions(WriteCr(seen, 0), count), PurgeTxFifo(w));
  }

  /** The overrun that configuration clears. */
  function ConfigureMisses(w: World): nat {
    ClearsPending(PurgeTxFifo(WriteImsc(w, 0)))
  }

  lemma ConfigureReports(w: World)
    ensures Reports(w, Configure(w), ConfigureMisses(w))
  {
    hide PurgeTxFifo, WriteImsc, WriteRsr, WriteSlv, WriteCr, Tick, InterruptMask, ClearsPending, Reports;
    var masked := WriteImsc(w, 0);
    var purged := PurgeTxFifo(masked);
    var cleared := WriteRsr(purged);
    RegistersReport(w, 0);
    PurgeReports(masked);
    ReportsChain(w, masked, purged, 0, 0);
    WriteRsrReports(purged);
    ReportsChain(w, purged, cleared, 0, ClearsPending(purged));
    ConfiguredReports(cleared, purged.d.address);
    ReportsChain(w, cleared, Configure(w), ClearsPending(purged), 0);
  }

  /** The rest of the configuration. */
  lemma ConfiguredReports(w: World, address: nat)
    ensures Reports(w, SetInterrupts(WriteCr(Touch(Touch(WriteSlv(w, address))), CR_I2C_TARGET)), 0)
  {
    hide WriteImsc, WriteSlv, WriteCr, Tick, InterruptMask, Reports;
    var addressed := WriteSlv(w, address);
    var touched := Touch(Touch(addressed));
    var on := WriteCr(touched, CR_I2C_TARGET);
    RegistersReport(w, address);
    TickReports(addressed);
    TickReports(Touch(addressed));
    ReportsChain(w, addressed, Touch(addressed), 0, 0);
    ReportsChain(w, Touch(addressed), touched, 0, 0);
    WriteCrReports(touched, CR_I2C_TARGET);
    ReportsChain(w, touched, on, 0, 0);
    RegistersReport(on, InterruptMask(on.d));
    ReportsChain(w, on, SetInterrupts(on), 0, 0);
  }

  /** The overruns that a recovery misses: in its service run, and in the configuration if it succeeds. */
  function RecoveryMisses(w: World): nat {
    Masked(w) + if RecoverResponse(w).1 == Done(0) then ConfigureMisses(Forgetful(CheckIdle(Service(w)))) else 0
  }

  /** The response is given up, as a recovery begins. */
  function Forgetful(w: World): World {
    w.(d := w.d.(queued := false, tx := [], loaded := 0))
  }

  lemma RecoverReports(w: World)
    ensures Reports(w, Recover(w), ConfigureMisses(Forgetful(w))) && Recover(w).d.recoveries == w.d.recoveries + 1
  {
    hide Configure, SetReady, ConfigureMisses, Reports;
    var forgotten := Forgetful(w);
    NothingReported(w);
    UntouchedReports(w, w, forgotten);
    ConfigureReports(forgotten);
    BscPurge.ConfigureFrame(forgotten);
    var configured := Configure(forgotten);
    var counted := configured.(d := configured.d.(recoveries := configured.d.recoveries + 1));
    RecoveryCounted(configured);
    SetReadyReports(counted, false, Release);
    SetReadyIsSteady(counted, false, Release);
    ReportsChain(w, forgotten, configured, 0, ConfigureMisses(forgotten));
    ReportsChain(w, configured, counted, ConfigureMisses(forgotten), 0);
    ReportsChain(w, counted, Recover(w), ConfigureMisses(forgotten), 0);
  }

  lemma RecoveryCounted(w: World)
    ensures Reports(w, w.(d := w.d.(recoveries := w.d.recoveries + 1)), 0)
  {
  }

  lemma RecoveryReports(w: World)
    ensures Reports(w, RecoverResponse(w).0, RecoveryMisses(w))
    ensures var d := RecoverResponse(w).0.d;
            && d.stats.txUnderruns + d.recoveries >=
               w.d.stats.txUnderruns + w.d.recoveries + (if RecoveryMisses(w) > 0 then 1 else 0)
            && d.stats.rxOverruns >= w.d.stats.rxOverruns + Pending(w)
  {
    hide Service, CheckIdle, Recover, MayReply, Unreported, First, Masked, ConfigureMisses;
    ServiceReports(w);
    var served := Service(w);
    var checked := CheckIdle(served);
    CheckReports(served);
    NothingReported(served);
    RecoverReports(checked);
    ReportsChain(w, served, served, Masked(w), 0);
    ReportsChain(w, served, checked, Masked(w), 0);
    ReportsChain(w, checked, Recover(checked), Masked(w), ConfigureMisses(Forgetful(checked)));
  }

  // ---- Opening and closing ----

  lemma ResetReports(w: World)
    ensures Reports(w, ResetIo(w), 0)
  {
    hide SetReady, Reports;
    ResetIsRelease(w);
    ClearedReports(w);
    SetReadyReports(Cleared(w), false, Release);
    ReportsChain(w, Cleared(w), ResetIo(w), 0, 0);
  }

  lemma ClearedReports(w: World)
    ensures Reports(w, Cleared(w), 0)
  {
  }

  function DisableMisses(w: World): nat {
    ClearsPending(WriteCr(WriteImsc(w, 0), 0))
  }

  /** Switching off reads no error: an overrun that is pending when the register is cleared is missed. */
  lemma DisableReports(w: World)
    ensures Reports(w, Disable(w), DisableMisses(w))
  {
    hide WriteImsc, WriteRsr, WriteSlv, WriteCr, ResetIo, ClearsPending, Reports;
    var masked := WriteImsc(w, 0);
    var off := WriteCr(masked, 0);
    var cleared := WriteRsr(off);
    var silent := WriteSlv(cleared, 0);
    RegistersReport(w, 0);
    WriteCrReports(masked, 0);
    ReportsChain(w, masked, off, 0, 0);
    WriteRsrReports(off);
    ReportsChain(w, off, cleared, 0, ClearsPending(off));
    RegistersReport(cleared, 0);
    ReportsChain(w, cleared, silent, ClearsPending(off), 0);
    ResetReports(silent);
    ReportsChain(w, silent, Disable(w), ClearsPending(off), 0);
  }

  function DeactivationMisses(w: World): nat {
    if w.d.active then DisableMisses(w.(d := w.d.(active := false))) else 0
  }

  lemma DeactivationReports(w: World)
    ensures Reports(w, Deactivate(w), DeactivationMisses(w))
  {
    hide Disable, DisableMisses, Reports;
    NothingReported(w);
    var inactive := w.(d := w.d.(active := false));
    UntouchedReports(w, w, inactive);
    if w.d.active {
      DisableReports(inactive);
      ReportsChain(w, inactive, Disable(inactive), 0, DisableMisses(inactive));
    }
  }

  function ActivationMisses(w: World): nat {
    ConfigureMisses(ResetIo(w).(d := ResetIo(w).d.(active := true)))
  }

  lemma ActivationReports(w: World)
    ensures Reports(w, Activate(w), ActivationMisses(w))
  {
    hide ResetIo, Configure, ConfigureMisses, Reports;
    var reset := ResetIo(w);
    var active := reset.(d := reset.d.(active := true));
    ResetReports(w);
    UntouchedReports(w, reset, active);
    ConfigureReports(active);
    ReportsChain(w, active, Configure(active), 0, ConfigureMisses(active));
  }

  // ---- Runs ----

  /** The overruns that an action misses. */
  function Misses(m: Machine, a: Action): nat {
    var w := m.w;
    match a
    case Interrupt(pending, script) => if pending && w.d.active then Masked(CountInterrupt(Under(w, script))) else 0
    case TimerRun(script) => if !w.d.dead && w.d.active then Masked(CountTimer(Under(w, script))) else 0
    case Write(data, script) =>
      if m.phase.Opened? && data != [] && |data| <= MAX_TRANSFER && !w.d.dead && w.d.active then Masked(Under(w, script)) else 0
    case RecoverRequest(script) =>
      if m.phase.Opened? && !w.d.dead && w.d.active then RecoveryMisses(Under(w, script)) else 0
    case OpenFinish(pins, script) => if Purging(m, a) then ActivationMisses(Under(w, script)) else 0
    case ReleaseBegin(script) =>
      if m.phase.Opened? && !m.removing && !w.d.dead then DeactivationMisses(Under(w, script)) else 0
    case RemoveEnd(script) => if m.removing then DeactivationMisses(Under(w, script)) else 0
    case _ => 0
  }

  function MissedIn(m: Machine, actions: seq<Action>): nat
    decreases |actions|
  {
    if actions == [] then 0 else Misses(m, actions[0]) + MissedIn(Act(m, actions[0]), actions[1..])
  }

  lemma RestReports(w: World, script: seq<seq<Event>>, after: World, missed: nat)
    requires Reports(Under(w, script), after, missed)
    ensures Reports(w, Rest(after), missed)
  {
  }

  lemma ServedReports(w: World, pending: bool)
    ensures Reports(w, Irq(w, pending), if pending && w.d.active then Masked(CountInterrupt(w)) else 0)
    ensures Reports(w, Timer(w), if !w.d.dead && w.d.active then Masked(CountTimer(w)) else 0)
  {
    hide Service, Tick, Masked, Reports;
    NothingReported(w);
    var (interrupted, timed) := (CountInterrupt(w), CountTimer(w));
    UntouchedReports(w, w, interrupted);
    UntouchedReports(w, w, timed);
    ServiceReports(interrupted);
    TickReports(Service(interrupted));
    ReportsChain(w, interrupted, Service(interrupted), 0, Masked(interrupted));
    ReportsChain(w, Service(interrupted), Tick(Service(interrupted)), Masked(interrupted), 0);
    ServiceReports(timed);
    ReportsChain(w, timed, Service(timed), 0, Masked(timed));
  }

  /** Exactly: only these clear the flag without counting, and exactly when the flag is set at that access. */
  lemma ActReports(m: Machine, a: Action)
    requires !a.Clear?
    ensures Reports(m.w, Act(m, a).w, Misses(m, a))
  {
    hide HappenAll, Irq, Timer, ReadMessage, QueueResponse, RecoverIoctl, Activate, Deactivate;
    hide Masked, RecoveryMisses, ActivationMisses, DeactivationMisses, Reports;
    NothingReported(m.w);
    match a
    case Bus(events) => HappenAllReports(m.w, events);
    case Interrupt(pending, script) =>
      ServedReports(Under(m.w, script), pending);
      RestReports(m.w, script, Irq(Under(m.w, script), pending), Misses(m, a));
    case TimerRun(script) =>
      ServedReports(Under(m.w, script), false);
      RestReports(m.w, script, Timer(Under(m.w, script)), Misses(m, a));
    case Read(capacity) => ReadReports(m.w, capacity);
    case Write(data, script) =>
      WriteReports(Under(m.w, script), data);
      RestReports(m.w, script, QueueResponse(Under(m.w, script), data).0,
                  if m.phase.Opened? then Misses(m, a) else WriteMisses(Under(m.w, script), data));
    case RecoverRequest(script) =>
      IoctlReports(Under(m.w, script));
      RestReports(m.w, script, RecoverIoctl(Under(m.w, script)).0,
                  if m.phase.Opened? then Misses(m, a) else IoctlMisses(Under(m.w, script)));
    case OpenFinish(_, script) =>
      ActivationReports(Under(m.w, script));
      RestReports(m.w, script, Activate(Under(m.w, script)), ActivationMisses(Under(m.w, script)));
      LifecycleReports(m.w, m.w.d.dead, false);
    case ReleaseBegin(script) =>
      DeactivationReports(Under(m.w, script));
      RestReports(m.w, script, Deactivate(Under(m.w, script)), DeactivationMisses(Under(m.w, script)));
    case RemoveEnd(script) =>
      DeactivationReports(Under(m.w, script));
      RestReports(m.w, script, Deactivate(Under(m.w, script)), DeactivationMisses(Under(m.w, script)));
    case OpenBegin => LifecycleReports(m.w, m.w.d.dead, true);
    case ReleaseEnd => LifecycleReports(m.w, m.w.d.dead, false);
    case RemoveBegin => LifecycleReports(m.w, true, m.w.d.isOpen);
  }

  lemma LifecycleReports(w: World, dead: bool, isOpen: bool)
    ensures Reports(w, w.(d := w.d.(dead := dead, isOpen := isOpen)), 0)
  {
  }

  lemma ReadReports(w: World, capacity: nat)
    ensures Reports(w, ReadMessage(w, capacity).0, 0)
  {
  }

  function WriteMisses(w: World, data: seq<byte>): nat {
    if data != [] && |data| <= MAX_TRANSFER && !w.d.dead && w.d.active then Masked(w) else 0
  }

  lemma WriteReports(w: World, data: seq<byte>)
    ensures Reports(w, QueueResponse(w, data).0, WriteMisses(w, data))
  {
    hide PublishResponse, Masked, Reports;
    NothingReported(w);
    PublishReports(w, data);
  }

  function IoctlMisses(w: World): nat {
    if !w.d.dead && w.d.active then RecoveryMisses(w) else 0
  }

  lemma IoctlReports(w: World)
    ensures Reports(w, RecoverIoctl(w).0, IoctlMisses(w))
  {
    hide RecoverResponse, RecoveryMisses, Reports;
    NothingReported(w);
    RecoveryReports(w);
  }

  /**
   Over any run without CLEAR_STATS the rises of the overrun flag are exactly those that are pending, those that were
   counted, and those that were missed.
   */
  lemma {:induction false} OverrunsAddUp(m: Machine, actions: seq<Action>)
    requires forall i | 0 <= i < |actions| :: !actions[i].Clear?
    ensures Reports(m.w, Run(m, actions).w, MissedIn(m, actions))
    decreases |actions|
  {
    hide Act, Misses, Reports;
    if actions == [] {
      NothingReported(m.w);
    } else {
      var next := Act(m, actions[0]);
      ActReports(m, actions[0]);
      OverrunsAddUp(next, actions[1..]);
      ReportsChain(m.w, next.w, Run(m, actions).w, Misses(m, actions[0]), MissedIn(next, actions[1..]));
    }
  }

  /** Rises of the flag that it no longer shows. */
  function Gone(w: World): int {
    w.rx.bus.raised - Pending(w)
  }

  /** Overruns that were counted, apart from overflows of the work buffer. */
  function Counted(w: World): int {
    w.d.stats.rxOverruns - w.own.overflowed
  }

  /** Over any run without CLEAR_STATS every overrun is counted if and only if no action misses one. */
  lemma EveryOverrunIsCounted(m: Machine, actions: seq<Action>)
    requires forall i | 0 <= i < |actions| :: !actions[i].Clear?
    ensures var after := Run(m, actions).w;
            && Counted(after) - Counted(m.w) <= Gone(after) - Gone(m.w)
            && (Counted(after) - Counted(m.w) == Gone(after) - Gone(m.w) <==> MissedIn(m, actions) == 0)
  {
    hide Run, MissedIn;
    OverrunsAddUp(m, actions);
  }
}
