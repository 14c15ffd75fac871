/** What the counters say about bytes. */
module BscStatistics {
  import opened Bytes
  import opened BscWorld
  import opened BscDriver
  import opened BscInvariant
  import opened BscActions
  import opened BscMachine
  import opened BscBooks
  import opened BscPromises
  import opened BscOverruns

  ghost predicate OneOpen(actions: seq<Action>) {
    forall i | 0 <= i < |actions| :: !NewAccount(actions[i])
  }

  /** The counters that grow by every loss, or by what may hide one. */
  ghost predicate Unmoved(w: World, after: World) {
    && after.d.stats.rxDropped == w.d.stats.rxDropped && after.d.stats.rxOverruns == w.d.stats.rxOverruns
    && after.d.stats.txUnderruns == w.d.stats.txUnderruns && after.d.recoveries == w.d.recoveries
  }

  /** An overrun is missed only where an underrun is counted or a recovery succeeds. */
  lemma MissesShow(m: Machine, a: Action)
    requires !NewAccount(a)
    ensures var (d, e) := (m.w.d, Act(m, a).w.d);
            e.stats.txUnderruns == d.stats.txUnderruns && e.recoveries == d.recoveries ==> Misses(m, a) == 0
  {
    hide HappenAll, Service, PublishResponse, RecoverResponse, ReadMessage, Tick;
    hide Masked, RecoveryMisses, Reports;
    match a
    case Interrupt(pending, script) =>
      var counted := CountInterrupt(Under(m.w, script));
      ServiceReports(counted);
      TickIsBusOnly(Service(counted));
    case TimerRun(script) => ServiceReports(CountTimer(Under(m.w, script)));
    case Write(data, script) => PublishReports(Under(m.w, script), data);
    case RecoverRequest(script) => RecoveryReports(Under(m.w, script));
    case _ =>
  }

  /** A pending overrun stays pending until the next service run counts it; every timer run serves. */
  lemma PendingIsCounted(m: Machine, a: Action)
    requires !NewAccount(a) && m.w.h.overrun
    ensures var after := Act(m, a).w;
            || after.d.stats.rxOverruns > m.w.d.stats.rxOverruns
            || (after.h.overrun && after.d.stats.timerRuns == m.w.d.stats.timerRuns)
  {
    hide HappenAll, Service, PublishResponse, RecoverResponse, Tick, Masked, RecoveryMisses;
    match a
    case Bus(events) =>
      HappenAllReports(m.w, events);
      HappenAllIsBusOnly(m.w, events);
    case Interrupt(pending, script) =>
      var counted := CountInterrupt(Under(m.w, script));
      ServiceReports(counted);
      TickIsBusOnly(Service(counted));
    case TimerRun(script) => ServiceReports(CountTimer(Under(m.w, script)));
    case Write(data, script) => PublishReports(Under(m.w, script), data);
    case RecoverRequest(script) => RecoveryReports(Under(m.w, script));
    case _ =>
  }

  lemma OneOpenGoesOn(m: Machine, actions: seq<Action>)
    requires OneOpen(actions)
    ensures forall i | 0 <= i < |actions| :: !actions[i].Clear?
    ensures Reports(m.w, Run(m, actions).w, MissedIn(m, actions))
  {
    forall i | 0 <= i < |actions| ensures !actions[i].Clear? {
      assert !NewAccount(actions[i]);
    }
    OverrunsAddUp(m, actions);
  }

  lemma {:induction false} NothingIsMasked(m: Machine, actions: seq<Action>)
    requires OneOpen(actions)
    requires Run(m, actions).w.d.stats.txUnderruns == m.w.d.stats.txUnderruns
    requires Run(m, actions).w.d.recoveries == m.w.d.recoveries
    ensures MissedIn(m, actions) == 0
    decreases |actions|
  {
    if actions != [] {
      var (next, rest) := (Act(m, actions[0]), actions[1..]);
      assert OneOpen(rest) && !actions[0].Clear?;
      OneOpenGoesOn(next, rest);
      ActReports(m, actions[0]);
      MissesShow(m, actions[0]);
      hide Act, Misses, NewAccount, Unreported, First;
      NothingIsMasked(next, rest);
    }
  }

  lemma {:induction false} PendingShows(m: Machine, actions: seq<Action>)
    requires OneOpen(actions) && Run(m, actions).w.d.stats.rxOverruns == m.w.d.stats.rxOverruns
    requires Run(m, actions).w.d.stats.timerRuns > m.w.d.stats.timerRuns
    ensures !m.w.h.overrun
    decreases |actions|
  {
    if actions != [] && m.w.h.overrun {
      var (next, rest) := (Act(m, actions[0]), actions[1..]);
      assert OneOpen(rest) && !actions[0].Clear?;
      OneOpenGoesOn(next, rest);
      ActReports(m, actions[0]);
      PendingIsCounted(m, actions[0]);
      hide Act, Misses, NewAccount, Unreported, First;
      PendingShows(next, rest);
    }
  }

  /** In one open, with the flag clear at both ends and these counters unmoved, no byte has met a full FIFO. */
  lemma UnmovedLosesNoByte(m: Machine, actions: seq<Action>)
    requires OneOpen(actions) && !m.w.h.overrun && !Run(m, actions).w.h.overrun
    requires var (d, e) := (m.w.d, Run(m, actions).w.d);
             && e.stats.rxOverruns == d.stats.rxOverruns && e.stats.txUnderruns == d.stats.txUnderruns
             && e.recoveries == d.recoveries
    ensures Run(m, actions).w.rx.holed == m.w.rx.holed
  {
    hide Run, MissedIn, NewAccount, First;
    OneOpenGoesOn(m, actions);
    NothingIsMasked(m, actions);
    RunBalances(m, actions);
  }

  lemma {:induction false} UnmovedCutsNothing(m: Machine, actions: seq<Action>)
    requires OneOpen(actions) && Run(m, actions).w.d.recoveries == m.w.d.recoveries
    ensures Run(m, actions).w.rx.severed == m.w.rx.severed
    decreases |actions|
  {
    if actions != [] {
      var (a, next, rest) := (actions[0], Act(m, actions[0]), actions[1..]);
      assert !NewAccount(a) && OneOpen(rest);
      OneOpenGoesOn(next, rest);
      ActBalances(m, a);
      PurgedOnlyByActivationOrRecovery(m, a);
      assert !Purging(m, a) ==> !Severing(m, a);
      hide Act, NewAccount, Purging, Severing, Unreported, First, Balance, MissedIn;
      if !Purging(m, a) {
        SeveredOnlyByModeChange(m, a);
      }
      UnmovedCutsNothing(next, rest);
    }
  }

  // ---- The open itself ----

  /** Out of target mode and in no write, the target hears nothing. */
  ghost predicate Deaf(w: World) {
    w.h.cr != CR_I2C_TARGET && !w.h.rxBusy
  }

  ghost predicate StaysDeaf(w: World, after: World) {
    Deaf(w) ==>
      && Deaf(after) && after.rx.holed == w.rx.holed && after.rx.severed == w.rx.severed
      && after.rx.writes == w.rx.writes && after.rx.cuts == w.rx.cuts && after.h.overrun == w.h.overrun
  }

  lemma DeafChain(a: World, b: World, c: World)
    requires StaysDeaf(a, b) && StaysDeaf(b, c)
    ensures StaysDeaf(a, c)
  {
  }

  lemma {:induction false} DeafBus(w: World, events: seq<Event>)
    ensures StaysDeaf(w, HappenAll(w, events))
    decreases |events|
  {
    if events != [] {
      DeafEvent(w, events[0]);
      hide Happen;
      DeafBus(Happen(w, events[0]), events[1..]);
    }
  }

  lemma DeafEvent(w: World, e: Event)
    ensures StaysDeaf(w, Happen(w, e))
  {
  }

  lemma DeafTick(w: World)
    ensures StaysDeaf(w, Tick(w))
  {
    if w.script != [] {
      hide HappenAll;
      DeafBus(w.(script := w.script[1..]), w.script[0]);
    }
  }

  lemma DeafRegisters(w: World, value: nat)
    requires value != CR_I2C_TARGET
    ensures StaysDeaf(w, WriteImsc(w, value)) && StaysDeaf(w, WriteSlv(w, value)) && StaysDeaf(w, WriteCr(w, value))
  {
    hide Tick;
    DeafTick(w);
  }

  lemma {:induction false} DeafTransitions(w: World, count: nat)
    ensures StaysDeaf(w, Transitions(w, count))
    decreases count
  {
    hide WriteCr, Deaf;
    if count > 0 {
      var enabled := WriteCr(w, CR_EN + CR_TXE);
      DeafRegisters(w, CR_EN + CR_TXE);
      DeafRegisters(enabled, 0);
      DeafTransitions(WriteCr(enabled, 0), count - 1);
    }
  }

  lemma DeafPurge(w: World)
    ensures StaysDeaf(w, PurgeTxFifo(w))
  {
    hide Tick, WriteCr, Transitions;
    DeafTick(w);
    DeafRegisters(ReadFr(w), 0);
    DeafTransitions(WriteCr(ReadFr(w), 0), FlagsOf(ReadFr(w).h).txLevel + 1);
  }

  lemma DeafUntilOn(w: World, address: nat)
    ensures StaysDeaf(w, Touch(Touch(WriteSlv(w, address))))
  {
    hide Tick, WriteSlv, StaysDeaf;
    var addressed := WriteSlv(w, address);
    DeafAddress(w, address);
    DeafTick(addressed);
    DeafTick(Touch(addressed));
    DeafChain(w, addressed, Touch(addressed));
    DeafChain(w, Touch(addressed), Touch(Touch(addressed)));
  }

  lemma DeafPurged(w: World)
    ensures StaysDeaf(w, PurgeTxFifo(WriteImsc(w, 0)))
  {
    hide WriteImsc, PurgeTxFifo, StaysDeaf;
    DeafRegisters(w, 0);
    DeafPurge(WriteImsc(w, 0));
    DeafChain(w, WriteImsc(w, 0), PurgeTxFifo(WriteImsc(w, 0)));
  }

  lemma DeafClear(w: World)
    requires Deaf(w)
    ensures var after := WriteRsr(w);
            && Deaf(after) && !after.h.overrun && after.rx.holed == w.rx.holed && after.rx.severed == w.rx.severed
            && after.rx.writes == w.rx.writes && after.rx.cuts == w.rx.cuts
  {
    DeafTick(w);
    hide Tick;
  }

  lemma DeafSwitchOn(w: World)
    requires Deaf(w)
    ensures var on := WriteCr(w, CR_I2C_TARGET);
            && on.h.overrun == w.h.overrun && on.rx.holed == w.rx.holed && on.rx.severed == w.rx.severed
            && on.rx.writes == w.rx.writes && on.rx.cuts == w.rx.cuts
  {
    DeafTick(w);
    hide Tick;
  }

  /** The state in which the configuration turns the receiver on, with the error register cleared. */
  lemma DeafConfigure(w: World, address: nat)
    requires Deaf(w)
    ensures var cleared := WriteRsr(PurgeTxFifo(WriteImsc(w, 0)));
            var on := WriteCr(Touch(Touch(WriteSlv(cleared, address))), CR_I2C_TARGET);
            && !on.h.overrun && on.rx.holed == w.rx.holed && on.rx.severed == w.rx.severed
            && on.rx.writes == w.rx.writes && on.rx.cuts == w.rx.cuts
  {
    hide PurgeTxFifo, WriteImsc, WriteSlv, WriteRsr, WriteCr, Touch;
    var purged := PurgeTxFifo(WriteImsc(w, 0));
    DeafPurged(w);
    DeafClear(purged);
    DeafUntilOn(WriteRsr(purged), address);
    DeafSwitchOn(Touch(Touch(WriteSlv(WriteRsr(purged), address))));
  }

  lemma DeafAddress(w: World, address: nat)
    ensures StaysDeaf(w, WriteSlv(w, address))
  {
    hide Tick;
    DeafTick(w);
  }

  /** From the clearing of the register on, a loss shows: with the flag clear nothing has been lost. */
  lemma DeafConfigured(w: World)
    requires Deaf(w)
    ensures var after := Configure(w);
            && after.rx.severed == w.rx.severed && after.rx.cuts == w.rx.cuts
            && (!after.h.overrun ==> after.rx.holed == w.rx.holed)
  {
    var purged := PurgeTxFifo(WriteImsc(w, 0));
    var on := WriteCr(Touch(Touch(WriteSlv(WriteRsr(purged), purged.d.address))), CR_I2C_TARGET);
    DeafConfigure(w, purged.d.address);
    TickReports(on);
    TickIsBusOnly(on);
    assert Configure(w) == SetInterrupts(on);
    hide WriteCr, Touch, PurgeTxFifo, WriteRsr, WriteSlv, Tick;
  }

  lemma OpeningIsIntact(m: Machine, a: Action)
    requires Safe(m) && a.OpenFinish? && Purging(m, a)
    ensures var after := Act(m, a).w;
            && CutsOk(after.rx) && SentInv(after.h.rxBusy, after.rx)
            && (!after.h.overrun ==>
                  && (forall i | i in after.rx.holed :: i < First(after.rx))
                  && (forall i | i in after.rx.severed :: i < First(after.rx)))
  {
    hide Act, Safe, Inv, Activate, SentInv, Purging;
    ActIsSafe(m, a);
    SafeParts(Act(m, a));
    SafeParts(m);
    OpeningActs(m, a);
    DeafActivation(Under(m.w, a.script));
    NotYetHoled(m.w.rx);
  }

  lemma OpeningActs(m: Machine, a: Action)
    requires a.OpenFinish? && Purging(m, a)
    ensures Act(m, a).w == Rest(Activate(Under(m.w, a.script))) && m.phase.Claimed?
  {
    hide Activate;
  }

  lemma DeafActivation(w: World)
    requires Deaf(w)
    ensures var after := Activate(w);
            && after.rx.severed == w.rx.severed && after.rx.cuts == [|w.rx.writes|]
            && (!after.h.overrun ==> after.rx.holed == w.rx.holed)
  {
    hide ResetIo, Configure;
    DeafReset(w);
    DeafConfigured(ResetIo(w).(d := ResetIo(w).d.(active := true)));
  }

  lemma NotYetHoled(rx: RxLog)
    requires SentInv(false, rx)
    ensures forall i | i in rx.holed :: i < |rx.writes|
    ensures forall i | i in rx.severed :: i < |rx.writes|
  {
  }

  lemma DeafReset(w: World)
    requires Deaf(w)
    ensures var after := ResetIo(w);
            Deaf(after) && after.rx.holed == w.rx.holed && after.rx.severed == w.rx.severed && after.rx.cuts == [|w.rx.writes|]
  {
    ResetIsRelease(w);
    var cleared := Cleared(w);
    DeafTick(cleared);
    hide ResetIo, Tick;
  }

  lemma SafeParts(m: Machine)
    requires Safe(m)
    ensures CutsOk(m.w.rx) && SentInv(m.w.h.rxBusy, m.w.rx) && Inv(m.w, false)
    ensures m.phase.Claimed? ==> Deaf(m.w)
  {
    hide RecordsInv, OwnInv, TxInv, EdgeInv, SentInv, SignalInv, NoEmptyBurst, Ended, InterruptMask;
  }

  /** Every record lost since an open was dropped or overflowed, and each of these is counted. */
  lemma LossesByStatistics(m: Machine, a: Action, since: seq<Action>)
    requires Safe(m) && a.OpenFinish? && Purging(m, a) && OneOpen(since)
    ensures var (start, w) := (Act(m, a).w, Run(Act(m, a), since).w);
            var overflowed := w.own.overflowed - start.own.overflowed;
            && w.own.lost == (w.d.stats.rxDropped - start.d.stats.rxDropped) + overflowed
            && w.d.stats.rxDropped >= start.d.stats.rxDropped
            && 0 <= overflowed <= w.d.stats.rxOverruns - start.d.stats.rxOverruns
  {
    hide Act, Run, Safe, NewAccount, Purging, Balance;
    RunBalances(Act(m, a), since);
    OpeningLosesNothing(m, a);
  }

  /** What was true of the counters at the end was true before. */
  lemma UnmovedBetween(m: Machine, since: seq<Action>, later: seq<Action>)
    requires OneOpen(since) && OneOpen(later) && Unmoved(m.w, Run(Run(m, since), later).w)
    ensures Unmoved(m.w, Run(m, since).w) && Unmoved(Run(m, since).w, Run(Run(m, since), later).w)
  {
    hide Run, NewAccount, Unreported, First, Balance, MissedIn;
    OneOpenGoesOn(m, since);
    OneOpenGoesOn(Run(m, since), later);
    RunBalances(m, since);
    RunBalances(Run(m, since), later);
  }

  lemma FirstCut(m: Machine, since: seq<Action>)
    requires OneOpen(since) && CutsOk(m.w.rx) && CutsOk(Run(m, since).w.rx)
    ensures m.w.rx.cuts[0] <= Run(m, since).w.rx.cuts[0]
  {
    OneOpenGoesOn(m, since);
    hide Run, NewAccount, Unreported, MissedIn;
  }

  lemma IntactByMarks(busy: bool, rx: RxLog, first: nat)
    requires CutsOk(rx) && SentInv(busy, rx) && first <= rx.cuts[0]
    requires forall i | i in rx.holed :: i < first
    requires forall i | i in rx.severed :: i < first
    ensures Intact(rx)
  {
    forall i | rx.cuts[0] <= i < |rx.writes| + 1 ensures !Damaged(rx, i) {
    }
  }

  /** At a time after which the timer has run, unmoved counters say that no write of this open is damaged. */
  lemma UnmovedIsIntact(m: Machine, a: Action, since: seq<Action>, later: seq<Action>)
    requires Safe(m) && a.OpenFinish? && Purging(m, a) && OneOpen(since) && OneOpen(later)
    requires Unmoved(Act(m, a).w, Run(Run(Act(m, a), since), later).w)
    requires Run(Run(Act(m, a), since), later).w.d.stats.timerRuns > Run(Act(m, a), since).w.d.stats.timerRuns
    ensures Intact(Run(Act(m, a), since).w.rx)
  {
    hide Act, Run, Safe, NewAccount, Purging, Intact, CutsOk, SentInv, SignalInv;
    var start := Act(m, a);
    var w := Run(start, since);
    UnmovedBetween(start, since, later);
    ActIsSafe(m, a);
    RunIsSafe(start, since);
    SafeParts(start);
    SafeParts(w);
    PendingShows(w, later);
    if start.w.h.overrun {
      PendingStays(start, since);
    }
    OpeningIsIntact(m, a);
    UnmovedLosesNoByte(start, since);
    UnmovedCutsNothing(start, since);
    FirstCut(start, since);
    FirstIs(start.w.rx);
    IntactByMarks(w.w.h.rxBusy, w.w.rx, start.w.rx.cuts[0]);
  }

  lemma FirstIs(rx: RxLog)
    requires CutsOk(rx)
    ensures |rx.cuts| > 0 && First(rx) == rx.cuts[0]
  {
  }

  lemma {:induction false} PendingStays(m: Machine, actions: seq<Action>)
    requires OneOpen(actions) && m.w.h.overrun
    requires Run(m, actions).w.d.stats.rxOverruns == m.w.d.stats.rxOverruns
    ensures Run(m, actions).w.h.overrun
    decreases |actions|
  {
    if actions != [] {
      var (next, rest) := (Act(m, actions[0]), actions[1..]);
      assert OneOpen(rest) && !actions[0].Clear?;
      OneOpenGoesOn(next, rest);
      ActReports(m, actions[0]);
      PendingIsCounted(m, actions[0]);
      hide Act, Misses, NewAccount, Unreported, First;
      PendingStays(next, rest);
    }
  }

  /**
   What the counters say, in terms of bytes: if none of rx_dropped, rx_overruns, tx_underruns and recoveries has moved
   since the device was opened, then at every time after which the timer has run once more the driver holds or has
   delivered exactly what the FIFO held at the open and what the controller has sent since, unless the burst in progress
   has overflowed; and even then delivered, waiting and buffered bytes are the beginning of that.
   */
  lemma NothingIsMissingByStatistics(m: Machine, a: Action, since: seq<Action>, later: seq<Action>)
    requires Safe(m) && a.OpenFinish? && Purging(m, a) && OneOpen(since) && OneOpen(later)
    requires Unmoved(Act(m, a).w, Run(Run(Act(m, a), since), later).w)
    requires Run(Run(Act(m, a), since), later).w.d.stats.timerRuns > Run(Act(m, a), since).w.d.stats.timerRuns
    ensures var w := Run(Act(m, a), since).w;
            && Logged(w.rx)
            && (Held(w) == Sent(w.rx) <==> !w.d.overflowed)
            && Flatten(Datas(w.own.delivered) + w.d.queue) + w.d.work <= Sent(w.rx)
  {
    hide Act, Run, Safe, NewAccount, Purging, Intact, Held, Sent, CutsOk, Datas;
    var start := Act(m, a);
    var w := Run(start, since);
    UnmovedIsIntact(m, a, since, later);
    UnmovedBetween(start, since, later);
    LossesByStatistics(m, a, since);
    ActIsSafe(m, a);
    RunIsSafe(start, since);
    SafeStands(w);
    SafeStream(w.w);
    WorkIsPrefix(w.w);
  }

  lemma WorkIsPrefix(w: World)
    requires Inv(w, false) && w.own.lost == 0 && Intact(w.rx)
    ensures Logged(w.rx) && Flatten(Datas(w.own.delivered) + w.d.queue) + w.d.work <= Sent(w.rx)
  {
    hide Inv, Arrived, Sent, SentInv, SignalInv, Undamaged, Datas, Flatten, Held;
    SafeStream(w);
    BurstHasWork(w);
    ArrivedOfSent(w.h.rxBusy, w.rx);
    Beginning(Flatten(Datas(w.own.delivered) + w.d.queue), w.d.work, w.rx.burst, w.h.rxFifo);
  }

  lemma Beginning(kept: seq<byte>, work: seq<byte>, burst: seq<byte>, fifo: seq<byte>)
    requires work <= burst
    ensures kept + work <= kept + (burst + fifo)
  {
    var rest := burst[|work|..];
    assert burst == work + rest;
    Reassociate(work, rest, fifo);
    Reassociate(kept, work, rest + fifo);
  }

  lemma BurstHasWork(w: World)
    requires Inv(w, false)
    ensures w.d.work <= w.rx.burst && SentInv(w.h.rxBusy, w.rx)
  {
    hide RecordsInv, OwnInv, TxInv, EdgeInv, SentInv, SignalInv, NoEmptyBurst, Ended, CutsOk;
  }
}
