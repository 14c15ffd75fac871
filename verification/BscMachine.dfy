/** The device as a state machine. */
module BscMachine {
  import opened Bytes
  import opened BscWorld
  import opened BscDriver
  import opened BscInvariant
  import opened BscService
  import opened BscActions
  import opened BscResponse

  /** How far the only open file has got; opening and releasing are not atomic. */
  datatype Phase = Closed | Claimed | Opened | Closing

  /** `removing`: the device is marked dead but not yet deactivated, under the state lock. */
  datatype Machine = Machine(w: World, phase: Phase, removing: bool)

  /** Each critical section comes with the script of what the bus does between its register accesses. */
  datatype Action =
    | Bus(events: seq<Event>)
    | Interrupt(pending: bool, script: seq<seq<Event>>)
    | TimerRun(script: seq<seq<Event>>)
    | Read(capacity: nat)
    | Write(data: seq<byte>, script: seq<seq<Event>>)
    | RecoverRequest(script: seq<seq<Event>>)
    | Clear
    | OpenBegin
    | OpenFinish(pinsSelected: bool, script: seq<seq<Event>>)
    | ReleaseBegin(script: seq<seq<Event>>)
    | ReleaseEnd
    | RemoveBegin
    | RemoveEnd(script: seq<seq<Event>>)

  /** A world about to run a critical section against `script`; what is left of it afterwards is dropped. */
  function Under(w: World, script: seq<seq<Event>>): World {
    w.(script := script)
  }

  function Rest(w: World): World {
    w.(script := [])
  }

  function Act(m: Machine, a: Action): Machine {
    var w := m.w;
    match a
    case Bus(events) => m.(w := HappenAll(w, events))
    case Interrupt(pending, script) => m.(w := Rest(Irq(Under(w, script), pending)))
    case TimerRun(script) => m.(w := Rest(Timer(Under(w, script))))
    case Read(capacity) => if m.phase.Opened? then m.(w := ReadMessage(w, capacity).0) else m
    case Write(data, script) => if m.phase.Opened? then m.(w := Rest(QueueResponse(Under(w, script), data).0)) else m
    case RecoverRequest(script) => if m.phase.Opened? then m.(w := Rest(RecoverIoctl(Under(w, script)).0)) else m
    case Clear => if m.phase.Opened? then m.(w := ClearStats(w)) else m
    case OpenBegin =>
      if w.d.isOpen then m else m.(w := w.(d := w.d.(isOpen := true)), phase := Claimed)
    case OpenFinish(pinsSelected, script) =>
      if !m.phase.Claimed? || m.removing then m
      else if w.d.dead || !pinsSelected then m.(w := w.(d := w.d.(isOpen := false)), phase := Closed)
      else m.(w := Rest(Activate(Under(w, script))), phase := Opened)
    case ReleaseBegin(script) =>
      if !m.phase.Opened? || m.removing then m
      else if w.d.dead then m.(phase := Closing)
      else m.(w := Rest(Deactivate(Under(w, script))), phase := Closing)
    case ReleaseEnd =>
      if !m.phase.Closing? then m else m.(w := w.(d := w.d.(isOpen := false)), phase := Closed)
    case RemoveBegin =>
      if m.removing || w.d.dead then m else m.(w := w.(d := w.d.(dead := true)), removing := true)
    case RemoveEnd(script) =>
      if !m.removing then m else m.(w := Rest(Deactivate(Under(w, script))), removing := false)
  }

  function Run(m: Machine, actions: seq<Action>): Machine
    decreases |actions|
  {
    if actions == [] then m else Run(Act(m, actions[0]), actions[1..])
  }

  lemma {:induction false} RunAppend(m: Machine, a: seq<Action>, b: seq<Action>)
    ensures Run(m, a + b) == Run(Run(m, a), b)
    decreases |a|
  {
    hide Act;
    if a == [] {
      assert a + b == b;
    } else {
      assert (a + b)[0] == a[0] && (a + b)[1..] == a[1..] + b;
      RunAppend(Act(m, a[0]), a[1..], b);
    }
  }

  lemma OneStep(m: Machine, a: Action)
    ensures Run(m, [a]) == Act(m, a)
  {
    hide Act;
    assert [a][1..] == [];
    assert Run(Act(m, a), []) == Act(m, a);
  }

  lemma TwoSteps(m: Machine, a: Action, b: Action)
    ensures Run(m, [a, b]) == Act(Act(m, a), b)
  {
    hide Act;
    assert [a, b][1..] == [b] && [b][1..] == [];
    assert Run(Act(m, a), [b]) == Run(Act(Act(m, a), b), []);
  }

  /** The steps of an open that nothing interrupts are the whole operation. */
  lemma OpenInSteps(m: Machine, pinsSelected: bool, script: seq<seq<Event>>)
    requires m.w.script == [] && !m.removing && m.phase.Closed? && !m.w.d.isOpen
    ensures Act(Act(m, OpenBegin), OpenFinish(pinsSelected, script)).w == Rest(OpenFile(Under(m.w, script), pinsSelected).0)
  {
    hide Activate;
    var claimed := Act(m, OpenBegin);
    assert claimed == m.(w := m.w.(d := m.w.d.(isOpen := true)), phase := Claimed);
    assert Under(claimed.w, script) == Under(m.w, script).(d := m.w.d.(isOpen := true));
    assert m.w.d.(isOpen := true).(isOpen := false) == m.w.d;
  }

  lemma ReleaseInSteps(m: Machine, script: seq<seq<Event>>)
    requires m.w.script == [] && !m.removing && m.phase.Opened?
    ensures Act(Act(m, ReleaseBegin(script)), ReleaseEnd).w == Rest(ReleaseFile(Under(m.w, script)))
  {
    hide Deactivate;
  }

  lemma RemoveInSteps(m: Machine, script: seq<seq<Event>>)
    requires m.w.script == [] && !m.removing && !m.w.d.dead
    ensures Act(Act(m, RemoveBegin), RemoveEnd(script)).w == Rest(RemoveDevice(Under(m.w, script)))
  {
    hide Deactivate;
    var marked := Act(m, RemoveBegin);
    assert marked == m.(w := m.w.(d := m.w.d.(dead := true)), removing := true);
    assert Under(marked.w, script) == Under(m.w, script).(d := m.w.d.(dead := true));
  }

  /**
   How the device is found when it is probed: the peripheral in any mode, perhaps in the middle of a write, with
   traffic left over from before. The READY line is requested as an output that is released.
   */
  datatype Setup = Setup(hasReady: bool, address: nat, hw: Hw, script: seq<seq<Event>>) {
    predicate Plausible() {
      && |hw.txFifo| <= FIFO_SIZE && (hw.serializer.None? ==> hw.txFifo == [])
      && (hw.rxBusy ==> hw.cr == CR_I2C_TARGET) && !hw.ready
    }
  }

  /** The zeroed driver and the peripheral as it is found. */
  function Found(s: Setup): World {
    var d := Driver(s.hasReady, s.address, [], false, [], [], 0, false, 0, 0, false, false, false, false, NO_STATS, 0);
    var rx := RxLog([], [], [], [0], s.hw.rxFifo, {}, {}, QUIET_BUS);
    World(d, s.hw, rx, OwnLog([], [], [], 0, 0, 0), WireLog(s.hw.TxContents(), [], [], 0, false, []), [], 0, s.script)
  }

  /** Probing switches the peripheral off. */
  function Boot(s: Setup): Machine {
    Machine(Rest(Disable(Found(s))), Closed, false)
  }

  /** The device after any run. */
  function Reach(s: Setup, actions: seq<Action>): Machine {
    Run(Boot(s), actions)
  }

  /** An inactive device is electrically idle, holds READY released and keeps no traffic. */
  ghost predicate Idle(w: World) {
    && w.h.cr == 0 && w.h.imsc == 0 && w.h.slv == 0 && !w.h.ready
    && w.d.work == [] && w.d.queue == [] && w.d.tx == [] && !w.d.queued && !w.d.workerPending
  }

  ghost predicate WorldSafe(w: World) {
    && Inv(w, false)
    && (w.d.active ==> Operational(w))
    && (!w.d.active ==> Idle(w))
  }

  /** At most one open; active only while open; a removed device is never active. */
  ghost predicate Life(d: Driver, phase: Phase, removing: bool) {
    && d.isOpen == !phase.Closed?
    && (d.active ==> phase.Opened?)
    && (d.dead && d.active ==> removing)
    && (removing ==> d.dead)
  }

  ghost predicate Safe(m: Machine) {
    Life(m.w.d, m.phase, m.removing) && WorldSafe(m.w)
  }

  lemma ScriptIsFree(w: World, script: seq<seq<Event>>)
    requires WorldSafe(w)
    ensures WorldSafe(w.(script := script))
  {
    hide RxInv, SentInv, SignalInv, RecordsInv, OwnInv, TxInv, EdgeInv, InterruptMask;
  }

  lemma BusIsSafe(w: World, events: seq<Event>)
    requires WorldSafe(w)
    ensures WorldSafe(HappenAll(w, events)) && HappenAll(w, events).d == w.d
  {
    HappenAllKeeps(w, events, false);
    HappenAllIsBusOnly(w, events);
    hide Inv, HappenAll;
  }

  lemma CountingIsSafe(w: World, stats: Stats, recoveries: nat)
    requires WorldSafe(w)
    ensures WorldSafe(w.(d := w.d.(stats := stats, recoveries := recoveries)))
  {
    StatsAreFree(w, stats, recoveries, w.h.overrun, w.h.underrun, false);
    hide Inv;
    assert w.(d := w.d.(stats := stats, recoveries := recoveries)) ==
           w.(d := w.d.(stats := stats, recoveries := recoveries), h := w.h.(overrun := w.h.overrun, underrun := w.h.underrun));
  }

  lemma ServiceIsSafe(w: World)
    requires WorldSafe(w) && w.d.active
    ensures WorldSafe(Service(w)) && SameLife(w, Service(w))
  {
    hide Inv, Service, Operational;
    ServiceReady(w);
  }

  lemma IrqIsSafe(w: World, pending: bool)
    requires WorldSafe(w)
    ensures WorldSafe(Irq(w, pending)) && SameLife(w, Irq(w, pending))
  {
    if pending && w.d.active {
      var counted := CountInterrupt(w);
      CountingIsSafe(w, counted.d.stats, w.d.recoveries);
      assert counted == w.(d := w.d.(stats := counted.d.stats, recoveries := w.d.recoveries));
      hide Inv, Service, Touch, InterruptMask;
      ServiceIsSafe(counted);
      RegisterWritesKeep(Service(counted), 0);
    }
  }

  lemma TimerIsSafe(w: World)
    requires WorldSafe(w)
    ensures WorldSafe(Timer(w)) && SameLife(w, Timer(w))
  {
    if !w.d.dead && w.d.active {
      var counted := CountTimer(w);
      CountingIsSafe(w, counted.d.stats, w.d.recoveries);
      assert counted == w.(d := w.d.(stats := counted.d.stats, recoveries := w.d.recoveries));
      hide WorldSafe, Service;
      ServiceIsSafe(counted);
    }
  }

  lemma ReadIsSafe(w: World, capacity: nat)
    requires WorldSafe(w)
    ensures WorldSafe(ReadMessage(w, capacity).0) && SameLife(w, ReadMessage(w, capacity).0)
  {
    ReadKeeps(w, capacity);
    ReadFrame(w, capacity);
    hide Inv, InterruptMask;
  }

  lemma WriteIsSafe(w: World, data: seq<byte>)
    requires WorldSafe(w)
    ensures WorldSafe(QueueResponse(w, data).0) && SameLife(w, QueueResponse(w, data).0)
  {
    hide Inv, PublishResponse, Operational;
    if data != [] && |data| <= MAX_TRANSFER && !w.d.dead && w.d.active {
      PublishKeeps(w, data);
    }
  }

  lemma RecoverIsSafe(w: World)
    requires WorldSafe(w)
    ensures WorldSafe(RecoverIoctl(w).0) && SameLife(w, RecoverIoctl(w).0)
  {
    hide Inv, RecoverResponse, Operational;
    if !w.d.dead && w.d.active {
      RecoverResponseKeeps(w);
    }
  }

  lemma LifecycleIsFree(w: World, active: bool, dead: bool, isOpen: bool)
    requires Inv(w, false)
    ensures Inv(w.(d := w.d.(active := active, dead := dead, isOpen := isOpen)), false)
  {
    hide RxInv, SentInv, SignalInv, RecordsInv, OwnInv, TxInv, EdgeInv;
    var d := w.d.(active := active, dead := dead, isOpen := isOpen);
    BusyInTarget(w.d, w.h, w.rx);
    SameWorkKeepsRx(w.d, d, w.h, w.h, w.rx);
    SameQueueKeepsRecords(w.d, d, w.rx, w.own);
    SameTurnKeepsPromises(w.d, d, w.h.ready, w.rx, w.own, w.edges, false);
    SameReplyKeepsTx(w.d, d, w.h, w.h, w.wire);
  }

  lemma ActivateIsSafe(w: World)
    requires Inv(w, false) && w.h.cr != CR_I2C_TARGET
    ensures var after := Activate(w);
            && Inv(after, false) && Operational(after) && after.d.active
            && after.d.dead == w.d.dead && after.d.isOpen == w.d.isOpen
  {
    ResetKeeps(w);
    var reset := ResetIo(w);
    LifecycleIsFree(reset, true, reset.d.dead, reset.d.isOpen);
    hide Inv, ResetIo, Configure;
    var activated := reset.(d := reset.d.(active := true));
    assert activated == reset.(d := reset.d.(active := true, dead := reset.d.dead, isOpen := reset.d.isOpen));
    ConfigureKeeps(activated);
  }

  /** `Disable` works on a device whose response, if any, is not forgotten until the registers are off. */
  lemma DisableIsSafe(w: World)
    requires Inv(w, false)
    ensures var after := Disable(w);
            && Inv(after, false) && Idle(after) && SameLife(w, after)
  {
    hide Inv, WriteCr, WriteImsc, WriteSlv, WriteRsr, ResetIo, Touch;
    RegisterWritesKeep(w, 0);
    var masked := WriteImsc(w, 0);
    SwitchOffKeeps(masked);
    var off := WriteCr(masked, 0);
    RegisterWritesKeep(off, 0);
    RegisterWritesKeep(WriteRsr(off), 0);
    var silent := WriteSlv(WriteRsr(off), 0);
    ResetKeeps(silent);
  }

  /** Switching off is no enable transition: the transmit side is untouched. */
  lemma SwitchOffKeeps(w: World)
    requires Inv(w, false)
    ensures Inv(WriteCr(w, 0), false) && WriteCr(w, 0).d == w.d
    ensures WriteCr(w, 0).h.cr == 0 && WriteCr(w, 0).h.imsc == w.h.imsc
  {
    hide Tick, Inv, CutShort;
    TickKeeps(w, false);
    TickIsBusOnly(w);
    var t := Tick(w);
    if t.h.rxBusy {
      CutShortKeeps(t);
    }
    CutShortFrame(t);
    SetCrFrame(t, 0);
    var cut := if t.h.rxBusy then CutShort(t) else t;
    ModeIsFree(cut, 0);
  }

  lemma ModeIsFree(w: World, value: nat)
    requires Inv(w, false) && !w.h.rxBusy
    ensures Inv(w.(h := w.h.(cr := value)), false)
  {
    hide RxInv, SentInv, SignalInv, RecordsInv, OwnInv, EdgeInv, TxInv;
    var h := w.h.(cr := value);
    SameWorkKeepsRx(w.d, w.d, w.h, h, w.rx);
    SameReplyKeepsTx(w.d, w.d, w.h, h, w.wire);
  }

  lemma DeactivateIsSafe(w: World)
    requires Inv(w, false) && w.d.active
    ensures var after := Deactivate(w);
            && Inv(after, false) && Idle(after) && !after.d.active
            && after.d.dead == w.d.dead && after.d.isOpen == w.d.isOpen
  {
    LifecycleIsFree(w, false, w.d.dead, w.d.isOpen);
    hide Inv, Disable;
    var inactive := w.(d := w.d.(active := false));
    assert inactive == w.(d := w.d.(active := false, dead := w.d.dead, isOpen := w.d.isOpen));
    DisableIsSafe(inactive);
  }

  lemma NothingReceived(d: Driver, h: Hw, rx: RxLog)
    requires d.work == [] && !d.overflowed && (h.rxBusy ==> h.cr == CR_I2C_TARGET)
    requires rx == RxLog([], [], [], [0], h.rxFifo, {}, {}, QUIET_BUS)
    ensures RxInv(d, h, rx)
  {
    NothingOpen(rx);
    hide NoEmptyBurst, Ended, OpenWrites;
    assert Ended(rx) + [] == [] + h.rxFifo;
  }

  lemma NothingOpen(rx: RxLog)
    requires rx.writes == [] && rx.cuts == [0]
    ensures CutsOk(rx) && NoEmptyBurst(rx) && Ended(rx) == rx.leftover
  {
    assert OpenWrites(rx) == [];
    assert rx.leftover + [] == rx.leftover;
  }

  lemma FoundIsSound(s: Setup)
    requires s.Plausible()
    ensures Inv(Found(s), false)
  {
    var w := Found(s);
    NothingReceived(w.d, w.h, w.rx);
    assert w.wire.stale + [] == [] + w.h.TxContents();
    assert OwnInv(w.d, false, w.rx, w.own, false) by {
      hide CutsOk;
    }
    hide RxInv, SentInv, SignalInv, OwnInv;
  }

  lemma BootIsSafe(s: Setup)
    requires s.Plausible()
    ensures Safe(Boot(s))
  {
    FoundIsSound(s);
    hide Inv, Disable;
    DisableIsSafe(Found(s));
    ScriptKeeps(Disable(Found(s)), []);
  }

  lemma SwitchIsSafe(w: World, dead: bool, isOpen: bool)
    requires WorldSafe(w)
    ensures WorldSafe(w.(d := w.d.(dead := dead, isOpen := isOpen)))
  {
    LifecycleIsFree(w, w.d.active, dead, isOpen);
    hide Inv;
    assert w.(d := w.d.(dead := dead, isOpen := isOpen)) == w.(d := w.d.(active := w.d.active, dead := dead, isOpen := isOpen));
  }

  lemma OpeningIsSafe(m: Machine, a: Action)
    requires Safe(m) && (a.OpenBegin? || a.OpenFinish?)
    ensures Safe(Act(m, a))
  {
    hide WorldSafe, Activate;
    var (w, d) := (m.w, m.w.d);
    SwitchIsSafe(w, d.dead, true);
    SwitchIsSafe(w, d.dead, false);
    assert d.(isOpen := true) == d.(dead := d.dead, isOpen := true);
    assert d.(isOpen := false) == d.(dead := d.dead, isOpen := false);
    if a.OpenFinish? && m.phase.Claimed? {
      ActivatedIsSafe(w, a.script);
    }
  }

  lemma ActivatedIsSafe(w: World, script: seq<seq<Event>>)
    requires WorldSafe(w) && !w.d.active
    ensures var after := Rest(Activate(Under(w, script)));
            WorldSafe(after) && after.d.active && after.d.dead == w.d.dead && after.d.isOpen == w.d.isOpen
  {
    ScriptIsFree(w, script);
    hide Inv, Activate, Operational;
    ActivateIsSafe(Under(w, script));
    ScriptIsFree(Activate(Under(w, script)), []);
  }

  /** Deactivation, which does nothing to an inactive device. */
  lemma DeactivatedIsSafe(w: World, script: seq<seq<Event>>)
    requires WorldSafe(w)
    ensures var after := Rest(Deactivate(Under(w, script)));
            WorldSafe(after) && !after.d.active && after.d.dead == w.d.dead && after.d.isOpen == w.d.isOpen
  {
    ScriptIsFree(w, script);
    hide Inv, Disable, Operational;
    if w.d.active {
      DeactivateIsSafe(Under(w, script));
    }
    ScriptIsFree(Deactivate(Under(w, script)), []);
  }

  lemma ClosingIsSafe(m: Machine, a: Action)
    requires Safe(m) && (a.ReleaseBegin? || a.ReleaseEnd? || a.RemoveBegin? || a.RemoveEnd?)
    ensures Safe(Act(m, a))
  {
    hide WorldSafe, Deactivate;
    var (w, d) := (m.w, m.w.d);
    SwitchIsSafe(w, d.dead, false);
    SwitchIsSafe(w, true, d.isOpen);
    assert d.(isOpen := false) == d.(dead := d.dead, isOpen := false);
    assert d.(dead := true) == d.(dead := true, isOpen := d.isOpen);
    if a.ReleaseBegin? || a.RemoveEnd? {
      DeactivatedIsSafe(w, a.script);
    }
  }

  lemma OperatingIsSafe(m: Machine, a: Action)
    requires Safe(m) && (a.Interrupt? || a.TimerRun? || a.Write? || a.RecoverRequest?)
    ensures Safe(Act(m, a))
  {
    hide WorldSafe, Irq, Timer, QueueResponse, RecoverIoctl;
    ScriptIsFree(m.w, a.script);
    var w := Under(m.w, a.script);
    match a
    case Interrupt(pending, _) => IrqIsSafe(w, pending); ScriptIsFree(Irq(w, pending), []);
    case TimerRun(_) => TimerIsSafe(w); ScriptIsFree(Timer(w), []);
    case Write(data, _) => WriteIsSafe(w, data); ScriptIsFree(QueueResponse(w, data).0, []);
    case RecoverRequest(_) => RecoverIsSafe(w); ScriptIsFree(RecoverIoctl(w).0, []);
  }

  lemma ActIsSafe(m: Machine, a: Action)
    requires Safe(m)
    ensures Safe(Act(m, a))
  {
    match a
    case Interrupt(_, _) => OperatingIsSafe(m, a);
    case TimerRun(_) => OperatingIsSafe(m, a);
    case Write(_, _) => OperatingIsSafe(m, a);
    case RecoverRequest(_) => OperatingIsSafe(m, a);
    case Bus(events) =>
      hide WorldSafe, HappenAll;
      BusIsSafe(m.w, events);
    case Read(capacity) =>
      hide WorldSafe, ReadMessage;
      ReadIsSafe(m.w, capacity);
    case Clear =>
      hide WorldSafe;
      CountingIsSafe(m.w, NO_STATS, 0);
    case OpenBegin => OpeningIsSafe(m, a);
    case OpenFinish(_, _) => OpeningIsSafe(m, a);
    case _ => ClosingIsSafe(m, a);
  }

  /** Safe in every run: any interleaving of operations, with any bus traffic inside and between them. */
  lemma {:induction false} RunIsSafe(m: Machine, actions: seq<Action>)
    requires Safe(m)
    ensures Safe(Run(m, actions))
    decreases |actions|
  {
    hide Act, Safe;
    if actions == [] {
    } else {
      ActIsSafe(m, actions[0]);
      RunIsSafe(Act(m, actions[0]), actions[1..]);
    }
  }

  lemma EveryRunIsSafe(s: Setup, actions: seq<Action>)
    requires s.Plausible()
    ensures Safe(Reach(s, actions))
  {
    BootIsSafe(s);
    RunIsSafe(Boot(s), actions);
  }
}
