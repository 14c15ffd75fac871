/** The purge of the transmit path. */
module BscPurge {
  import opened Bytes
  import opened BscWorld
  import opened BscDriver
  import opened BscActions

  /** Out of target mode the controller clocks nothing: the transmit side stands still. */
  lemma {:induction false} EventsOutOfTarget(w: World, events: seq<Event>)
    requires w.h.cr != CR_I2C_TARGET
    ensures HappenAll(w, events).h.TxContents() == w.h.TxContents() && HappenAll(w, events).h.cr == w.h.cr
    decreases |events|
  {
    if events != [] {
      assert Happen(w, events[0]).h.TxContents() == w.h.TxContents() && Happen(w, events[0]).h.cr == w.h.cr;
      hide Happen;
      EventsOutOfTarget(Happen(w, events[0]), events[1..]);
    }
  }

  lemma TickOutOfTarget(w: World)
    requires w.h.cr != CR_I2C_TARGET
    ensures Tick(w).h.TxContents() == w.h.TxContents() && Tick(w).h.cr == w.h.cr
  {
    if w.script != [] {
      EventsOutOfTarget(w.(script := w.script[1..]), w.script[0]);
    }
  }

  /** In target mode the controller takes bytes from the front, and nothing is added. */
  lemma {:induction false} EventsConsume(w: World, events: seq<Event>)
    requires w.h.serializer.None? ==> w.h.txFifo == []
    ensures var (before, after) := (w.h, HappenAll(w, events).h);
            && |after.TxContents()| <= |before.TxContents()|
            && (after.serializer.None? ==> after.txFifo == [])
    decreases |events|
  {
    if events != [] {
      EventConsumes(w, events[0]);
      hide Happen;
      EventsConsume(Happen(w, events[0]), events[1..]);
    }
  }

  lemma EventConsumes(w: World, e: Event)
    requires w.h.serializer.None? ==> w.h.txFifo == []
    ensures var (before, after) := (w.h, Happen(w, e).h);
            && |after.TxContents()| <= |before.TxContents()|
            && (after.serializer.None? ==> after.txFifo == [])
  {
    match e
    case Clock =>
    case _ =>
  }

  lemma TickConsumes(w: World)
    requires w.h.serializer.None? ==> w.h.txFifo == []
    ensures var (before, after) := (w.h, Tick(w).h);
            && |after.TxContents()| <= |before.TxContents()|
            && (after.serializer.None? ==> after.txFifo == [])
  {
    if w.script != [] {
      EventsConsume(w.(script := w.script[1..]), w.script[0]);
    }
  }

  function Drop(s: seq<byte>, n: nat): seq<byte> {
    if n <= |s| then s[n..] else []
  }

  lemma ShiftDropsOne(h: Hw)
    requires h.serializer.None? ==> h.txFifo == []
    ensures h.Shifted().TxContents() == Drop(h.TxContents(), 1)
    ensures h.Shifted().serializer.None? ==> h.Shifted().txFifo == []
  {
  }

  lemma DropTwice(s: seq<byte>, n: nat)
    ensures Drop(Drop(s, 1), n) == Drop(s, n + 1)
  {
  }

  lemma WriteCrOutOfTarget(w: World, value: nat)
    requires w.h.cr != CR_I2C_TARGET && (w.h.serializer.None? ==> w.h.txFifo == [])
    ensures var after := WriteCr(w, value);
            && after.h.cr == value && after.d == w.d
            && (after.h.serializer.None? ==> after.h.txFifo == [])
            && after.h.TxContents() == if w.h.cr % 2 == 0 && value % 2 == 1 then Drop(w.h.TxContents(), 1) else w.h.TxContents()
  {
    TickOutOfTarget(w);
    TickConsumes(w);
    TickIsBusOnly(w);
    var t := Tick(w);
    ShiftDropsOne(t.h);
    SetCrFrame(t, value);
    SetCrOrder(t, value);
    hide Tick, SetCr, Drop;
  }

  lemma SetCrOrder(w: World, value: nat)
    requires w.h.serializer.None? ==> w.h.txFifo == []
    ensures SetCr(w, value).h.serializer.None? ==> SetCr(w, value).h.txFifo == []
  {
    var base := if w.h.rxBusy && value != CR_I2C_TARGET then CutShort(w) else w;
    assert base.h.serializer == w.h.serializer && base.h.txFifo == w.h.txFifo;
    hide CutShort;
  }

  /** Every disable/enable transition discards one byte, whatever the bus does meanwhile. */
  lemma {:induction false} TransitionsDiscard(w: World, count: nat)
    requires w.h.cr == 0 && (w.h.serializer.None? ==> w.h.txFifo == [])
    ensures Transitions(w, count).h.TxContents() == Drop(w.h.TxContents(), count)
    decreases count
  {
    hide WriteCr, Drop;
    if count == 0 {
      DropNothing(w.h.TxContents());
    } else {
      var enabled := WriteCr(w, CR_EN + CR_TXE);
      WriteCrOutOfTarget(w, CR_EN + CR_TXE);
      WriteCrOutOfTarget(enabled, 0);
      TransitionsDiscard(WriteCr(enabled, 0), count - 1);
      DropTwice(w.h.TxContents(), count - 1);
    }
  }

  lemma DropNothing(s: seq<byte>)
    ensures Drop(s, 0) == s
  {
  }

  /** TXFLEVEL transitions would leave the serializer byte behind: they suffice only if there is none. */
  lemma LevelAloneIsNotEnough(w: World)
    requires w.h.cr == 0 && (w.h.serializer.None? ==> w.h.txFifo == [])
    ensures Transitions(w, |w.h.txFifo|).h.TxContents() == [] <==> w.h.serializer.None?
    ensures Transitions(w, |w.h.txFifo| + 1).h.TxContents() == []
  {
    TransitionsDiscard(w, |w.h.txFifo|);
    TransitionsDiscard(w, |w.h.txFifo| + 1);
  }

  lemma LeavingTargetConsumes(w: World)
    requires w.h.serializer.None? ==> w.h.txFifo == []
    ensures var after := WriteCr(w, 0);
            && after.h.cr == 0 && |after.h.TxContents()| <= |w.h.TxContents()|
            && (after.h.serializer.None? ==> after.h.txFifo == [])
  {
    TickConsumes(w);
    SetCrFrame(Tick(w), 0);
    SetCrOrder(Tick(w), 0);
    hide Tick, SetCr;
  }

  /** The level is read before the mode is left: what the controller takes in between only helps. */
  lemma PurgeEmpties(w: World)
    requires w.h.serializer.None? ==> w.h.txFifo == []
    ensures PurgeTxFifo(w).h.TxContents() == [] && PurgeTxFifo(w).h.cr == 0
  {
    TickConsumes(w);
    hide Tick, WriteCr, Transitions;
    var seen := ReadFr(w);
    LeavingTargetConsumes(seen);
    var off := WriteCr(seen, 0);
    TransitionsDiscard(off, |seen.h.txFifo| + 1);
    TransitionsLeaveOff(off, |seen.h.txFifo| + 1);
  }

  lemma {:induction false} TransitionsLeaveOff(w: World, count: nat)
    requires w.h.cr == 0
    ensures Transitions(w, count).h.cr == 0
    decreases count
  {
    hide WriteCr;
    if count > 0 {
      var enabled := WriteCr(w, CR_EN + CR_TXE);
      ModeIsSet(enabled, 0);
      TransitionsLeaveOff(WriteCr(enabled, 0), count - 1);
    }
  }

  lemma ModeIsSet(w: World, value: nat)
    ensures WriteCr(w, value).h.cr == value
  {
    SetCrFrame(Tick(w), value);
    hide Tick, SetCr;
  }

  /** Reconfiguring a peripheral leaves nothing for the controller to read. */
  lemma ConfigureEmpties(w: World)
    requires w.h.serializer.None? ==> w.h.txFifo == []
    ensures Configure(w).h.TxContents() == []
  {
    var masked := WriteImsc(w, 0);
    TickConsumes(w);
    PurgeEmpties(masked);
    hide PurgeTxFifo, Tick;
    var purged := PurgeTxFifo(masked);
    StaysEmpty(purged);
    StaysEmpty(WriteRsr(purged));
    var addressed := WriteSlv(WriteRsr(purged), purged.d.address);
    StaysEmpty(addressed);
    StaysEmpty(Touch(addressed));
    var touched := Touch(Touch(addressed));
    StaysEmpty(touched);
    StaysEmpty(WriteCr(touched, CR_I2C_TARGET));
  }

  lemma StaysEmpty(w: World)
    requires w.h.TxContents() == []
    ensures Tick(w).h.TxContents() == []
    ensures forall value :: WriteImsc(w, value).h.TxContents() == []
    ensures forall value :: WriteSlv(w, value).h.TxContents() == []
    ensures forall value :: WriteCr(w, value).h.TxContents() == []
    ensures WriteRsr(w).h.TxContents() == [] && Touch(w).h.TxContents() == []
  {
    TickConsumes(w);
    hide Tick;
  }

  // ---- What a purge and a reconfiguration leave alone ----

  /** Driver, books and READY are untouched, and `purges` transmit purges were made. */
  ghost predicate OnlyHardware(w: World, after: World, purges: nat) {
    && after.d == w.d && after.own == w.own && after.edges == w.edges && after.h.ready == w.h.ready
    && after.purges == w.purges + purges
  }

  lemma HardwareSelf(w: World)
    ensures OnlyHardware(w, w, 0)
  {
  }

  lemma HardwareChain(a: World, b: World, c: World, first: nat, second: nat)
    requires OnlyHardware(a, b, first) && OnlyHardware(b, c, second)
    ensures OnlyHardware(a, c, first + second)
  {
  }

  lemma RegisterFrames(w: World, value: nat)
    ensures OnlyHardware(w, Tick(w), 0) && OnlyHardware(w, WriteImsc(w, value), 0) && OnlyHardware(w, WriteSlv(w, value), 0)
    ensures OnlyHardware(w, WriteRsr(w), 0) && OnlyHardware(w, WriteCr(w, value), 0)
  {
    TickIsBusOnly(w);
    SetCrFrame(Tick(w), value);
    hide Tick, SetCr;
  }

  lemma {:induction false} TransitionsFrame(w: World, count: nat)
    ensures OnlyHardware(w, Transitions(w, count), 0)
    decreases count
  {
    hide WriteCr, OnlyHardware, WriteImsc, WriteSlv, WriteRsr, Tick;
    if count == 0 {
      HardwareSelf(w);
    } else {
      var enabled := WriteCr(w, CR_EN + CR_TXE);
      var off := WriteCr(enabled, 0);
      RegisterFrames(w, CR_EN + CR_TXE);
      RegisterFrames(enabled, 0);
      TransitionsFrame(off, count - 1);
      HardwareChain(w, enabled, off, 0, 0);
      HardwareChain(w, off, Transitions(off, count - 1), 0, 0);
    }
  }

  lemma PurgeFrame(w: World)
    ensures OnlyHardware(w, PurgeTxFifo(w), 1)
  {
    hide Tick, WriteCr, Transitions;
    var seen := ReadFr(w);
    RegisterFrames(w, 0);
    RegisterFrames(seen, 0);
    TransitionsFrame(WriteCr(seen, 0), FlagsOf(seen.h).txLevel + 1);
  }

  lemma ConfigureFrame(w: World)
    ensures OnlyHardware(w, Configure(w), 1)
  {
    hide OnlyHardware, Tick, PurgeTxFifo, WriteCr, WriteImsc, WriteSlv, WriteRsr;
    var masked := WriteImsc(w, 0);
    var purged := PurgeTxFifo(masked);
    var cleared := WriteRsr(purged);
    var addressed := WriteSlv(cleared, purged.d.address);
    var touched := Tick(Tick(addressed));
    var enabled := WriteCr(touched, CR_I2C_TARGET);
    RegisterFrames(w, 0);
    PurgeFrame(masked);
    HardwareChain(w, masked, purged, 0, 1);
    RegisterFrames(purged, 0);
    HardwareChain(w, purged, cleared, 1, 0);
    RegisterFrames(cleared, purged.d.address);
    HardwareChain(w, cleared, addressed, 1, 0);
    RegisterFrames(addressed, 0);
    HardwareChain(w, addressed, Tick(addressed), 1, 0);
    RegisterFrames(Tick(addressed), 0);
    HardwareChain(w, Tick(addressed), touched, 1, 0);
    RegisterFrames(touched, CR_I2C_TARGET);
    HardwareChain(w, touched, enabled, 1, 0);
    RegisterFrames(enabled, InterruptMask(enabled.d));
    HardwareChain(w, enabled, SetInterrupts(enabled), 1, 0);
  }

  lemma RecoverFrame(w: World)
    ensures var after := Recover(w);
            && after.own == w.own && after.purges == w.purges + 1
            && after.d == w.d.(queued := false, tx := [], loaded := 0, recoveries := w.d.recoveries + 1)
  {
    hide Configure, SetReady;
    var forgotten := w.(d := w.d.(queued := false, tx := [], loaded := 0));
    ConfigureFrame(forgotten);
    var configured := Configure(forgotten);
    SetReadyIsSteady(configured.(d := configured.d.(recoveries := configured.d.recoveries + 1)), false, Release);
  }
}
