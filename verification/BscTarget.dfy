/**
 The driver in the form of its source: the fields of `struct bsc_target` updated in place, and one method for
 each function that runs under the lock. Each method is proved to be the function of the same name.
 */
module BscTargets {
  import opened Bytes
  import opened BscWorld
  import opened BscRing
  import D = BscDriver
  import M = BscMachine
  import opened BscActions

  /** The hardware by itself. */
  function Bare(h: Hw, script: seq<seq<Event>>): World {
    World(Driver(false, 0, [], false, [], [], 0, false, 0, 0, false, false, false, false, NO_STATS, 0), h,
          RxLog([], [], [], [], [], {}, {}, QUIET_BUS), OwnLog([], [], [], 0, 0, 0), WireLog([], [], [], 0, false, []),
          [], 0, script)
  }

  /** What the hardware does depends on the hardware and the bus alone. */
  lemma {:induction false} EventsAreHardware(w: World, v: World, events: seq<Event>)
    requires w.h == v.h && w.script == v.script
    ensures HappenAll(w, events).h == HappenAll(v, events).h && HappenAll(w, events).script == HappenAll(v, events).script
    decreases |events|
  {
    if events != [] {
      EventIsHardware(w, v, events[0]);
      hide Happen, TailOk;
      EventsAreHardware(Happen(w, events[0]), Happen(v, events[0]), events[1..]);
    }
  }

  lemma EventIsHardware(w: World, v: World, e: Event)
    requires w.h == v.h && w.script == v.script
    ensures Happen(w, e).h == Happen(v, e).h && Happen(w, e).script == Happen(v, e).script
  {
    match e
    case Start =>
    case Send(b) =>
    case Stop =>
    case Clock =>
  }

  lemma TickIsHardware(w: World)
    ensures Tick(w).h == Tick(Bare(w.h, w.script)).h && Tick(w).script == Tick(Bare(w.h, w.script)).script
  {
    if w.script != [] {
      EventsAreHardware(w.(script := w.script[1..]), Bare(w.h, w.script[1..]), w.script[0]);
    }
  }

  /** A bus step changes the hardware, the script and two logs. */
  lemma TickTouches(w: World)
    ensures var after := Tick(w); after == w.(h := after.h, rx := after.rx, wire := after.wire, script := after.script)
  {
    BscWorld.TickIsBusOnly(w);
    hide Tick;
  }

  lemma ModeIsHardware(w: World, value: nat)
    ensures SetCr(w, value).h == SetCr(Bare(w.h, w.script), value).h
    ensures var after := SetCr(w, value); after == w.(h := after.h, rx := after.rx, wire := after.wire)
  {
  }

  lemma PutIsHardware(w: World, b: byte)
    ensures PutDr(w, b).h == PutDr(Bare(w.h, w.script), b).h
    ensures var after := PutDr(w, b); after == w.(h := after.h, wire := after.wire)
  {
  }

  lemma BeginBurstIs(w: World)
    ensures var d := w.d.(requestGeneration := w.d.requestGeneration + 1, queued := false);
            D.BeginBurst(w) ==
            if d.hasReady && d.queue != [] then
              w.(d := d.(stats := d.stats.(rxDropped := d.stats.rxDropped + |d.queue|), queue := []),
                 own := w.own.(ids := [], lost := w.own.lost + |d.queue|))
            else
              w.(d := d)
  {
  }

  /** The line is driven. */
  function Driven(w: World, ready: bool, edge: Edge): World {
    w.(h := w.h.(ready := ready), edges := w.edges + [edge])
  }

  lemma ReadyIs(w: World, ready: bool, edge: Edge)
    ensures BscWorld.SetReady(w, ready, edge) == if w.d.hasReady then Signalled(Driven(Tick(w), ready, edge), edge) else w
  {
    hide Tick, Signalled;
  }

  lemma SignalIsLogged(w: World, edge: Edge)
    ensures Signalled(w, edge) == w.(wire := Signalled(w, edge).wire)
  {
  }

  lemma NoTransitions(w: World)
    ensures D.Transitions(w, 0) == w
  {
  }

  /** Recovery up to the release of READY. */
  function Reconfigured(w: World): World {
    var configured := D.Configure(w.(d := w.d.(queued := false, tx := [], loaded := 0)));
    configured.(d := configured.d.(recoveries := configured.d.recoveries + 1))
  }

  lemma RecoverIs(w: World)
    ensures D.Recover(w) == BscWorld.SetReady(Reconfigured(w), false, Release)
  {
    hide D.Configure, BscWorld.SetReady;
  }

  /** The burst just ended is queued and counted. */
  function Queued(d: Driver): Driver {
    var full := |d.queue| == RX_SLOTS;
    d.(queue := (if full then d.queue[1..] else d.queue) + [d.work],
       stats := d.stats.(rxDropped := d.stats.rxDropped + (if full then 1 else 0),
                         rxTransactions := d.stats.rxTransactions + 1,
                         rxBytes := d.stats.rxBytes + |d.work|))
  }

  lemma EnqueueIs(w: World)
    ensures D.Enqueue(w) == w.(d := Queued(w.d), own := Noted(w.own, w.rx, |w.d.queue| == RX_SLOTS))
  {
  }

  function KeptOrLost(w: World): World {
    if w.d.overflowed then D.LoseBurst(w) else D.Enqueue(w)
  }

  lemma CloseBurstIs(w: World, cut: nat)
    ensures var ended := KeptOrLost(w.(rx := w.rx.(cuts := w.rx.cuts + [cut], burst := [])));
            D.CloseBurst(w, cut) == ended.(d := ended.d.(work := [], overflowed := false))
  {
    hide D.LoseBurst, D.Enqueue;
  }

  /** The record of the burst just ended is waiting, in place of the oldest if the ring was full. */
  function Noted(own: OwnLog, rx: RxLog, full: bool): OwnLog {
    own.(ids := (if full && own.ids != [] then own.ids[1..] else own.ids) + [if rx.cuts == [] then 0 else |rx.cuts| - 1],
         lost := own.lost + (if full then 1 else 0))
  }

  /** The oldest waiting record has been delivered. */
  function Handed(own: OwnLog, message: seq<byte>): OwnLog {
    own.(ids := if own.ids == [] then [] else own.ids[1..],
         delivered := own.delivered + [Record(if own.ids == [] then 0 else own.ids[0], message)])
  }

  lemma ReadIs(w: World, capacity: nat)
    ensures D.ReadMessage(w, capacity) ==
            if w.d.queue == [] then (w, D.Retry)
            else if capacity < |w.d.queue[0]| then (w, D.EMSGSIZE)
            else
              (w.(d := w.d.(queue := w.d.queue[1..], workerGeneration := w.d.requestGeneration, workerPending := true),
                  own := Handed(w.own, w.d.queue[0])),
               D.Done(|w.d.queue[0]|))
  {
  }

  class BscTarget {
    const readyGpio: bool
    const address: nat
    const rxWork: array<byte>
    const rxSlots: array<seq<byte>>
    const txData: array<byte>

    var isOpen: bool
    var dead: bool
    var active: bool

    var rxWorkLen: nat
    var rxOverflowed: bool
    var recoveries: nat
    var rxHead: nat
    var rxTail: nat
    var rxCount: nat

    var txLen: nat
    var txLoaded: nat
    var txQueued: bool
    var requestGeneration: nat
    var workerGeneration: nat
    var workerPending: bool

    var stats: Stats

    /** The peripheral, and what the bus is going to do to it. */
    var hw: Hw
    var script: seq<seq<Event>>

    /** The record of the run. */
    ghost var rx: RxLog
    ghost var own: OwnLog
    ghost var wire: WireLog
    ghost var edges: seq<Edge>
    ghost var purges: nat

    ghost predicate Valid()
      reads `rxWorkLen, `rxHead, `rxTail, `rxCount, `txLen, `txLoaded
    {
      && rxWork.Length == MAX_TRANSFER && rxSlots.Length == RX_SLOTS && txData.Length == MAX_TRANSFER
      && rxWork != txData
      && rxWorkLen <= MAX_TRANSFER && txLoaded <= txLen <= MAX_TRANSFER
      && rxHead < RX_SLOTS && rxCount <= RX_SLOTS && TailOk(rxHead, rxCount, rxTail)
    }

    /** The burst in progress, as far as it fits. */
    ghost function Work(): (work: seq<byte>)
      requires rxWorkLen <= rxWork.Length
      reads `rxWorkLen, rxWork
      ensures |work| == rxWorkLen
    {
      rxWork[..rxWorkLen]
    }

    /** The records that wait for the reader. */
    ghost function Queue(): (queue: seq<seq<byte>>)
      requires rxSlots.Length == RX_SLOTS && rxHead < RX_SLOTS && rxCount <= RX_SLOTS
      reads `rxHead, `rxCount, rxSlots
      ensures |queue| == rxCount
    {
      Ring(rxSlots[..], rxHead, rxCount)
    }

    /** The response. */
    ghost function Tx(): (tx: seq<byte>)
      requires txLen <= txData.Length
      reads `txLen, txData
      ensures |tx| == txLen
    {
      txData[..txLen]
    }

    /** The driver's fields as a value. */
    ghost function State(): (d: Driver)
      requires Valid()
      ensures d.hasReady == readyGpio && d.address == address && |d.work| == rxWorkLen && |d.queue| == rxCount
      ensures d.requestGeneration == requestGeneration && d.overflowed == rxOverflowed && d.workerPending == workerPending
      ensures d.active == active && d.dead == dead
      reads `isOpen, `dead, `active, `rxWorkLen, `rxOverflowed, `recoveries, `rxHead, `rxTail, `rxCount,
            `txLen, `txLoaded, `txQueued, `requestGeneration, `workerGeneration, `workerPending, `stats
      reads rxWork, rxSlots, txData
    {
      Driver(readyGpio, address, Work(), rxOverflowed, Queue(), Tx(),
             txLoaded, txQueued, requestGeneration, workerGeneration, workerPending, active, dead, isOpen, stats, recoveries)
    }

    ghost function View(): World
      requires Valid()
      reads this, rxWork, rxSlots, txData
    {
      World(State(), hw, rx, own, wire, edges, purges, script)
    }

    /** Probing: the driver is zeroed, and the peripheral, in whatever state it is found, is switched off. */
    constructor (setup: M.Setup)
      ensures Valid() && View() == D.Disable(M.Found(setup))
      ensures fresh(rxWork) && fresh(rxSlots) && fresh(txData)
    {
      readyGpio, address := setup.hasReady, setup.address;
      rxWork := new byte[MAX_TRANSFER];
      rxSlots := new seq<byte>[RX_SLOTS];
      txData := new byte[MAX_TRANSFER];
      isOpen, dead, active := false, false, false;
      rxWorkLen, rxOverflowed, recoveries := 0, false, 0;
      rxHead, rxTail, rxCount := 0, 0, 0;
      txLen, txLoaded, txQueued := 0, 0, false;
      requestGeneration, workerGeneration, workerPending := 0, 0, false;
      stats := NO_STATS;
      hw, script := setup.hw, setup.script;
      rx := RxLog([], [], [], [0], setup.hw.rxFifo, {}, {}, QUIET_BUS);
      own := OwnLog([], [], [], 0, 0, 0);
      wire := WireLog(setup.hw.TxContents(), [], [], 0, false, []);
      edges, purges := [], 0;
      new;
      hide D.Disable;
      EmptyRing();
      assert View() == M.Found(setup);
      Disable();
    }

    // ---- Registers ----

    method Advance()
      requires Valid()
      modifies this`hw, this`script, this`rx, this`wire
      ensures Valid() && View() == Tick(old(View()))
    {
      hide Tick, State, TailOk;
      ghost var after := Tick(View());
      TickTouches(View());
      TickIsHardware(View());
      var next := Tick(Bare(hw, script));
      hw, script := next.h, next.script;
      rx, wire := after.rx, after.wire;
    }

    method ReadFr() returns (flags: Flags)
      requires Valid()
      modifies this`hw, this`script, this`rx, this`wire
      ensures Valid() && View() == BscWorld.ReadFr(old(View())) && flags == FlagsOf(hw)
    {
      hide Tick, State, TailOk;
      Advance();
      flags := FlagsOf(hw);
    }

    method ReadDr() returns (b: byte)
      requires Valid()
      modifies this`hw, this`script, this`rx, this`wire
      ensures Valid() && (View(), b) == BscWorld.ReadDr(old(View()))
    {
      hide Tick, State, TailOk;
      Advance();
      b := 0;
      if hw.rxFifo != [] {
        b := hw.rxFifo[0];
        hw := hw.(rxFifo := hw.rxFifo[1..]);
      }
    }

    method WriteDr(b: byte)
      requires Valid()
      modifies this`hw, this`script, this`rx, this`wire
      ensures Valid() && View() == BscWorld.WriteDr(old(View()), b)
    {
      hide Tick, PutDr, State, TailOk;
      Advance();
      ghost var after := PutDr(View(), b);
      PutIsHardware(View(), b);
      hw := PutDr(Bare(hw, script), b).h;
      wire := after.wire;
    }

    method WriteCr(value: nat)
      requires Valid()
      modifies this`hw, this`script, this`rx, this`wire
      ensures Valid() && View() == BscWorld.WriteCr(old(View()), value)
    {
      hide Tick, SetCr, State, TailOk;
      Advance();
      ghost var after := SetCr(View(), value);
      ModeIsHardware(View(), value);
      hw := SetCr(Bare(hw, script), value).h;
      rx, wire := after.rx, after.wire;
    }

    method WriteImsc(value: nat)
      requires Valid()
      modifies this`hw, this`script, this`rx, this`wire
      ensures Valid() && View() == BscWorld.WriteImsc(old(View()), value)
    {
      hide Tick, State, TailOk;
      Advance();
      hw := hw.(imsc := value);
    }

    method WriteSlv(value: nat)
      requires Valid()
      modifies this`hw, this`script, this`rx, this`wire
      ensures Valid() && View() == BscWorld.WriteSlv(old(View()), value)
    {
      hide Tick, State, TailOk;
      Advance();
      hw := hw.(slv := value);
    }

    method WriteRsr()
      requires Valid()
      modifies this`hw, this`script, this`rx, this`wire
      ensures Valid() && View() == BscWorld.WriteRsr(old(View()))
    {
      hide Tick, State, TailOk;
      Advance();
      hw := hw.(overrun := false, underrun := false);
    }

    method SetReady(ready: bool, ghost edge: Edge)
      requires Valid()
      modifies this`hw, this`script, this`rx, this`wire, this`edges
      ensures Valid() && View() == BscWorld.SetReady(old(View()), ready, edge)
    {
      hide Tick, State, TailOk, Signalled, Driven, BscWorld.SetReady;
      ReadyIs(View(), ready, edge);
      if readyGpio {
        Advance();
        Drive(ready, edge);
        SignalIsLogged(View(), edge);
        wire := Signalled(View(), edge).wire;
      }
    }

    method Drive(ready: bool, ghost edge: Edge)
      requires Valid()
      modifies this`hw, this`edges
      ensures Valid() && View() == Driven(old(View()), ready, edge)
    {
      hide State, TailOk;
      hw := hw.(ready := ready);
      edges := edges + [edge];
    }

    // ---- Configuration ----

    method SetInterrupts()
      requires Valid()
      modifies this`hw, this`script, this`rx, this`wire
      ensures Valid() && View() == D.SetInterrupts(old(View()))
    {
      hide BscWorld.WriteImsc, TailOk;
      var mask := IRQ_BASE;
      if txQueued && txLoaded < txLen {
        mask := mask + IRQ_TX;
      }
      WriteImsc(mask);
    }

    method Transition(ghost left: nat)
      requires Valid()
      modifies this`hw, this`script, this`rx, this`wire
      ensures Valid() && D.Transitions(View(), left) == D.Transitions(old(View()), left + 1)
    {
      hide BscWorld.WriteCr, State, TailOk;
      WriteCr(CR_EN + CR_TXE);
      WriteCr(0);
    }

    method PurgeTxFifo()
      requires Valid()
      modifies this`hw, this`script, this`rx, this`wire, this`purges
      ensures Valid() && View() == D.PurgeTxFifo(old(View()))
    {
      hide D.Transitions, BscWorld.WriteCr, Tick, State, TailOk;
      var flags := ReadFr();
      WriteCr(0);
      MakeTransitions(flags.txLevel + 1);
      purges := purges + 1;
    }

    method MakeTransitions(total: nat)
      requires Valid()
      modifies this`hw, this`script, this`rx, this`wire
      ensures Valid() && View() == D.Transitions(old(View()), total)
    {
      hide D.Transitions, State, TailOk;
      ghost var target := D.Transitions(View(), total);
      var count := total;
      while count > 0
        invariant Valid() && D.Transitions(View(), count) == target
      {
        Transition(count - 1);
        count := count - 1;
      }
      NoTransitions(View());
    }

    method Configure()
      requires Valid()
      modifies this`hw, this`script, this`rx, this`wire, this`purges
      ensures Valid() && View() == D.Configure(old(View()))
    {
      hide BscWorld.WriteCr, BscWorld.WriteImsc, BscWorld.WriteSlv, BscWorld.WriteRsr, D.PurgeTxFifo, D.SetInterrupts, Tick, TailOk;
      WriteImsc(0);
      PurgeTxFifo();
      WriteRsr();
      WriteSlv(address);
      Advance();
      Advance();
      WriteCr(CR_I2C_TARGET);
      SetInterrupts();
    }

    method EmptyQueue()
      requires Valid()
      modifies this`rxHead, this`rxTail, this`rxCount
      ensures Valid() && State() == old(State()).(queue := [])
    {
      hide Work, Queue, Tx, TailOk;
      rxHead, rxTail, rxCount := 0, 0, 0;
      EmptyRing();
    }

    method ForgetWork()
      requires Valid()
      modifies this`rxWorkLen, this`rxOverflowed
      ensures Valid() && State() == old(State()).(work := [], overflowed := false)
    {
      hide Work, Queue, Tx, TailOk;
      rxWorkLen := 0;
      rxOverflowed := false;
    }

    method ForgetReply()
      requires Valid()
      modifies this`txLen, this`txLoaded
      ensures Valid() && State() == old(State()).(tx := [], loaded := 0)
    {
      hide Work, Queue, Tx, TailOk;
      txLen, txLoaded := 0, 0;
    }

    method ForgetResponse()
      requires Valid()
      modifies this`txLen, this`txLoaded, this`txQueued
      ensures Valid() && State() == old(State()).(queued := false, tx := [], loaded := 0)
    {
      hide Work, Queue, Tx, TailOk;
      txQueued := false;
      ForgetReply();
    }

    method ForgetOwners()
      requires Valid()
      modifies this`requestGeneration, this`workerGeneration, this`workerPending
      ensures Valid()
      ensures State() == old(State()).(requestGeneration := 0, workerGeneration := 0, workerPending := false)
    {
      hide Work, Queue, Tx, TailOk;
      requestGeneration, workerGeneration, workerPending := 0, 0, false;
    }

    method ForgetInput()
      requires Valid()
      modifies this`rxWorkLen, this`rxOverflowed, this`rxHead, this`rxTail, this`rxCount
      ensures Valid() && State() == old(State()).(work := [], overflowed := false, queue := [])
    {
      hide State, TailOk;
      ForgetWork();
      EmptyQueue();
    }

    method ForgetTraffic()
      requires Valid()
      modifies this`rxWorkLen, this`rxOverflowed, this`rxHead, this`rxTail, this`rxCount,
               this`txLen, this`txLoaded, this`txQueued, this`requestGeneration, this`workerGeneration, this`workerPending
      ensures Valid() && State() == Cleared(old(View())).d
    {
      hide State, TailOk;
      ForgetInput();
      ForgetResponse();
      ForgetOwners();
    }

    method ResetIo()
      requires Valid()
      modifies this
      ensures Valid() && View() == D.ResetIo(old(View()))
    {
      hide State, BscWorld.SetReady, D.ResetIo, TailOk;
      ghost var before := View();
      ResetIsRelease(before);
      ForgetTraffic();
      rx := rx.(burst := [], cuts := [|rx.writes|], leftover := hw.rxFifo);
      own := D.Forgotten(own);
      assert View() == Cleared(before);
      SetReady(false, Release);
    }

    method Disable()
      requires Valid()
      modifies this
      ensures Valid() && View() == D.Disable(old(View()))
    {
      hide BscWorld.WriteCr, BscWorld.WriteImsc, BscWorld.WriteSlv, BscWorld.WriteRsr, D.ResetIo, State, TailOk;
      WriteImsc(0);
      WriteCr(0);
      WriteRsr();
      WriteSlv(0);
      ResetIo();
    }

    // ---- Receiving ----

    /** From now on no response of an earlier request can be published. */
    method Invalidate()
      requires Valid()
      modifies this`requestGeneration, this`txQueued
      ensures Valid()
      ensures State() == old(State()).(requestGeneration := old(requestGeneration) + 1, queued := false)
    {
      hide Work, Queue, Tx, TailOk;
      requestGeneration := requestGeneration + 1;
      txQueued := false;
    }

    /** A waiting record is dropped and counted. */
    method DropWaiting()
      requires Valid()
      modifies this`stats, this`rxHead, this`rxTail, this`rxCount, this`own
      ensures Valid()
      ensures var d := old(State()); State() == d.(stats := d.stats.(rxDropped := d.stats.rxDropped + |d.queue|), queue := [])
      ensures own == old(own).(ids := [], lost := old(own).lost + |old(State()).queue|)
    {
      hide Work, Queue, Tx, TailOk;
      stats := stats.(rxDropped := stats.rxDropped + rxCount);
      own := own.(ids := [], lost := own.lost + rxCount);
      EmptyQueue();
    }

    method BeginBurst()
      requires Valid()
      modifies this`requestGeneration, this`txQueued, this`stats, this`rxHead, this`rxTail, this`rxCount, this`own
      ensures Valid() && View() == D.BeginBurst(old(View()))
    {
      hide State, TailOk, D.BeginBurst;
      BeginBurstIs(View());
      Invalidate();
      if readyGpio && rxCount > 0 {
        DropWaiting();
      }
    }

    method StoreByte(b: byte)
      requires Valid()
      modifies this`rxWorkLen, this`rxOverflowed, this`rx, rxWork
      ensures Valid() && View() == D.StoreByte(old(View()), b)
    {
      hide Queue, Tx, TailOk;
      if rxWorkLen < MAX_TRANSFER {
        rxWork[rxWorkLen] := b;
        rxWorkLen := rxWorkLen + 1;
        assert rxWork[..rxWorkLen] == old(rxWork[..rxWorkLen]) + [b];
      } else {
        rxOverflowed := true;
      }
      rx := rx.(burst := rx.burst + [b]);
    }

    method DrainByte()
      requires Valid()
      modifies this, rxWork
      ensures Valid() && View() == D.DrainByte(old(View()))
    {
      hide Tick, BscWorld.ReadDr, D.BeginBurst, D.StoreByte, State, TailOk;
      var b := ReadDr();
      assert View().d.InBurst() == (rxWorkLen > 0 || rxOverflowed);
      if rxWorkLen == 0 && !rxOverflowed {
        BeginBurst();
      }
      StoreByte(b);
    }

    method DrainRx()
      requires Valid()
      modifies this, rxWork
      ensures Valid() && View() == D.DrainRx(old(View()))
    {
      hide Tick, D.DrainByte, State, TailOk;
      ghost var target := D.DrainRx(View());
      var flags := ReadFr();
      while !flags.rxEmpty
        invariant Valid() && flags == FlagsOf(hw)
        invariant target == if flags.rxEmpty then View() else D.DrainRx(D.DrainByte(View()))
        decreases |script|, |hw.rxFifo|
      {
        D.DrainByteShrinks(View());
        DrainByte();
        BscWorld.TickIsBusOnly(View());
        flags := ReadFr();
      }
    }

    // ---- Transmitting ----

    /** The guard of the refill loop, which reads the flags only while there is something to load. */
    method HasRoom() returns (room: bool)
      requires Valid()
      modifies this`hw, this`script, this`rx, this`wire
      ensures Valid() && (room ==> txQueued && txLoaded < txLen)
      ensures D.LoadTx(old(View())) == if room then D.LoadTx(D.WriteNext(View())) else View()
    {
      hide Tick, D.WriteNext, TailOk, Work, Queue, Tx;
      room := false;
      if txQueued && txLoaded < txLen {
        var flags := ReadFr();
        room := !flags.txFull;
      }
    }

    method RefillTx()
      requires Valid()
      modifies this`hw, this`script, this`rx, this`wire, this`txLoaded
      ensures Valid() && View() == D.RefillTx(old(View()))
    {
      hide D.LoadTx, D.WriteNext, D.SetInterrupts, TailOk, Work, Queue, Tx;
      ghost var target := D.LoadTx(View());
      var room := HasRoom();
      while room
        invariant Valid() && (room ==> txQueued && txLoaded < txLen)
        invariant target == if room then D.LoadTx(D.WriteNext(View())) else View()
        decreases txLen - txLoaded, room
      {
        LoadNext();
        room := HasRoom();
      }
      SetInterrupts();
    }

    method LoadNext()
      requires Valid() && txLoaded < txLen
      modifies this`hw, this`script, this`rx, this`wire, this`txLoaded
      ensures Valid() && View() == D.WriteNext(old(View()))
      ensures txLoaded == old(txLoaded) + 1
    {
      assert txData[txLoaded] == View().d.tx[txLoaded];
      hide Tick, PutDr, Queue, Work, Tx, TailOk;
      WriteDr(txData[txLoaded]);
      txLoaded := txLoaded + 1;
    }

    method AckRequest()
      requires Valid()
      modifies this`hw, this`script, this`rx, this`wire, this`edges
      ensures Valid() && View() == D.AckRequest(old(View()))
    {
      hide State, BscWorld.SetReady, TailOk;
      SetReady(true, Ack(requestGeneration));
      SetReady(false, Release);
    }

    // ---- The end of a burst ----

    /** A full ring gives up its oldest record. */
    method DropOldest()
      requires Valid() && rxCount > 0
      modifies this`rxHead, this`rxCount
      ensures Valid() && State() == old(State()).(queue := old(State()).queue[1..]) && rxCount == old(rxCount) - 1
    {
      hide Work, Tx, TailOk, Ring;
      AdvanceRemoves(rxSlots[..], rxHead, rxCount);
      rxHead := Next(rxHead);
      rxCount := rxCount - 1;
    }

    method StoreRecord()
      requires Valid() && rxCount < RX_SLOTS
      modifies this`rxTail, this`rxCount, rxSlots
      ensures Valid() && State() == old(State()).(queue := old(State()).queue + [old(State()).work])
    {
      hide Tx, Ring;
      StoreAppends(rxSlots[..], rxHead, rxCount, rxWork[..rxWorkLen]);
      rxSlots[rxTail] := rxWork[..rxWorkLen];
      assert rxSlots[..] == old(rxSlots[..])[rxTail := rxWork[..rxWorkLen]];
      rxTail := Next(rxTail);
      rxCount := rxCount + 1;
    }

    /** A record goes in at the tail; when all slots are taken, the oldest one makes way. */
    method PushRecord() returns (full: bool)
      requires Valid()
      modifies this`rxHead, this`rxTail, this`rxCount, rxSlots
      ensures Valid() && full == (|old(State()).queue| == RX_SLOTS)
      ensures var d := old(State()); State() == d.(queue := (if full then d.queue[1..] else d.queue) + [d.work])
    {
      hide State, TailOk;
      full := rxCount == RX_SLOTS;
      if full {
        DropOldest();
      }
      StoreRecord();
    }

    method CountRecord(dropped: bool)
      requires Valid()
      modifies this`stats
      ensures Valid()
      ensures var d := old(State());
              State() == d.(stats := d.stats.(rxDropped := d.stats.rxDropped + (if dropped then 1 else 0),
                                              rxTransactions := d.stats.rxTransactions + 1,
                                              rxBytes := d.stats.rxBytes + |d.work|))
    {
      hide Work, Queue, Tx, TailOk;
      if dropped {
        stats := stats.(rxDropped := stats.rxDropped + 1);
      }
      stats := stats.(rxTransactions := stats.rxTransactions + 1, rxBytes := stats.rxBytes + rxWorkLen);
    }

    method Enqueue()
      requires Valid()
      modifies this`stats, this`rxHead, this`rxTail, this`rxCount, this`own, rxSlots
      ensures Valid() && View() == D.Enqueue(old(View()))
    {
      hide State, TailOk, D.Enqueue, Noted, Queued;
      EnqueueIs(View());
      own := Noted(own, rx, rxCount == RX_SLOTS);
      CountAndQueue();
    }

    method CountAndQueue()
      requires Valid()
      modifies this`stats, this`rxHead, this`rxTail, this`rxCount, rxSlots
      ensures Valid() && State() == Queued(old(State()))
    {
      hide State, TailOk;
      var full := PushRecord();
      CountRecord(full);
    }

    method LoseBurst()
      requires Valid()
      modifies this`stats, this`own
      ensures Valid() && View() == D.LoseBurst(old(View()))
    {
      hide Work, Queue, Tx, TailOk;
      stats := stats.(rxOverruns := stats.rxOverruns + 1);
      own := own.(lost := own.lost + 1, overflowed := own.overflowed + 1);
    }

    method CloseBurst(ghost cut: nat)
      requires Valid()
      modifies this`stats, this`rxHead, this`rxTail, this`rxCount, this`rxWorkLen, this`rxOverflowed, this`own, this`rx, rxSlots
      ensures Valid() && View() == D.CloseBurst(old(View()), cut)
    {
      hide State, TailOk, D.CloseBurst, KeptOrLost;
      CloseBurstIs(View(), cut);
      rx := rx.(cuts := rx.cuts + [cut], burst := []);
      KeepOrLose();
      ForgetWork();
    }

    method KeepOrLose()
      requires Valid()
      modifies this`stats, this`rxHead, this`rxTail, this`rxCount, this`own, rxSlots
      ensures Valid() && View() == KeptOrLost(old(View()))
    {
      hide State, TailOk, D.Enqueue, D.LoseBurst;
      if rxOverflowed {
        LoseBurst();
      } else {
        Enqueue();
      }
    }

    method FinishRx()
      requires Valid()
      modifies this, rxSlots
      ensures Valid() && View() == D.FinishRx(old(View()))
    {
      assert State().InBurst() == (rxWorkLen > 0 || rxOverflowed);
      hide State, TailOk, D.CloseBurst, D.AckRequest;
      if rxWorkLen > 0 || rxOverflowed {
        ghost var cut := |rx.writes|;
        if readyGpio {
          ForgetReply();
          AckRequest();
        }
        CloseBurst(cut);
      }
    }

    // ---- Service ----

    method CountErrors()
      requires Valid()
      modifies this`stats
      ensures Valid() && View() == D.CountErrors(old(View()))
    {
      hide Work, Queue, Tx, TailOk;
      if hw.overrun {
        stats := stats.(rxOverruns := stats.rxOverruns + 1);
      }
      if hw.underrun {
        stats := stats.(txUnderruns := stats.txUnderruns + 1);
      }
    }

    method ServiceErrors()
      requires Valid()
      modifies this`hw, this`script, this`rx, this`wire, this`stats
      ensures Valid() && View() == D.ServiceErrors(old(View()))
    {
      hide State, TailOk, Tick, D.CountErrors, BscWorld.WriteRsr;
      Advance();
      if hw.overrun || hw.underrun {
        CountErrors();
        WriteRsr();
      }
    }

    method Service()
      requires Valid()
      modifies this, rxWork, rxSlots
      ensures Valid() && View() == D.Service(old(View()))
    {
      hide State, TailOk, Tick, D.ServiceErrors, D.DrainRx, D.FinishRx, D.RefillTx;
      ServiceErrors();
      DrainRx();
      // One look decides whether the burst has ended: bytes may have come in since the drain.
      var flags := ReadFr();
      if !flags.rxBusy && flags.rxEmpty {
        FinishRx();
      }
      RefillTx();
    }

    // ---- Recovery and publication ----

    /** Whether the worker still owns the latest request and the bus is idle; only the last test reads the flags. */
    method MayReply() returns (may: bool)
      requires Valid()
      modifies this`hw, this`script, this`rx, this`wire
      ensures Valid() && View() == D.CheckIdle(old(View())) && may == D.MayReply(View())
    {
      hide TailOk, Tick, Work, Queue, Tx;
      may := workerGeneration == requestGeneration && rxWorkLen == 0;
      if may {
        var flags := ReadFr();
        may := !flags.rxBusy;
      }
    }

    method CountRecovery()
      requires Valid()
      modifies this`recoveries
      ensures Valid() && State() == old(State()).(recoveries := old(State()).recoveries + 1)
    {
      hide TailOk, Work, Queue, Tx;
      recoveries := recoveries + 1;
    }

    method Recover()
      requires Valid()
      modifies this
      ensures Valid() && View() == D.Recover(old(View()))
    {
      hide State, TailOk, Reconfigured, D.Recover, BscWorld.SetReady;
      RecoverIs(View());
      Reconfigure();
      SetReady(false, Release);
    }

    method Reconfigure()
      requires Valid()
      modifies this
      ensures Valid() && View() == Reconfigured(old(View()))
    {
      hide State, TailOk, D.Configure;
      ForgetResponse();
      Configure();
      CountRecovery();
    }

    method RecoverResponse() returns (result: D.Result)
      requires Valid()
      modifies this, rxWork, rxSlots
      ensures Valid() && (View(), result) == D.RecoverResponse(old(View()))
    {
      hide State, TailOk, D.Service, D.Recover, D.CheckIdle, D.MayReply;
      Service();
      if !readyGpio || !workerPending {
        return D.EPROTO;
      }
      var may := MayReply();
      if !may {
        return D.EAGAIN;
      }
      Recover();
      return D.Done(0);
    }

    method CopyResponse(data: seq<byte>)
      requires Valid() && |data| <= MAX_TRANSFER
      modifies this`txLen, this`txLoaded, this`txQueued, txData
      ensures Valid() && State() == old(State()).(tx := data, loaded := 0, queued := true)
    {
      hide TailOk, Work, Queue;
      for i := 0 to |data|
        invariant txData[..i] == data[..i]
        invariant rxWork[..] == old(rxWork[..])
      {
        txData[i] := data[i];
      }
      txLen, txLoaded, txQueued := |data|, 0, true;
    }

    method BeginResponse(data: seq<byte>)
      requires Valid() && |data| <= MAX_TRANSFER
      modifies this`txLen, this`txLoaded, this`txQueued, this`own, this`wire, txData
      ensures Valid() && View() == D.BeginResponse(old(View()), data)
    {
      hide State, TailOk;
      CopyResponse(data);
      own := own.(published := own.published + [Publication(own.LastRead(), rx.Begun(), data)]);
      wire := WireLog(hw.TxContents(), [], [], 0, wire.overfilled, wire.signals);
    }

    method CountReply(count: nat)
      requires Valid()
      modifies this`stats
      ensures Valid() && View() == D.CountReply(old(View()), count)
    {
      hide Work, Queue, Tx, TailOk;
      stats := stats.(txTransactions := stats.txTransactions + 1, txBytes := stats.txBytes + count);
    }

    method Reply(data: seq<byte>)
      requires Valid() && |data| <= MAX_TRANSFER
      modifies this, txData
      ensures Valid() && View() == D.Reply(old(View()), data)
    {
      hide State, TailOk, D.BeginResponse, D.RefillTx, D.CountReply, BscWorld.SetReady;
      BeginResponse(data);
      RefillTx();
      ghost var loaded := View();
      CountReply(|data|);
      SetReady(true, Respond(loaded.d.requestGeneration));
    }

    method Discard()
      requires Valid()
      modifies this`stats, this`own
      ensures Valid() && View() == D.Discard(old(View()))
    {
      hide Work, Queue, Tx, TailOk;
      stats := stats.(txDiscarded := stats.txDiscarded + 1);
      own := own.(discards := own.discards + 1);
    }

    method ConsumeTurn()
      requires Valid()
      modifies this`workerPending
      ensures Valid() && View() == D.ConsumeTurn(old(View()))
    {
      hide Work, Queue, Tx, TailOk;
      workerPending := false;
    }

    method PublishResponse(data: seq<byte>) returns (result: D.Result)
      requires Valid() && |data| <= MAX_TRANSFER
      modifies this, rxWork, rxSlots, txData
      ensures Valid() && (View(), result) == D.PublishResponse(old(View()), data)
    {
      hide State, TailOk, D.Service, D.Reply, D.CheckIdle, D.MayReply, D.ConsumeTurn, D.Discard;
      Service();
      if !readyGpio {
        return D.EOPNOTSUPP;
      }
      if !workerPending {
        return D.EPROTO;
      }
      ConsumeTurn();
      var may := MayReply();
      if may {
        Reply(data);
      } else {
        Discard();
      }
      return D.Done(|data|);
    }

    // ---- File operations ----

    method TakeTurn()
      requires Valid()
      modifies this`workerGeneration, this`workerPending
      ensures Valid() && State() == old(State()).(workerGeneration := old(State()).requestGeneration, workerPending := true)
    {
      hide Work, Queue, Tx, TailOk;
      workerGeneration := requestGeneration;
      workerPending := true;
    }

    method TakeRecord()
      requires Valid() && rxCount > 0
      modifies this`rxHead, this`rxCount, this`workerGeneration, this`workerPending
      ensures Valid()
      ensures var d := old(State());
              State() == d.(queue := d.queue[1..], workerGeneration := d.requestGeneration, workerPending := true)
    {
      hide State, TailOk;
      DropOldest();
      TakeTurn();
    }

    /** The oldest waiting record, which a reader is given if it fits; `Retry` if there is none. */
    method ReadMessage(capacity: nat) returns (result: D.Result, message: seq<byte>)
      requires Valid()
      modifies this`rxHead, this`rxCount, this`workerGeneration, this`workerPending, this`own
      ensures Valid() && (View(), result) == D.ReadMessage(old(View()), capacity)
      ensures result.Done? ==> [message] + State().queue == old(State()).queue
    {
      hide State, TailOk, Handed, D.ReadMessage;
      ReadIs(View(), capacity);
      if rxCount == 0 {
        return D.Retry, [];
      }
      OldestIsHead();
      message := rxSlots[rxHead];
      if capacity < |message| {
        return D.EMSGSIZE, [];
      }
      TakeRecord();
      own := Handed(own, message);
      return D.Done(|message|), message;
    }

    lemma OldestIsHead()
      requires Valid() && rxCount > 0
      ensures State().queue != [] && State().queue[0] == rxSlots[rxHead]
    {
      hide Ring, TailOk;
      AdvanceRemoves(rxSlots[..], rxHead, rxCount);
    }

    method QueueResponse(data: seq<byte>) returns (result: D.Result)
      requires Valid()
      modifies this, rxWork, rxSlots, txData
      ensures Valid() && (View(), result) == D.QueueResponse(old(View()), data)
    {
      hide State, TailOk, D.PublishResponse;
      if data == [] || |data| > MAX_TRANSFER {
        return D.EMSGSIZE;
      }
      if dead || !active {
        return D.ENODEV;
      }
      result := PublishResponse(data);
    }

    method RecoverIoctl() returns (result: D.Result)
      requires Valid()
      modifies this, rxWork, rxSlots
      ensures Valid() && (View(), result) == D.RecoverIoctl(old(View()))
    {
      hide State, TailOk, D.RecoverResponse;
      if dead || !active {
        return D.ENODEV;
      }
      result := RecoverResponse();
    }

    method ClearStats()
      requires Valid()
      modifies this`stats, this`recoveries
      ensures Valid() && View() == D.ClearStats(old(View()))
    {
      hide Work, Queue, Tx, TailOk;
      stats := NO_STATS;
      recoveries := 0;
    }

    // ---- Interrupt and timer ----

    method CountInterrupt()
      requires Valid()
      modifies this`stats
      ensures Valid() && View() == D.CountInterrupt(old(View()))
    {
      hide Work, Queue, Tx, TailOk;
      stats := stats.(interrupts := stats.interrupts + 1);
    }

    method CountTimer()
      requires Valid()
      modifies this`stats
      ensures Valid() && View() == D.CountTimer(old(View()))
    {
      hide Work, Queue, Tx, TailOk;
      stats := stats.(timerRuns := stats.timerRuns + 1);
    }

    method Irq(pending: bool) returns (handled: bool)
      requires Valid()
      modifies this, rxWork, rxSlots
      ensures Valid() && View() == D.Irq(old(View()), pending) && handled == (pending && old(active))
    {
      hide State, TailOk, Tick, D.Service, D.CountInterrupt;
      handled := pending && active;
      if handled {
        CountInterrupt();
        Service();
        Advance();
      }
    }

    method Timer() returns (restart: bool)
      requires Valid()
      modifies this, rxWork, rxSlots
      ensures Valid() && View() == D.Timer(old(View())) && restart == (!old(dead) && old(active))
    {
      hide State, TailOk, D.Service, D.CountTimer;
      restart := !dead && active;
      if restart {
        CountTimer();
        Service();
      }
    }

    // ---- Lifecycle ----

    method SetActive(value: bool)
      requires Valid()
      modifies this`active
      ensures Valid() && State() == old(State()).(active := value)
    {
      hide Work, Queue, Tx, TailOk;
      active := value;
    }

    method Activate()
      requires Valid()
      modifies this
      ensures Valid() && View() == D.Activate(old(View()))
    {
      hide State, TailOk, D.ResetIo, D.Configure;
      ResetIo();
      SetActive(true);
      Configure();
    }

    method Deactivate()
      requires Valid()
      modifies this
      ensures Valid() && View() == D.Deactivate(old(View()))
    {
      hide State, TailOk, D.Disable;
      if active {
        SetActive(false);
        Disable();
      }
    }

    method SetOpen(value: bool)
      requires Valid()
      modifies this`isOpen
      ensures Valid() && State() == old(State()).(isOpen := value)
    {
      hide Work, Queue, Tx, TailOk;
      isOpen := value;
    }

    method OpenFile(pinsSelected: bool) returns (result: D.Result)
      requires Valid()
      modifies this
      ensures Valid() && (View(), result) == D.OpenFile(old(View()), pinsSelected)
    {
      hide Work, Queue, Tx, TailOk, D.Activate;
      if isOpen {
        return D.EBUSY;
      }
      SetOpen(true);
      if dead || !pinsSelected {
        SetOpen(false);
        return if dead then D.ENODEV else D.EPINS;
      }
      Activate();
      return D.Done(0);
    }

    method ReleaseFile()
      requires Valid()
      modifies this
      ensures Valid() && View() == D.ReleaseFile(old(View()))
    {
      hide State, TailOk, D.Deactivate;
      if !dead {
        Deactivate();
      }
      SetOpen(false);
    }

    method SetDead()
      requires Valid()
      modifies this`dead
      ensures Valid() && State() == old(State()).(dead := true)
    {
      hide Work, Queue, Tx, TailOk;
      dead := true;
    }

    method RemoveDevice()
      requires Valid()
      modifies this
      ensures Valid() && View() == D.RemoveDevice(old(View()))
    {
      hide State, TailOk, D.Deactivate;
      SetDead();
      Deactivate();
    }
  }
}
