/**
 The state of the BSC target: driver fields, peripheral registers and FIFOs, and a record of what the bus
 did. The bus moves between any two register accesses, as a script of events that nothing restricts.
 */
module BscWorld {
  import opened Bytes

  const FIFO_SIZE: nat := 16
  const MAX_TRANSFER: nat := 8192
  const RX_SLOTS: nat := 1024

  const CR_EN: nat := 0x001
  const CR_I2C: nat := 0x004
  const CR_TXE: nat := 0x100
  const CR_RXE: nat := 0x200
  const CR_I2C_TARGET: nat := CR_EN + CR_I2C + CR_TXE + CR_RXE

  const IRQ_RX: nat := 1
  const IRQ_TX: nat := 2
  const IRQ_BREAK: nat := 4
  const IRQ_OE: nat := 8
  const IRQ_BASE: nat := IRQ_RX + IRQ_BREAK + IRQ_OE
  const IRQ_ALL: nat := IRQ_BASE + IRQ_TX

  /** What the controller does: begin a write, send a byte of it, end it, or clock a response byte. */
  datatype Event = Start | Send(b: byte) | Stop | Clock

  datatype Hw = Hw(
    rxFifo: seq<byte>,
    rxBusy: bool,
    txFifo: seq<byte>,
    serializer: Option<byte>,
    cr: nat,
    imsc: nat,
    slv: nat,
    overrun: bool,
    underrun: bool,
    ready: bool)
  {
    /** The bytes that the controller would clock out next. */
    function TxContents(): seq<byte> {
      match serializer
      case None => txFifo
      case Some(b) => [b] + txFifo
    }

    /** The serializer takes the next FIFO byte; what it held is gone. */
    function Shifted(): Hw {
      if txFifo == [] then this.(serializer := None)
      else this.(serializer := Some(txFifo[0]), txFifo := txFifo[1..])
    }
  }

  /** The flag register. */
  datatype Flags = Flags(rxEmpty: bool, rxBusy: bool, txFull: bool, txLevel: nat)

  function FlagsOf(h: Hw): Flags {
    Flags(h.rxFifo == [], h.rxBusy, |h.txFifo| >= FIFO_SIZE, |h.txFifo|)
  }

  datatype Stats = Stats(
    rxTransactions: nat, rxBytes: nat, rxOverruns: nat, rxDropped: nat,
    txTransactions: nat, txBytes: nat, txUnderruns: nat, txDiscarded: nat,
    interrupts: nat, timerRuns: nat)

  const NO_STATS := Stats(0, 0, 0, 0, 0, 0, 0, 0, 0, 0)

  /** The fields of the driver; the ring of receive slots appears as the queue it implements. */
  datatype Driver = Driver(
    hasReady: bool,
    address: nat,
    work: seq<byte>,
    overflowed: bool,
    queue: seq<seq<byte>>,
    tx: seq<byte>,
    loaded: nat,
    queued: bool,
    requestGeneration: nat,
    workerGeneration: nat,
    workerPending: bool,
    active: bool,
    dead: bool,
    isOpen: bool,
    stats: Stats,
    recoveries: nat)
  {
    predicate InBurst() {
      work != [] || overflowed
    }

    predicate Unloaded() {
      queued && loaded < |tx|
    }
  }

  /**
   The controller's side of its writes: `sent` and `sending` are all bytes of the completed writes and of the one in
   progress, taken by the target or not. After a write was cut short, the controller may go on with it, `trailing`;
   `clipped` writes have lost their end that way. `raised` counts the bytes whose loss raised the overrun flag.
   */
  datatype BusLog = BusLog(sent: seq<seq<byte>>, sending: seq<byte>, trailing: bool, clipped: set<nat>, raised: nat)
  {
    function Send(b: byte): BusLog {
      this.(sending := sending + [b])
    }

    function End(): BusLog {
      this.(sent := sent + [sending], sending := [])
    }

    /** A byte of a write that the target no longer takes part in. */
    function SendLate(b: byte): BusLog {
      if trailing && sent != [] then
        var last := |sent| - 1;
        this.(sent := sent[last := sent[last] + [b]], clipped := clipped + {last})
      else
        this
    }
  }

  const QUIET_BUS := BusLog([], [], false, {}, 0)

  /**
   The receive side of the bus: the completed controller writes, the bytes of the one in progress, the
   bytes drained for the burst in progress, and `cuts`: burst `k` is the writes from cuts[k-1] to cuts[k].
   `leftover` is what the receive FIFO already held when receiving was set up. Two marks single out writes: `holed`
   ones met a full FIFO, `severed` ones were cut short by a change of mode. `bus` is the controller's side.
   */
  datatype RxLog = RxLog(
    writes: seq<seq<byte>>,
    partial: seq<byte>,
    burst: seq<byte>,
    cuts: seq<nat>,
    leftover: seq<byte>,
    holed: set<nat>,
    severed: set<nat>,
    bus: BusLog)
  {
    function Bursts(): int {
      |cuts| - 1
    }

    /** Bursts begun, including the one in progress. */
    function Begun(): int {
      Bursts() + if burst != [] then 1 else 0
    }
  }

  datatype Record = Record(burst: nat, data: seq<byte>)

  /** A response that entered the transmit path: the burst its worker had read, and the last burst begun. */
  datatype Publication = Publication(burst: nat, latest: int, data: seq<byte>)

  /** Which burst each queued, delivered and answered record came from; of the `lost` ones, some overflowed. */
  datatype OwnLog = OwnLog(
    ids: seq<nat>,
    delivered: seq<Record>,
    published: seq<Publication>,
    discards: nat,
    lost: nat,
    overflowed: nat)
  {
    /** The burst whose record the worker read last. */
    function LastRead(): nat {
      if delivered == [] then 0 else delivered[|delivered| - 1].burst
    }
  }

  /** The transmit side since the last publication or purge; `stale` is what the hardware held then. */
  datatype WireLog = WireLog(
    stale: seq<byte>, fed: seq<byte>, out: seq<byte>, gaps: nat, overfilled: bool, signals: seq<Signal>)

  /**
   What the controller finds when READY announces a response: `loaded` bytes of `data` have been fed after `before`; of
   these the hardware holds `held` after `out` and `gaps`.
   */
  datatype Signal = Signal(data: seq<byte>, loaded: nat, before: seq<byte>, out: seq<byte>, gaps: nat, held: seq<byte>)

  /** Drives of the READY line: acknowledge of a generation, response of a generation, release. */
  datatype Edge = Ack(generation: nat) | Respond(generation: nat) | Release

  datatype World = World(
    d: Driver,
    h: Hw,
    rx: RxLog,
    own: OwnLog,
    wire: WireLog,
    edges: seq<Edge>,
    purges: nat,
    script: seq<seq<Event>>)

  // ---- The bus ----

  function Happen(w: World, e: Event): World {
    match e
    case Start =>
      var heard := if w.h.cr == CR_I2C_TARGET && !w.h.rxBusy then w.(h := w.h.(rxBusy := true)) else w;
      heard.(rx := Hush(heard.rx))
    case Send(b) =>
      if !w.h.rxBusy then
        w.(rx := w.rx.(bus := w.rx.bus.SendLate(b)))
      else if |w.h.rxFifo| < FIFO_SIZE then
        w.(h := w.h.(rxFifo := w.h.rxFifo + [b]), rx := w.rx.(partial := w.rx.partial + [b], bus := w.rx.bus.Send(b)))
      else
        w.(h := w.h.(overrun := true), rx := Missed(w.rx, b, !w.h.overrun))
    case Stop =>
      if w.h.rxBusy then EndWrite(w) else w.(rx := Hush(w.rx))
    case Clock =>
      if w.h.cr != CR_I2C_TARGET then w
      else
        match w.h.serializer
        case None => w.(h := w.h.(underrun := true), wire := w.wire.(gaps := w.wire.gaps + 1))
        case Some(b) => w.(h := w.h.Shifted(), wire := w.wire.(out := w.wire.out + [b]))
  }

  function EndWrite(w: World): World {
    w.(h := w.h.(rxBusy := false),
       rx := w.rx.(writes := w.rx.writes + [w.rx.partial], partial := [], bus := w.rx.bus.End()))
  }

  /** The controller ends a write that was cut short, or begins another one. */
  function Hush(rx: RxLog): RxLog {
    rx.(bus := rx.bus.(trailing := false))
  }

  /** A byte meets a full FIFO; it may raise the overrun flag. */
  function Missed(rx: RxLog, b: byte, raises: bool): RxLog {
    rx.(holed := rx.holed + {|rx.writes|}, bus := rx.bus.Send(b).(raised := rx.bus.raised + (if raises then 1 else 0)))
  }

  function HappenAll(w: World, events: seq<Event>): World
    decreases |events|
  {
    if events == [] then w else HappenAll(Happen(w, events[0]), events[1..])
  }

  /** A register access is about to be made: the next part of the script happens first. */
  function Tick(w: World): World {
    if w.script == [] then w else HappenAll(w.(script := w.script[1..]), w.script[0])
  }

  // ---- Registers ----

  /** Reading the flag register; the flags are those of the resulting state. */
  function ReadFr(w: World): World {
    Tick(w)
  }

  function ReadDr(w: World): (result: (World, byte)) {
    var w := Tick(w);
    if w.h.rxFifo == [] then (w, 0) else (w.(h := w.h.(rxFifo := w.h.rxFifo[1..])), w.h.rxFifo[0])
  }

  function WriteDr(w: World, b: byte): World {
    PutDr(Tick(w), b)
  }

  /** A response byte goes to the serializer if that is free, and otherwise to the FIFO. */
  function PutDr(w: World, b: byte): World {
    if w.h.serializer.None? then
      w.(h := w.h.(serializer := Some(b)), wire := w.wire.(fed := w.wire.fed + [b]))
    else if |w.h.txFifo| < FIFO_SIZE then
      w.(h := w.h.(txFifo := w.h.txFifo + [b]), wire := w.wire.(fed := w.wire.fed + [b]))
    else
      w.(wire := w.wire.(overfilled := true))
  }

  /** Starts a new account of the transmit side from what the hardware holds now. */
  function MarkWire(w: World): World {
    w.(wire := WireLog(w.h.TxContents(), [], [], 0, w.wire.overfilled, w.wire.signals))
  }

  function WriteCr(w: World, value: nat): World {
    SetCr(Tick(w), value)
  }

  function SetCr(w: World, value: nat): World {
    SetMode(if w.h.rxBusy && value != CR_I2C_TARGET then CutShort(w) else w, value)
  }

  /** Leaving target mode cuts the write in progress short. */
  function CutShort(w: World): World {
    var ended := EndWrite(w.(rx := w.rx.(severed := w.rx.severed + {|w.rx.writes|})));
    ended.(rx := ended.rx.(bus := ended.rx.bus.(trailing := true)))
  }

  /** Enabling shifts: the serializer takes the next FIFO byte, and the account starts anew. */
  function SetMode(w: World, value: nat): World {
    if w.h.cr % 2 == 0 && value % 2 == 1 then
      MarkWire(w.(h := w.h.Shifted().(cr := value)))
    else
      w.(h := w.h.(cr := value))
  }

  function WriteImsc(w: World, value: nat): World {
    var w := Tick(w); w.(h := w.h.(imsc := value))
  }

  function WriteSlv(w: World, value: nat): World {
    var w := Tick(w); w.(h := w.h.(slv := value))
  }

  function WriteRsr(w: World): World {
    var w := Tick(w); w.(h := w.h.(overrun := false, underrun := false))
  }

  function ReadRsr(w: World): World {
    Tick(w)
  }

  /** A write to a register without effect on this model: IFLS, ICR. */
  function Touch(w: World): World {
    Tick(w)
  }

  /** Drives the READY line, if there is one. */
  function SetReady(w: World, level: bool, edge: Edge): World {
    if w.d.hasReady then
      var w := Tick(w); Signalled(w.(h := w.h.(ready := level), edges := w.edges + [edge]), edge)
    else
      w
  }

  /** The controller sees a response announced. */
  function Signalled(w: World, edge: Edge): World {
    if edge.Respond? then w.(wire := w.wire.(signals := w.wire.signals + [SignalOf(w)])) else w
  }

  function SignalOf(w: World): Signal {
    Signal(w.d.tx, w.d.loaded, w.wire.stale, w.wire.out, w.wire.gaps, w.h.TxContents())
  }

  // ---- Frames of the bus: it touches neither the driver nor the control registers ----

  ghost predicate BusOnly(w: World, after: World) {
    && after.d == w.d && after.own == w.own && after.edges == w.edges && after.purges == w.purges
    && after.h.cr == w.h.cr && after.h.imsc == w.h.imsc && after.h.slv == w.h.slv && after.h.ready == w.h.ready
    && after.rx.burst == w.rx.burst && after.rx.cuts == w.rx.cuts && after.rx.leftover == w.rx.leftover
    && after.rx.severed == w.rx.severed && w.rx.holed <= after.rx.holed
    && after.wire.stale == w.wire.stale && after.wire.fed == w.wire.fed && after.wire.overfilled == w.wire.overfilled
    && after.wire.signals == w.wire.signals
    && w.h.rxFifo <= after.h.rxFifo
    && w.rx.writes <= after.rx.writes
    && |after.h.txFifo| <= |w.h.txFifo|
  }

  /** The lifecycle of the device and the mode of the peripheral are unchanged, and no write was cut short. */
  ghost predicate Steady(w: World, after: World) {
    && after.d.hasReady == w.d.hasReady && after.d.address == w.d.address
    && after.d.active == w.d.active && after.d.dead == w.d.dead && after.d.isOpen == w.d.isOpen
    && after.h.cr == w.h.cr && after.h.slv == w.h.slv && after.purges == w.purges && after.rx.severed == w.rx.severed
  }

  lemma SendIsBusOnly(w: World, b: byte)
    ensures BusOnly(w, Happen(w, Send(b))) && Happen(w, Send(b)).script == w.script
  {
  }

  lemma StopIsBusOnly(w: World)
    ensures BusOnly(w, Happen(w, Stop)) && Happen(w, Stop).script == w.script
  {
  }

  lemma ClockIsBusOnly(w: World)
    ensures BusOnly(w, Happen(w, Clock)) && Happen(w, Clock).script == w.script
  {
    var after := Happen(w, Clock);
    assert after == w.(h := after.h, wire := after.wire);
    assert after.h == w.h.(serializer := after.h.serializer, txFifo := after.h.txFifo, underrun := after.h.underrun);
    assert |after.h.txFifo| <= |w.h.txFifo| && after.wire.stale == w.wire.stale && after.wire.fed == w.wire.fed
           && after.wire.overfilled == w.wire.overfilled && after.wire.signals == w.wire.signals;
    hide Happen;
  }

  lemma StartIsBusOnly(w: World)
    ensures BusOnly(w, Happen(w, Start)) && Happen(w, Start).script == w.script
  {
  }

  lemma HappenIsBusOnly(w: World, e: Event)
    ensures BusOnly(w, Happen(w, e)) && Happen(w, e).script == w.script
  {
    hide Happen, BusOnly;
    match e
    case Start => StartIsBusOnly(w);
    case Send(b) => SendIsBusOnly(w, b);
    case Stop => StopIsBusOnly(w);
    case Clock => ClockIsBusOnly(w);
  }

  lemma BusOnlyChains(a: World, b: World, c: World)
    requires BusOnly(a, b) && BusOnly(b, c)
    ensures BusOnly(a, c)
  {
  }

  lemma {:induction false} HappenAllIsBusOnly(w: World, events: seq<Event>)
    ensures BusOnly(w, HappenAll(w, events)) && HappenAll(w, events).script == w.script
    decreases |events|
  {
    hide Happen;
    if events == [] {
    } else {
      var next := Happen(w, events[0]);
      HappenIsBusOnly(w, events[0]);
      HappenAllIsBusOnly(next, events[1..]);
      BusOnlyChains(w, next, HappenAll(next, events[1..]));
    }
  }

  lemma TickIsBusOnly(w: World)
    ensures BusOnly(w, Tick(w))
    ensures w.script != [] ==> |Tick(w).script| < |w.script|
    ensures w.script == [] ==> Tick(w) == w
  {
    if w.script != [] {
      HappenAllIsBusOnly(w.(script := w.script[1..]), w.script[0]);
      hide HappenAll;
      var rest := w.(script := w.script[1..]);
      BusOnlyChains(w, rest, Tick(w));
    }
  }
}
