/** The critical sections of kernel/bcm27xx_bsc_target.c as functions on the world. */
module BscDriver {
  import opened Bytes
  import opened BscWorld

  function InterruptMask(d: Driver): nat {
    if d.Unloaded() then IRQ_ALL else IRQ_BASE
  }

  function SetInterrupts(w: World): World {
    WriteImsc(w, InterruptMask(w.d))
  }

  /** `count` disable/enable transitions in transmit-only mode. */
  function Transitions(w: World, count: nat): World
    decreases count
  {
    if count == 0 then w else Transitions(WriteCr(WriteCr(w, CR_EN + CR_TXE), 0), count - 1)
  }

  function PurgeTxFifo(w: World): World {
    var w := ReadFr(w);
    var count := FlagsOf(w.h).txLevel + 1;
    var w := Transitions(WriteCr(w, 0), count);
    w.(purges := w.purges + 1)
  }

  function Configure(w: World): World {
    var w := PurgeTxFifo(WriteImsc(w, 0));
    var w := WriteSlv(WriteRsr(w), w.d.address);
    SetInterrupts(WriteCr(Touch(Touch(w)), CR_I2C_TARGET))
  }

  /** What is lost from now on is counted from zero; overflows are counted over all opens. */
  function Forgotten(own: OwnLog): OwnLog {
    OwnLog([], [], [], 0, 0, own.overflowed)
  }

  function ResetIo(w: World): World {
    var d := w.d.(work := [], overflowed := false, queue := [], tx := [], loaded := 0, queued := false,
                  requestGeneration := 0, workerGeneration := 0, workerPending := false);
    var rx := w.rx.(burst := [], cuts := [|w.rx.writes|], leftover := w.h.rxFifo);
    SetReady(w.(d := d, rx := rx, own := Forgotten(w.own)), false, Release)
  }

  function Disable(w: World): World {
    ResetIo(WriteSlv(WriteRsr(WriteCr(WriteImsc(w, 0), 0)), 0))
  }

  /** The first byte of a burst invalidates whatever a worker is doing, and in READY mode a waiting record. */
  function BeginBurst(w: World): World {
    var d := w.d.(requestGeneration := w.d.requestGeneration + 1, queued := false);
    if d.hasReady && d.queue != [] then
      w.(d := d.(stats := d.stats.(rxDropped := d.stats.rxDropped + |d.queue|), queue := []),
         own := w.own.(ids := [], lost := w.own.lost + |d.queue|))
    else
      w.(d := d)
  }

  function StoreByte(w: World, b: byte): World {
    w.(d := if |w.d.work| < MAX_TRANSFER then w.d.(work := w.d.work + [b]) else w.d.(overflowed := true),
       rx := w.rx.(burst := w.rx.burst + [b]))
  }

  function DrainByte(w: World): World {
    var (w, b) := ReadDr(w);
    StoreByte(if !w.d.InBurst() then BeginBurst(w) else w, b)
  }

  function DrainRx(w: World): World
    decreases |w.script|, |w.h.rxFifo|
  {
    TickIsBusOnly(w);
    var seen := ReadFr(w);
    if FlagsOf(seen.h).rxEmpty then
      seen
    else
      DrainByteShrinks(seen);
      DrainRx(DrainByte(seen))
  }

  lemma DrainByteShrinks(w: World)
    requires w.h.rxFifo != []
    ensures DrainByte(w).script == Tick(w).script && |DrainByte(w).script| <= |w.script|
    ensures |DrainByte(w).script| < |w.script| || (w.script == [] && |DrainByte(w).h.rxFifo| < |w.h.rxFifo|)
  {
    TickIsBusOnly(w);
    hide Tick;
  }

  function WriteNext(w: World): World
    requires w.d.loaded < |w.d.tx|
  {
    var next := WriteDr(w, w.d.tx[w.d.loaded]);
    next.(d := w.d.(loaded := w.d.loaded + 1))
  }

  function LoadTx(w: World): World
    decreases |w.d.tx| - w.d.loaded
  {
    if !w.d.Unloaded() then
      w
    else
      TickIsBusOnly(w);
      var seen := ReadFr(w);
      if FlagsOf(seen.h).txFull then seen else LoadTx(WriteNext(seen))
  }

  function RefillTx(w: World): World {
    SetInterrupts(LoadTx(w))
  }

  function AckRequest(w: World): World {
    SetReady(SetReady(w, true, Ack(w.d.requestGeneration)), false, Release)
  }

  /** The record of the finished burst enters the queue; a full queue gives up its oldest record. */
  function Enqueue(w: World): World {
    var (d, own) := (w.d, w.own);
    var full := |d.queue| == RX_SLOTS;
    var id := if w.rx.cuts == [] then 0 else |w.rx.cuts| - 1;
    var stats := d.stats.(
      rxDropped := d.stats.rxDropped + (if full then 1 else 0),
      rxTransactions := d.stats.rxTransactions + 1,
      rxBytes := d.stats.rxBytes + |d.work|);
    w.(d := d.(queue := (if full then d.queue[1..] else d.queue) + [d.work], stats := stats),
       own := own.(ids := (if full && own.ids != [] then own.ids[1..] else own.ids) + [id],
                   lost := own.lost + (if full then 1 else 0)))
  }

  function LoseBurst(w: World): World {
    w.(d := w.d.(stats := w.d.stats.(rxOverruns := w.d.stats.rxOverruns + 1)),
       own := w.own.(lost := w.own.lost + 1, overflowed := w.own.overflowed + 1))
  }

  /** The burst ends with the first `cut` controller writes. */
  function CloseBurst(w: World, cut: nat): World {
    var w := w.(rx := w.rx.(cuts := w.rx.cuts + [cut], burst := []));
    var w := if w.d.overflowed then LoseBurst(w) else Enqueue(w);
    w.(d := w.d.(work := [], overflowed := false))
  }

  function FinishRx(w: World): World {
    if !w.d.InBurst() then
      w
    else
      var cut := |w.rx.writes|;
      CloseBurst(if w.d.hasReady then AckRequest(w.(d := w.d.(tx := [], loaded := 0))) else w, cut)
  }

  function CountErrors(w: World): World {
    w.(d := w.d.(stats := w.d.stats.(
      rxOverruns := w.d.stats.rxOverruns + (if w.h.overrun then 1 else 0),
      txUnderruns := w.d.stats.txUnderruns + (if w.h.underrun then 1 else 0))))
  }

  function ServiceErrors(w: World): World {
    var w := ReadRsr(w);
    if w.h.overrun || w.h.underrun then WriteRsr(CountErrors(w)) else w
  }

  /** Drained, then the snapshot that decides whether the burst has ended. */
  function Snapshot(w: World): World {
    ReadFr(DrainRx(ServiceErrors(w)))
  }

  function Service(w: World): World {
    var w := Snapshot(w);
    RefillTx(if !FlagsOf(w.h).rxBusy && FlagsOf(w.h).rxEmpty then FinishRx(w) else w)
  }

  datatype Result = Done(count: nat) | EAGAIN | EPROTO | EOPNOTSUPP | EMSGSIZE | ENODEV | EBUSY | EPINS | Retry

  predicate OwnsLatest(d: Driver) {
    d.workerGeneration == d.requestGeneration && d.work == []
  }

  /** `a || b || (read & BUSY)` reads the flag register only when the first two do not decide. */
  function CheckIdle(w: World): World {
    if OwnsLatest(w.d) then ReadFr(w) else w
  }

  predicate MayReply(w: World) {
    OwnsLatest(w.d) && !FlagsOf(w.h).rxBusy
  }

  /** The reset itself: what an abandoned response left behind is discarded and READY stays released. */
  function Recover(w: World): World {
    var w := Configure(w.(d := w.d.(queued := false, tx := [], loaded := 0)));
    SetReady(w.(d := w.d.(recoveries := w.d.recoveries + 1)), false, Release)
  }

  function RecoverResponse(w: World): (World, Result) {
    var serviced := Service(w);
    if !serviced.d.hasReady || !serviced.d.workerPending then
      (serviced, EPROTO)
    else
      var checked := CheckIdle(serviced);
      if MayReply(checked) then (Recover(checked), Done(0)) else (checked, EAGAIN)
  }

  /** The response takes the transmit path: bytes still in the hardware will precede it. */
  function BeginResponse(w: World, data: seq<byte>): World {
    var publication := Publication(w.own.LastRead(), w.rx.Begun(), data);
    MarkWire(w.(d := w.d.(tx := data, loaded := 0, queued := true),
                own := w.own.(published := w.own.published + [publication])))
  }

  function Reply(w: World, data: seq<byte>): World {
    var loaded := RefillTx(BeginResponse(w, data));
    SetReady(CountReply(loaded, |data|), true, Respond(loaded.d.requestGeneration))
  }

  function CountReply(w: World, count: nat): World {
    w.(d := w.d.(stats := w.d.stats.(
      txTransactions := w.d.stats.txTransactions + 1, txBytes := w.d.stats.txBytes + count)))
  }

  /** The response comes too late. */
  function Discard(w: World): World {
    w.(d := w.d.(stats := w.d.stats.(txDiscarded := w.d.stats.txDiscarded + 1)),
       own := w.own.(discards := w.own.discards + 1))
  }

  function ConsumeTurn(w: World): World {
    w.(d := w.d.(workerPending := false))
  }

  function PublishResponse(w: World, data: seq<byte>): (World, Result) {
    var serviced := Service(w);
    if !serviced.d.hasReady then
      (serviced, EOPNOTSUPP)
    else if !serviced.d.workerPending then
      (serviced, EPROTO)
    else
      var checked := CheckIdle(ConsumeTurn(serviced));
      (if MayReply(checked) then Reply(checked, data) else Discard(checked), Done(|data|))
  }

  /** The locked part of `read`. */
  function ReadMessage(w: World, capacity: nat): (World, Result) {
    if w.d.queue == [] then
      (w, Retry)
    else if capacity < |w.d.queue[0]| then
      (w, EMSGSIZE)
    else
      var record := Record(if w.own.ids == [] then 0 else w.own.ids[0], w.d.queue[0]);
      (w.(d := w.d.(queue := w.d.queue[1..], workerGeneration := w.d.requestGeneration, workerPending := true),
          own := w.own.(ids := if w.own.ids == [] then [] else w.own.ids[1..],
                        delivered := w.own.delivered + [record])),
       Done(|record.data|))
  }

  function QueueResponse(w: World, data: seq<byte>): (World, Result) {
    if data == [] || |data| > MAX_TRANSFER then (w, EMSGSIZE)
    else if w.d.dead || !w.d.active then (w, ENODEV)
    else PublishResponse(w, data)
  }

  function RecoverIoctl(w: World): (World, Result) {
    if w.d.dead || !w.d.active then (w, ENODEV) else RecoverResponse(w)
  }

  function CountInterrupt(w: World): World {
    w.(d := w.d.(stats := w.d.stats.(interrupts := w.d.stats.interrupts + 1)))
  }

  function CountTimer(w: World): World {
    w.(d := w.d.(stats := w.d.stats.(timerRuns := w.d.stats.timerRuns + 1)))
  }

  function Irq(w: World, pending: bool): World {
    if !pending || !w.d.active then
      w
    else
      Touch(Service(CountInterrupt(w)))
  }

  function Timer(w: World): World {
    if w.d.dead || !w.d.active then w
    else Service(CountTimer(w))
  }

  function ClearStats(w: World): World {
    w.(d := w.d.(stats := NO_STATS, recoveries := 0))
  }

  function Activate(w: World): World {
    var w := ResetIo(w);
    Configure(w.(d := w.d.(active := true)))
  }

  function Deactivate(w: World): World {
    if !w.d.active then w else Disable(w.(d := w.d.(active := false)))
  }

  /** The single open; selecting the pins may fail. */
  function OpenFile(w: World, pinsSelected: bool): (World, Result) {
    if w.d.isOpen then (w, EBUSY)
    else if w.d.dead then (w, ENODEV)
    else if !pinsSelected then (w, EPINS)
    else (Activate(w.(d := w.d.(isOpen := true))), Done(0))
  }

  function ReleaseFile(w: World): World {
    var w := if w.d.dead then w else Deactivate(w);
    w.(d := w.d.(isOpen := false))
  }

  function RemoveDevice(w: World): World {
    Deactivate(w.(d := w.d.(dead := true)))
  }
}
