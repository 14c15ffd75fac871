/** What critical sections may do to the books. */
module BscBooks {
  import opened Bytes
  import opened BscWorld
  import opened BscDriver
  import opened BscService
  import opened BscActions
  import opened BscRecovery

  function Datas(records: seq<Record>): (datas: seq<seq<byte>>)
    ensures |datas| == |records| && forall i | 0 <= i < |records| :: datas[i] == records[i].data
  {
    seq(|records|, i requires 0 <= i < |records| => records[i].data)
  }

  /** Received records that are neither dropped, nor delivered, nor waiting. */
  function Balance(w: World): int {
    w.d.stats.rxTransactions - w.d.stats.rxDropped - |w.own.delivered| - |w.d.queue|
  }

  /** Nothing was delivered or decided, the worker's turn is as it was, and the receive counters agree. */
  ghost predicate SameBooks(w: World, after: World) {
    && after.own.published == w.own.published && after.own.discards == w.own.discards
    && after.own.delivered == w.own.delivered && Balance(after) == Balance(w) && SameLosses(w, after)
    && after.d.hasReady == w.d.hasReady && after.d.workerPending == w.d.workerPending
    && after.d.workerGeneration == w.d.workerGeneration
    && after.d.stats.txTransactions == w.d.stats.txTransactions && after.d.stats.txDiscarded == w.d.stats.txDiscarded
    && after.d.stats.txBytes == w.d.stats.txBytes && after.d.stats.interrupts == w.d.stats.interrupts
    && after.d.stats.timerRuns == w.d.stats.timerRuns && after.d.recoveries == w.d.recoveries && after.purges == w.purges
  }

  ghost predicate SameLosses(w: World, after: World) {
    && after.own.lost - after.d.stats.rxDropped - after.own.overflowed == w.own.lost - w.d.stats.rxDropped - w.own.overflowed
    && after.d.stats.rxOverruns - after.own.overflowed >= w.d.stats.rxOverruns - w.own.overflowed
    && after.own.overflowed >= w.own.overflowed && after.d.stats.rxDropped >= w.d.stats.rxDropped
  }

  /**
   The counters have grown by exactly what happened: records, verdicts and recoveries. A record is lost by being
   dropped or by overflowing the work buffer, and every overflow is among the counted overruns.
   */
  ghost predicate SameAccounts(w: World, after: World) {
    && Balance(after) == Balance(w) && SameLosses(w, after)
    && after.d.stats.txTransactions - |after.own.published| == w.d.stats.txTransactions - |w.own.published|
    && after.d.stats.txDiscarded - after.own.discards == w.d.stats.txDiscarded - w.own.discards
    && after.d.recoveries - after.purges == w.d.recoveries - w.purges
  }

  /** Neither an interrupt nor a timer run was counted. */
  ghost predicate SameTallies(w: World, after: World) {
    after.d.stats.interrupts == w.d.stats.interrupts && after.d.stats.timerRuns == w.d.stats.timerRuns
  }

  lemma BooksChain(a: World, b: World, c: World)
    requires SameBooks(a, b) && SameBooks(b, c)
    ensures SameBooks(a, c)
  {
  }

  lemma TickKeepsBooks(w: World)
    ensures SameBooks(w, Tick(w))
  {
    TickIsBusOnly(w);
    hide Tick;
  }

  /** A waiting record that a newer burst drops is counted as dropped. */
  lemma BeginBalances(w: World)
    ensures SameBooks(w, BeginBurst(w))
  {
  }

  lemma PopKeepsBooks(w: World)
    ensures SameBooks(w, ReadDr(w).0)
  {
    TickKeepsBooks(w);
    hide Tick;
  }

  lemma StoreKeepsBooks(w: World, b: byte)
    ensures SameBooks(w, StoreByte(w, b))
  {
  }

  lemma DrainByteKeepsBooks(w: World)
    ensures SameBooks(w, DrainByte(w))
  {
    hide ReadDr, BeginBurst, StoreByte, SameBooks;
    var popped := ReadDr(w).0;
    var begun := if !popped.d.InBurst() then BeginBurst(popped) else popped;
    PopKeepsBooks(w);
    BeginBalances(popped);
    BooksSelf(popped);
    BooksChain(w, popped, begun);
    StoreKeepsBooks(begun, ReadDr(w).1);
    BooksChain(w, begun, StoreByte(begun, ReadDr(w).1));
  }

  lemma {:induction false} DrainKeepsBooks(w: World)
    ensures SameBooks(w, DrainRx(w))
    decreases |w.script|, |w.h.rxFifo|
  {
    TickKeepsBooks(w);
    TickIsBusOnly(w);
    hide Tick, DrainByte, BusOnly, SameBooks;
    var seen := ReadFr(w);
    if seen.h.rxFifo != [] {
      DrainByteShrinks(seen);
      DrainByteKeepsBooks(seen);
      DrainKeepsBooks(DrainByte(seen));
      BooksChain(w, seen, DrainByte(seen));
      BooksChain(w, DrainByte(seen), DrainRx(w));
    }
  }

  lemma CloseKeepsBooks(w: World, cut: nat)
    ensures SameBooks(w, CloseBurst(w, cut))
  {
  }

  lemma SetReadyKeepsBooks(w: World, level: bool, edge: Edge)
    ensures SameBooks(w, SetReady(w, level, edge))
  {
    TickKeepsBooks(w);
    hide Tick;
  }

  lemma FinishKeepsBooks(w: World)
    ensures SameBooks(w, FinishRx(w))
  {
    if w.d.InBurst() {
      var cut := |w.rx.writes|;
      var cleared := w.(d := w.d.(tx := [], loaded := 0));
      var raised := SetReady(cleared, true, Ack(cleared.d.requestGeneration));
      assert SameBooks(w, cleared);
      hide SameBooks, SetReady, CloseBurst;
      SetReadyKeepsBooks(cleared, true, Ack(cleared.d.requestGeneration));
      SetReadyKeepsBooks(raised, false, Release);
      BooksChain(w, cleared, raised);
      BooksChain(w, raised, AckRequest(cleared));
      CloseKeepsBooks(AckRequest(cleared), cut);
      CloseKeepsBooks(w, cut);
      BooksChain(w, AckRequest(cleared), CloseBurst(AckRequest(cleared), cut));
    } else {
      assert FinishRx(w) == w;
    }
  }

  lemma ErrorsKeepBooks(w: World)
    ensures SameBooks(w, ServiceErrors(w))
  {
    var read := ReadRsr(w);
    TickKeepsBooks(w);
    TickKeepsBooks(CountErrors(read));
    assert SameBooks(read, CountErrors(read));
    hide Tick;
  }

  lemma RefillKeepsBooks(w: World)
    ensures SameBooks(w, RefillTx(w))
  {
    RefillFrame(w);
    hide RefillTx;
  }

  lemma ServiceKeepsBooks(w: World)
    ensures SameBooks(w, Service(w))
  {
    hide SameBooks, ServiceErrors, DrainRx, FinishRx, RefillTx, Tick;
    var checked := ServiceErrors(w);
    var drained := DrainRx(checked);
    var seen := Snapshot(w);
    ErrorsKeepBooks(w);
    DrainKeepsBooks(checked);
    TickKeepsBooks(drained);
    BooksChain(w, checked, drained);
    BooksChain(w, drained, seen);
    FinishKeepsBooks(seen);
    BooksSelf(seen);
    var finished := if !FlagsOf(seen.h).rxBusy && FlagsOf(seen.h).rxEmpty then FinishRx(seen) else seen;
    BooksChain(w, seen, finished);
    RefillKeepsBooks(finished);
    BooksChain(w, finished, Service(w));
  }

  lemma BooksSelf(w: World)
    ensures SameBooks(w, w)
  {
  }

  // ---- Deciding a response ----

  /** The state in which a publication is decided. */
  function Decision(w: World): World {
    CheckIdle(ConsumeTurn(Service(w)))
  }

  /**
   A worker with a turn always spends it on one verdict. It is published, whole and for the record it read last,
   exactly if no newer burst has begun and the bus is idle; what the hardware then held will precede it.
   Otherwise it is discarded. Without a turn, or without READY, nothing is decided.
   */
  lemma PublicationDecided(w: World, data: seq<byte>)
    ensures var (after, result, decision) := (PublishResponse(w, data).0, PublishResponse(w, data).1, Decision(w));
            var publication := Publication(w.own.LastRead(), decision.rx.Begun(), data);
            && after.own.delivered == w.own.delivered && SameAccounts(w, after) && SameTallies(w, after)
            && (if !w.d.hasReady || !w.d.workerPending then
                  && (result == if w.d.hasReady then EPROTO else EOPNOTSUPP)
                  && after.own.published == w.own.published && after.own.discards == w.own.discards
                else
                  && result == Done(|data|) && !after.d.workerPending
                  && (if w.d.workerGeneration == decision.d.requestGeneration && decision.d.work == [] && !decision.h.rxBusy then
                        && after.own.published == w.own.published + [publication] && after.own.discards == w.own.discards
                        && after.d.queued && after.d.tx == data && after.h.ready && after.wire.stale == decision.h.TxContents()
                        && after.d.stats.txBytes == w.d.stats.txBytes + |data|
                      else
                        && after.own.published == w.own.published && after.own.discards == w.own.discards + 1
                        && after.d.stats.txBytes == w.d.stats.txBytes))
  {
    ServiceKeepsBooks(w);
    hide Service, CheckIdle, Reply;
    var turn := ConsumeTurn(Service(w));
    CheckKeepsBooks(turn);
    if w.d.hasReady && w.d.workerPending {
      ReplyVerdict(CheckIdle(turn), data);
    }
  }

  lemma CheckKeepsBooks(w: World)
    ensures SameBooks(w, CheckIdle(w)) && CheckIdle(w).d == w.d
  {
    TickIsBusOnly(w);
    hide Tick;
  }

  lemma ReplyVerdict(w: World, data: seq<byte>)
    requires w.d.hasReady
    ensures var after := Reply(w, data);
            && after.own == w.own.(published := w.own.published + [Publication(w.own.LastRead(), w.rx.Begun(), data)])
            && SameAccounts(w, after) && SameTallies(w, after) && after.d.stats.txBytes == w.d.stats.txBytes + |data|
            && after.d.queued && after.d.tx == data && after.h.ready
            && after.d.workerPending == w.d.workerPending && after.wire.stale == w.h.TxContents()
  {
    var begun := BeginResponse(w, data);
    assert Balance(begun) == Balance(w);
    RefillFrame(begun);
    RefillGrows(begun);
    hide RefillTx, SetReady;
    var counted := CountReply(RefillTx(begun), |data|);
    SetReadyFrame(counted, true, Respond(counted.d.requestGeneration));
    SetReadyGrows(counted, true, Respond(counted.d.requestGeneration));
  }
}
