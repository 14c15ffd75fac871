/** What holds in every run. */
module BscPromises {
  import opened Bytes
  import opened BscWorld
  import opened BscDriver
  import opened BscInvariant
  import opened BscActions
  import opened BscMachine
  import opened BscPurge
  import opened BscBooks

  // ---- Records ----

  /** Nothing is missing of the writes from `lo` on, below `hi`. */
  ghost predicate Undamaged(rx: RxLog, lo: nat, hi: nat) {
    forall i | lo <= i < hi :: !Damaged(rx, i)
  }

  /** The controller writes of finished burst `k`, as they were sent. */
  ghost function BurstSent(rx: RxLog, k: nat): seq<seq<byte>>
    requires CutsOk(rx) && |rx.bus.sent| == |rx.writes| && 1 <= k <= rx.Bursts()
  {
    rx.bus.sent[rx.cuts[k - 1]..rx.cuts[k]]
  }

  /** The record is one or more controller writes of this open, each taken as it was sent, and nothing else. */
  ghost predicate WholeWrites(rx: RxLog, r: Record) {
    && CutsOk(rx) && 1 <= r.burst <= rx.Bursts() && |rx.bus.sent| == |rx.writes|
    && BurstSent(rx, r.burst) != [] && BurstWrites(rx, r.burst) == BurstSent(rx, r.burst)
    && r.data == Flatten(BurstSent(rx, r.burst))
  }

  /** The record is whole unless a write was damaged, or it is the first and the FIFO was not empty when opened. */
  ghost predicate WholeUnlessTouched(rx: RxLog, r: Record) {
    && CutsOk(rx) && 1 <= r.burst <= rx.Bursts() && |rx.bus.sent| == |rx.writes|
    && r.data == BurstBytes(rx, r.burst) && 0 < |r.data| <= 8192
    && var undamaged := Undamaged(rx, rx.cuts[r.burst - 1], rx.cuts[r.burst]);
       && (WholeWrites(rx, r) <==> undamaged && Lead(rx, r.burst) == [])
       && (Lead(rx, r.burst) == [] ==> (r.data == Flatten(BurstSent(rx, r.burst)) <==> undamaged))
  }

  /** Parts that are the same or shorter are together the same or shorter. */
  lemma {:induction false} Shorter(taken: seq<seq<byte>>, sent: seq<seq<byte>>)
    requires |taken| == |sent|
    requires forall i | 0 <= i < |sent| :: taken[i] == sent[i] || |taken[i]| < |sent[i]|
    ensures taken == sent || |Flatten(taken)| < |Flatten(sent)|
  {
    if sent != [] {
      Shorter(taken[1..], sent[1..]);
      assert taken == [taken[0]] + taken[1..] && sent == [sent[0]] + sent[1..];
    }
  }

  /** Of any stretch of writes the target has taken what was sent if none is damaged, and otherwise less. */
  lemma TakenAsSent(busy: bool, rx: RxLog, lo: nat, hi: nat)
    requires SentInv(busy, rx) && lo <= hi <= |rx.writes|
    ensures Undamaged(rx, lo, hi) ==> rx.writes[lo..hi] == rx.bus.sent[lo..hi]
    ensures !Undamaged(rx, lo, hi) ==> |Flatten(rx.writes[lo..hi])| < |Flatten(rx.bus.sent[lo..hi])|
  {
    var (taken, sent) := (rx.writes[lo..hi], rx.bus.sent[lo..hi]);
    if Undamaged(rx, lo, hi) {
      assert forall i | lo <= i < hi :: rx.writes[i] == rx.bus.sent[i];
    } else {
      var i :| lo <= i < hi && Damaged(rx, i);
      assert |taken[i - lo]| < |sent[i - lo]|;
      forall k | 0 <= k < |sent| ensures taken[k] == sent[k] || |taken[k]| < |sent[k]| {
        assert if Damaged(rx, lo + k) then |rx.writes[lo + k]| < |rx.bus.sent[lo + k]|
               else rx.writes[lo + k] == rx.bus.sent[lo + k];
      }
      hide Damaged, SentInv, SignalInv;
      Shorter(taken, sent);
    }
  }

  /**
   In every run the target has taken each write exactly as it was sent, unless a byte of it met a full FIFO or came
   after a change of mode had cut the write short; then it has taken less. Only a cut write can lose its end.
   */
  lemma WritesAreTakenAsSent(s: Setup, actions: seq<Action>)
    requires s.Plausible()
    ensures var rx := Reach(s, actions).w.rx;
            && |rx.bus.sent| == |rx.writes| && rx.bus.clipped <= rx.severed
            && forall i | 0 <= i < |rx.writes| ::
                 && (rx.writes[i] == rx.bus.sent[i] <==> i !in rx.holed && i !in rx.bus.clipped)
                 && (rx.writes[i] == rx.bus.sent[i] || |rx.writes[i]| < |rx.bus.sent[i]|)
  {
    EveryRunIsSafe(s, actions);
    var w := Reach(s, actions).w;
    assert SentInv(w.h.rxBusy, w.rx);
    hide Reach, Safe;
  }

  lemma RecordIsWhole(busy: bool, rx: RxLog, r: Record)
    requires RecordOk(rx, r) && SentInv(busy, rx)
    ensures WholeUnlessTouched(rx, r)
  {
    TakenAsSent(busy, rx, rx.cuts[r.burst - 1], rx.cuts[r.burst]);
    hide SentInv, SignalInv, CutsOk, Flatten, Undamaged;
    var (lead, bytes) := (Lead(rx, r.burst), Flatten(BurstWrites(rx, r.burst)));
    FlattenNothing();
    assert |lead + bytes| == |lead| + |bytes|;
    if lead == [] {
      assert lead + bytes == bytes;
    }
  }

  /**
   Every record is what was taken of the controller writes between two cuts, so it never splits one; it is whole
   writes of this open, as they were sent, if and only if none of them was damaged and no older bytes precede it;
   and records come in the order of the bus.
   */
  lemma RecordsAreWholeWrites(s: Setup, actions: seq<Action>)
    requires s.Plausible()
    ensures var w := Reach(s, actions).w;
            && |w.own.ids| == |w.d.queue|
            && (forall i | 0 <= i < |w.own.delivered| :: WholeUnlessTouched(w.rx, w.own.delivered[i]))
            && (forall i | 0 <= i < |w.own.ids| :: WholeUnlessTouched(w.rx, Record(w.own.ids[i], w.d.queue[i])))
            && (forall i, j | 0 <= i < j < |w.own.delivered| :: w.own.delivered[i].burst < w.own.delivered[j].burst)
            && (forall i, j | 0 <= i < j < |w.own.ids| :: w.own.ids[i] < w.own.ids[j])
            && (forall i, j | 0 <= i < |w.own.delivered| && 0 <= j < |w.own.ids| :: w.own.delivered[i].burst < w.own.ids[j])
  {
    EveryRunIsSafe(s, actions);
    var w := Reach(s, actions).w;
    assert RecordsInv(w.d, w.rx, w.own) && SentInv(w.h.rxBusy, w.rx);
    hide Reach, Safe, RecordOk, CutsOk, SentInv, SignalInv, WholeUnlessTouched;
    forall i | 0 <= i < |w.own.delivered| ensures WholeUnlessTouched(w.rx, w.own.delivered[i]) {
      RecordIsWhole(w.h.rxBusy, w.rx, w.own.delivered[i]);
    }
    forall i | 0 <= i < |w.own.ids| ensures WholeUnlessTouched(w.rx, Record(w.own.ids[i], w.d.queue[i])) {
      RecordIsWhole(w.h.rxBusy, w.rx, Record(w.own.ids[i], w.d.queue[i]));
    }
  }

  /** Consecutive bursts put together are the writes they consist of, after what the first began with. */
  lemma {:induction false} BurstsJoin(rx: RxLog, datas: seq<seq<byte>>)
    requires CutsOk(rx) && 0 < |datas| <= rx.Bursts()
    requires forall i | 0 <= i < |datas| :: datas[i] == BurstBytes(rx, i + 1)
    ensures Flatten(datas) == rx.leftover + Flatten(rx.writes[rx.cuts[0]..rx.cuts[|datas|]])
    decreases |datas|
  {
    hide Flatten, BurstBytes, BurstWrites, CutsOk;
    var n := |datas| - 1;
    SplitLast(datas);
    NextBurst(rx, n);
    assert datas[n] == BurstBytes(rx, n + 1);
    if n == 0 {
      assert datas[..0] == [];
      FlattenNothing();
      assert [] + datas[0] == datas[0];
    } else {
      BurstsJoin(rx, datas[..n]);
      var first := rx.writes[rx.cuts[0]..rx.cuts[n]];
      Reassociate(rx.leftover, Flatten(first), Flatten(BurstWrites(rx, n + 1)));
    }
  }

  /** One more burst: the first begins with what was left over, a later one adds its writes. */
  lemma NextBurst(rx: RxLog, n: nat)
    requires CutsOk(rx) && n < rx.Bursts()
    ensures rx.cuts[0] <= rx.cuts[n] <= rx.cuts[n + 1] <= |rx.writes|
    ensures n == 0 ==> BurstBytes(rx, n + 1) == rx.leftover + Flatten(rx.writes[rx.cuts[0]..rx.cuts[n + 1]])
    ensures n > 0 ==> BurstBytes(rx, n + 1) == Flatten(BurstWrites(rx, n + 1))
    ensures Flatten(rx.writes[rx.cuts[0]..rx.cuts[n + 1]])
         == Flatten(rx.writes[rx.cuts[0]..rx.cuts[n]]) + Flatten(BurstWrites(rx, n + 1))
  {
    WritesJoin(rx, n);
    FlattenAppend(rx.writes[rx.cuts[0]..rx.cuts[n]], BurstWrites(rx, n + 1));
    hide Flatten;
    if n > 0 {
      assert BurstBytes(rx, n + 1) == [] + Flatten(BurstWrites(rx, n + 1));
    }
  }

  lemma WritesJoin(rx: RxLog, n: nat)
    requires CutsOk(rx) && n < rx.Bursts()
    ensures rx.writes[rx.cuts[0]..rx.cuts[n + 1]] == rx.writes[rx.cuts[0]..rx.cuts[n]] + BurstWrites(rx, n + 1)
  {
  }

  lemma SplitLast(datas: seq<seq<byte>>)
    requires datas != []
    ensures Flatten(datas) == Flatten(datas[..|datas| - 1]) + datas[|datas| - 1]
  {
    var n := |datas| - 1;
    assert datas == datas[..n] + [datas[n]];
    FlattenAppend(datas[..n], [datas[n]]);
    FlattenOne(datas[n]);
  }

  // ---- Conservation ----

  /** All finished bursts up to the `n`-th. */
  ghost function AllBursts(rx: RxLog, n: nat): (bursts: seq<seq<byte>>)
    requires CutsOk(rx) && n <= rx.Bursts()
    ensures |bursts| == n
  {
    seq(n, i requires 0 <= i < n => BurstBytes(rx, i + 1))
  }

  /** Records of different bursts, in their order. */
  ghost predicate InOrder(rx: RxLog, records: seq<Record>) {
    && (forall i | 0 <= i < |records| :: RecordOk(rx, records[i]))
    && (forall i, j | 0 <= i < j < |records| :: records[i].burst < records[j].burst)
  }

  /** Records of some of the bursts hold fewer bytes than all bursts do, by one at least for each burst they lack. */
  lemma {:induction false} FewerBytes(rx: RxLog, records: seq<Record>, n: nat)
    requires CutsOk(rx) && NoEmptyBurst(rx) && n <= rx.Bursts() && InOrder(rx, records)
    requires records != [] ==> records[|records| - 1].burst <= n
    ensures |records| <= n && |Flatten(Datas(records))| + (n - |records|) <= |Flatten(AllBursts(rx, n))|
    ensures |records| == n ==> Datas(records) == AllBursts(rx, n)
    decreases n
  {
    hide AllBursts, Datas, Flatten, InOrder, BurstBytes, NoEmptyBurst;
    if n == 0 {
      BurstsStart(rx, records);
      NothingAtAll(rx);
    } else {
      LastBurst(rx, n);
      if records != [] && records[|records| - 1].burst == n {
        var rest := records[..|records| - 1];
        AllButLast(rx, records);
        FewerBytes(rx, rest, n - 1);
        SplitLast(Datas(records));
      } else {
        BurstsStart(rx, records);
        FewerBytes(rx, records, n - 1);
      }
    }
  }

  lemma BurstsStart(rx: RxLog, records: seq<Record>)
    requires InOrder(rx, records)
    ensures records != [] ==> records[|records| - 1].burst >= 1
  {
    if records != [] {
      assert RecordOk(rx, records[|records| - 1]);
    }
  }

  lemma NothingAtAll(rx: RxLog)
    requires CutsOk(rx)
    ensures AllBursts(rx, 0) == [] == Datas([]) && Flatten(AllBursts(rx, 0)) == []
  {
  }

  lemma AllButLast(rx: RxLog, records: seq<Record>)
    requires InOrder(rx, records) && records != []
    ensures var (rest, last) := (records[..|records| - 1], records[|records| - 1]);
            && InOrder(rx, rest) && (rest != [] ==> rest[|rest| - 1].burst < last.burst)
            && Datas(records)[..|rest|] == Datas(rest) && Datas(records) == Datas(rest) + [last.data]
            && CutsOk(rx) && 1 <= last.burst <= rx.Bursts() && last.data == BurstBytes(rx, last.burst)
  {
    hide BurstBytes;
    assert RecordOk(rx, records[|records| - 1]);
  }

  lemma LastBurst(rx: RxLog, n: nat)
    requires CutsOk(rx) && NoEmptyBurst(rx) && 1 <= n <= rx.Bursts()
    ensures Flatten(AllBursts(rx, n)) == Flatten(AllBursts(rx, n - 1)) + BurstBytes(rx, n) && BurstBytes(rx, n) != []
    ensures AllBursts(rx, n) == AllBursts(rx, n - 1) + [BurstBytes(rx, n)]
  {
    assert AllBursts(rx, n)[..n - 1] == AllBursts(rx, n - 1);
    SplitLast(AllBursts(rx, n));
  }

  /** Delivered, then waiting. */
  ghost function Kept(w: World): seq<Record>
    requires |w.own.ids| == |w.d.queue|
  {
    w.own.delivered + seq(|w.own.ids|, i requires 0 <= i < |w.own.ids| => Record(w.own.ids[i], w.d.queue[i]))
  }

  lemma KeptInOrder(w: World)
    requires RecordsInv(w.d, w.rx, w.own)
    ensures InOrder(w.rx, Kept(w)) && |Kept(w)| + w.own.lost == w.rx.Bursts()
    ensures Datas(Kept(w)) == Datas(w.own.delivered) + w.d.queue
    ensures Kept(w) != [] ==> Kept(w)[|Kept(w)| - 1].burst <= w.rx.Bursts()
  {
    hide RecordOk, CutsOk;
    var (kept, n) := (Kept(w), |w.own.delivered|);
    forall i | 0 <= i < |kept| ensures RecordOk(w.rx, kept[i]) {
      assert i >= n ==> kept[i] == Record(w.own.ids[i - n], w.d.queue[i - n]);
    }
    if kept != [] {
      RecordsAreEarlier(w.rx, kept[|kept| - 1]);
    }
  }

  lemma RecordsAreEarlier(rx: RxLog, r: Record)
    requires RecordOk(rx, r)
    ensures r.burst <= rx.Bursts()
  {
  }

  /** What the target has taken of the controller's writes since the open, after what the FIFO held then. */
  ghost function Arrived(rx: RxLog): seq<byte>
    requires CutsOk(rx)
  {
    (rx.leftover + Flatten(rx.writes[rx.cuts[0]..])) + rx.partial
  }

  /** The log is in order, and holds each write as it was taken and as it was sent. */
  ghost predicate Logged(rx: RxLog) {
    CutsOk(rx) && |rx.bus.sent| == |rx.writes|
  }

  /** What the controller has sent since the open, after what the FIFO held then. */
  ghost function Sent(rx: RxLog): seq<byte>
    requires Logged(rx)
  {
    (rx.leftover + Flatten(rx.bus.sent[rx.cuts[0]..])) + rx.bus.sending
  }

  /** No write since the open has met a full FIFO or lost its end. */
  ghost predicate Intact(rx: RxLog) {
    CutsOk(rx) && Undamaged(rx, rx.cuts[0], |rx.writes| + 1)
  }

  /** What became of it: delivered, waiting, in the work buffer, or still in the FIFO. */
  function Held(w: World): seq<byte> {
    Flatten(Datas(w.own.delivered) + w.d.queue) + (w.d.work + w.h.rxFifo)
  }

  /** The same with the whole burst in progress, of which the work buffer may hold only a part. */
  function Received(w: World): seq<byte> {
    Flatten(Datas(w.own.delivered) + w.d.queue) + (w.rx.burst + w.h.rxFifo)
  }

  /**
   Conservation. In every run, the bytes delivered, waiting, in the work buffer and in the FIFO are together exactly
   what the FIFO held when the device was opened and what the controller has sent since, if and only if no record was
   lost, the burst in progress has not overflowed, and no write was damaged.
   */
  lemma NothingIsMissing(s: Setup, actions: seq<Action>)
    requires s.Plausible()
    ensures var w := Reach(s, actions).w;
            && Logged(w.rx)
            && (Held(w) == Sent(w.rx) <==> w.own.lost == 0 && !w.d.overflowed && Intact(w.rx))
            && (Held(w) == Arrived(w.rx) <==> w.own.lost == 0 && !w.d.overflowed)
  {
    EveryRunIsSafe(s, actions);
    hide Reach;
    SafeStream(Reach(s, actions).w);
  }

  lemma SafeStream(w: World)
    requires Inv(w, false)
    ensures Logged(w.rx)
    ensures Held(w) == Arrived(w.rx) <==> w.own.lost == 0 && !w.d.overflowed
    ensures Held(w) == Sent(w.rx) <==> w.own.lost == 0 && !w.d.overflowed && Intact(w.rx)
    ensures w.own.lost == 0 ==> Received(w) == Arrived(w.rx)
  {
    hide RecordsInv, OwnInv, TxInv, EdgeInv, Received, Arrived, Sent, Intact, SentInv, SignalInv;
    WholeStream(w);
    HeldIsReceived(w);
    SentInvLengths(w.h.rxBusy, w.rx);
    ArrivedOfSent(w.h.rxBusy, w.rx);
  }

  lemma SentInvLengths(busy: bool, rx: RxLog)
    requires SentInv(busy, rx)
    ensures |rx.bus.sent| == |rx.writes|
  {
  }

  lemma HeldIsReceived(w: World)
    requires RxInv(w.d, w.h, w.rx)
    ensures if w.d.overflowed then |Held(w)| < |Received(w)| else Held(w) == Received(w)
  {
    hide CutsOk, NoEmptyBurst, Ended, Flatten, Datas;
  }

  /** Every lost record is a byte missing at least. */
  lemma WholeStream(w: World)
    requires RxInv(w.d, w.h, w.rx) && RecordsInv(w.d, w.rx, w.own)
    ensures if w.own.lost == 0 then Received(w) == Arrived(w.rx) else |Received(w)| < |Arrived(w.rx)|
  {
    KeptInOrder(w);
    var n := w.rx.Bursts();
    FewerBytes(w.rx, Kept(w), n);
    AllArrived(w);
    hide RxInv, RecordsInv, CutsOk, Arrived, Datas, Flatten, Kept, AllBursts;
    assert |Flatten(AllBursts(w.rx, n)) + (w.rx.burst + w.h.rxFifo)| ==
           |Flatten(AllBursts(w.rx, n))| + |w.rx.burst + w.h.rxFifo|;
  }

  /** The finished bursts, the one in progress and the FIFO are all that has arrived. */
  lemma AllArrived(w: World)
    requires RxInv(w.d, w.h, w.rx)
    ensures Flatten(AllBursts(w.rx, w.rx.Bursts())) + (w.rx.burst + w.h.rxFifo) == Arrived(w.rx)
  {
    hide NoEmptyBurst, Flatten;
    var n := w.rx.Bursts();
    var bursts := AllBursts(w.rx, n);
    if n == 0 {
      FlattenNothing();
      assert bursts == [];
      assert [] + (w.rx.burst + w.h.rxFifo) == w.rx.burst + w.h.rxFifo;
    } else {
      BurstsJoin(w.rx, bursts);
      SplitStream(w.rx, n);
      JoinStream(Flatten(bursts), Flatten(OpenWrites(w.rx)), w.rx.partial, w.rx.burst + w.h.rxFifo);
    }
  }

  lemma ArrivedOfSent(busy: bool, rx: RxLog)
    requires CutsOk(rx) && SentInv(busy, rx)
    ensures if Intact(rx) then Arrived(rx) == Sent(rx) else |Arrived(rx)| < |Sent(rx)|
  {
    var n := |rx.writes|;
    TakenAsSent(busy, rx, rx.cuts[0], n);
    assert rx.writes[rx.cuts[0]..n] == rx.writes[rx.cuts[0]..] && rx.bus.sent[rx.cuts[0]..n] == rx.bus.sent[rx.cuts[0]..];
    assert Intact(rx) <==> Undamaged(rx, rx.cuts[0], n) && !Damaged(rx, n);
    assert n !in rx.bus.clipped;
    hide CutsOk, Flatten, Undamaged, Intact;
  }

  lemma FlattenNothing()
    ensures Flatten<byte>([]) == []
  {
  }

  lemma SplitStream(rx: RxLog, n: nat)
    requires CutsOk(rx) && 0 < n == rx.Bursts()
    ensures rx.leftover + Flatten(rx.writes[rx.cuts[0]..])
         == (rx.leftover + Flatten(rx.writes[rx.cuts[0]..rx.cuts[n]])) + Flatten(OpenWrites(rx))
    ensures Ended(rx) == Flatten(OpenWrites(rx))
  {
    var done := rx.writes[rx.cuts[0]..rx.cuts[n]];
    assert rx.writes[rx.cuts[0]..] == done + OpenWrites(rx);
    FlattenAppend(done, OpenWrites(rx));
    Reassociate(rx.leftover, Flatten(done), Flatten(OpenWrites(rx)));
    assert Ended(rx) == [] + Flatten(OpenWrites(rx));
  }

  lemma JoinStream(done: seq<byte>, ended: seq<byte>, partial: seq<byte>, rest: seq<byte>)
    requires ended + partial == rest
    ensures done + rest == (done + ended) + partial
  {
  }

  /** Actions that start a new account: opening and closing reset the traffic, CLEAR_STATS the counters. */
  predicate NewAccount(a: Action) {
    a.Clear? || a.OpenFinish? || a.ReleaseBegin? || a.RemoveEnd?
  }

  lemma ActBalances(m: Machine, a: Action)
    requires !NewAccount(a)
    ensures SameAccounts(m.w, Act(m, a).w)
  {
    match a
    case Bus(events) =>
      HappenAllIsBusOnly(m.w, events);
      hide HappenAll;
    case OpenBegin =>
    case ReleaseEnd =>
    case RemoveBegin =>
    case _ => OperationBalances(m, a);
  }

  lemma OperationBalances(m: Machine, a: Action)
    requires a.Interrupt? || a.TimerRun? || a.Read? || a.Write? || a.RecoverRequest?
    ensures SameAccounts(m.w, Act(m, a).w)
  {
    hide Irq, Timer, ReadMessage, QueueResponse, RecoverIoctl, SameAccounts, Under;
    AccountsSelf(m.w);
    match a
    case Interrupt(pending, script) =>
      TimersBalance(Under(m.w, script), pending);
      RestIsNoAccount(m.w, script, Irq(Under(m.w, script), pending));
    case TimerRun(script) =>
      TimersBalance(Under(m.w, script), false);
      RestIsNoAccount(m.w, script, Timer(Under(m.w, script)));
    case Read(capacity) => ReadBalances(m.w, capacity);
    case Write(data, script) =>
      RepliesBalance(Under(m.w, script), data);
      RestIsNoAccount(m.w, script, QueueResponse(Under(m.w, script), data).0);
    case RecoverRequest(script) =>
      RepliesBalance(Under(m.w, script), []);
      RestIsNoAccount(m.w, script, RecoverIoctl(Under(m.w, script)).0);
  }

  lemma AccountsSelf(w: World)
    ensures SameAccounts(w, w)
  {
  }

  lemma RestIsNoAccount(w: World, script: seq<seq<Event>>, after: World)
    requires SameAccounts(Under(w, script), after)
    ensures SameAccounts(w, Rest(after))
  {
  }

  lemma TimersBalance(w: World, pending: bool)
    ensures SameAccounts(w, Irq(w, pending)) && SameAccounts(w, Timer(w))
  {
    hide Service, Tick;
    ServiceKeepsBooks(CountInterrupt(w));
    TickKeepsBooks(Service(CountInterrupt(w)));
    ServiceKeepsBooks(CountTimer(w));
  }

  lemma ReadBalances(w: World, capacity: nat)
    ensures SameAccounts(w, ReadMessage(w, capacity).0)
  {
  }

  lemma RepliesBalance(w: World, data: seq<byte>)
    ensures SameAccounts(w, QueueResponse(w, data).0) && SameAccounts(w, RecoverIoctl(w).0)
  {
    hide PublishResponse, RecoverResponse, Balance;
    PublicationDecided(w, data);
    RecoveryBalances(w);
  }

  lemma RecoveryBalances(w: World)
    ensures SameAccounts(w, RecoverResponse(w).0)
  {
    ServiceKeepsBooks(w);
    hide Service, CheckIdle, Recover;
    CheckKeepsBooks(Service(w));
    RecoverFrame(CheckIdle(Service(w)));
  }

  /**
   Over any stretch of a run the counters agree with what happened: every received record is delivered, dropped
   or waiting, every verdict is counted as published or discarded, and every purge is a counted recovery.
   */
  lemma {:induction false} RunBalances(m: Machine, actions: seq<Action>)
    requires forall i | 0 <= i < |actions| :: !NewAccount(actions[i])
    ensures SameAccounts(m.w, Run(m, actions).w)
    decreases |actions|
  {
    hide Act, Balance;
    if actions != [] {
      ActBalances(m, actions[0]);
      RunBalances(Act(m, actions[0]), actions[1..]);
    }
  }

  lemma SafeStands(m: Machine)
    requires Safe(m)
    ensures Inv(m.w, false)
  {
    hide Inv;
  }

  lemma OpeningLosesNothing(m: Machine, a: Action)
    requires a.OpenFinish? && Purging(m, a)
    ensures Act(m, a).w.own.lost == 0 && Act(m, a).w.own.overflowed == m.w.own.overflowed
  {
    var w := Under(m.w, a.script);
    SetReadyIsSteady(Cleared(w), false, Release);
    hide SetReady, Configure;
    ConfigureFrame(ResetIo(w).(d := ResetIo(w).d.(active := true)));
  }

  /** The actions that may cut a controller write short: they take the peripheral out of target mode. */
  predicate Severing(m: Machine, a: Action) {
    Purging(m, a) || a.ReleaseBegin? || a.RemoveEnd?
  }

  lemma SeveredOnlyByModeChange(m: Machine, a: Action)
    requires !Severing(m, a)
    ensures Act(m, a).w.rx.severed == m.w.rx.severed
  {
    hide HappenAll, Service, PublishResponse, RecoverResponse, Tick, Activate, Deactivate;
    match a
    case Bus(events) => HappenAllIsBusOnly(m.w, events);
    case Interrupt(pending, script) =>
      ServiceIsSteady(CountInterrupt(Under(m.w, script)));
      TickIsSteady(Service(CountInterrupt(Under(m.w, script))));
    case TimerRun(script) => ServiceIsSteady(CountTimer(Under(m.w, script)));
    case Write(data, script) => PublishIsSteady(Under(m.w, script), data);
    case RecoverRequest(script) => FailedRecoveryIsSteady(Under(m.w, script));
    case _ =>
  }

  lemma FailedRecoveryIsSteady(w: World)
    ensures RecoverResponse(w).1 != Done(0) ==> RecoverResponse(w).0.rx.severed == w.rx.severed
  {
    ServiceIsSteady(w);
    hide Service, CheckIdle, Recover;
    CheckIsSteady(Service(w));
  }

  // ---- Ownership ----

  /**
   In every run every published response answers the record of the burst that was the latest one begun when it
   was published, and there are no more verdicts than deliveries.
   */
  lemma LatestRequestOwnership(s: Setup, actions: seq<Action>)
    requires s.Plausible()
    ensures var w := Reach(s, actions).w;
            && (forall i | 0 <= i < |w.own.published| :: w.own.published[i].burst == w.own.published[i].latest)
            && |w.own.published| + w.own.discards + (if w.d.workerPending then 1 else 0) <= |w.own.delivered|
  {
    EveryRunIsSafe(s, actions);
    var w := Reach(s, actions).w;
    assert OwnInv(w.d, w.h.ready, w.rx, w.own, false);
    hide Reach, Safe;
  }

  /** In every run the generation counts the bursts begun, and a waiting record is that of the latest burst. */
  lemma WaitingRecordIsLatest(s: Setup, actions: seq<Action>)
    requires s.Plausible()
    ensures var (w, d) := (Reach(s, actions).w, Reach(s, actions).w.d);
            && d.requestGeneration == w.rx.Begun() && |w.own.ids| == |d.queue| <= 1024
            && (d.hasReady && d.queue != [] ==>
                  |d.queue| == 1 && w.rx.burst == [] && w.own.ids[0] == d.requestGeneration)
            && (d.hasReady && d.workerPending ==> w.own.LastRead() == d.workerGeneration)
  {
    EveryRunIsSafe(s, actions);
    var w := Reach(s, actions).w;
    assert OwnInv(w.d, w.h.ready, w.rx, w.own, false);
    hide Reach, Safe;
  }

  // ---- READY ----

  /**
   READY is asserted between critical sections only for a response to the latest request or while a newer burst
   arrives, never while a record waits or a worker is at it; and over the whole run every response asserts a
   released line that was last asserted to acknowledge the same request.
   */
  lemma ReadyDiscipline(s: Setup, actions: seq<Action>)
    requires s.Plausible()
    ensures var (w, d) := (Reach(s, actions).w, Reach(s, actions).w.d);
            && w.h.ready == Asserted(w.edges) && Disciplined(w.edges)
            && (w.h.ready ==> d.hasReady && !d.workerPending && d.queue == [] && (d.queued || w.rx.burst != []))
            && (d.queued ==> d.workerGeneration == d.requestGeneration && w.rx.burst == [])
            && (w.h.ready ==> w.edges[|w.edges| - 1].Respond?)
            && (!d.hasReady ==> w.edges == [])
  {
    EveryRunIsSafe(s, actions);
    var w := Reach(s, actions).w;
    assert OwnInv(w.d, w.h.ready, w.rx, w.own, false) && EdgeInv(w.d, w.h.ready, w.rx, w.edges, false);
    hide Reach, Safe, Disciplined;
  }

  // ---- The transmit side ----

  /**
   In every run the transmit FIFO is never overfilled, and while a response is queued the controller has been
   given, and the hardware holds, what the account began with and then exactly the loaded part of it.
   */
  lemma TransmitAccountIsExact(s: Setup, actions: seq<Action>)
    requires s.Plausible()
    ensures var (w, d) := (Reach(s, actions).w, Reach(s, actions).w.d);
            && !w.wire.overfilled && |w.h.txFifo| <= 16
            && (d.queued ==>
                  && w.own.published != [] && w.own.published[|w.own.published| - 1].data == d.tx && d.loaded <= |d.tx|
                  && w.wire.out + w.h.TxContents() == w.wire.stale + d.tx[..d.loaded])
  {
    EveryRunIsSafe(s, actions);
    var w := Reach(s, actions).w;
    assert OwnInv(w.d, w.h.ready, w.rx, w.own, false) && TxInv(w.d, w.h, w.wire);
    hide Reach, Safe;
  }

  /**
   In every run READY announces a response only when it is in place: of the response all bytes, or as many as with what
   was there before fill serializer and FIFO, had been given to the hardware; less what the controller had taken by then,
   the hardware holds them in order. There is one such record for each announcement.
   */
  lemma AnnouncedResponsesAreLoaded(s: Setup, actions: seq<Action>)
    requires s.Plausible()
    ensures var (edges, signals) := (Reach(s, actions).w.edges, Reach(s, actions).w.wire.signals);
            && |signals| == Responses(edges)
            && forall i | 0 <= i < |signals| ::
                 var a := signals[i];
                 && a.loaded <= |a.data| && (a.loaded == |a.data| || |a.before| + a.loaded >= 17)
                 && a.out + a.held == a.before + a.data[..a.loaded]
  {
    EveryRunIsSafe(s, actions);
    var w := Reach(s, actions).w;
    assert SignalInv(w.edges, w.wire.signals);
    hide Reach, Safe, Responses;
    forall i | 0 <= i < |w.wire.signals| ensures SignalOk(w.wire.signals[i]) {
    }
  }

  /**
   Between critical sections the receive, break and overrun interrupts (bits 0, 2 and 3) of an active device are enabled,
   and the transmit interrupt (bit 1) exactly while response bytes are unloaded.
   */
  lemma TransmitInterruptIsExact(s: Setup, actions: seq<Action>)
    requires s.Plausible()
    ensures var (w, d) := (Reach(s, actions).w, Reach(s, actions).w.d);
            && (d.active ==> w.h.imsc == (if d.queued && d.loaded < |d.tx| then 0xf else 0xd))
            && (!d.active ==> w.h.imsc == 0)
  {
    EveryRunIsSafe(s, actions);
    hide Reach, Inv;
  }

  // ---- Lifecycle ----

  /**
   An inactive device is off: it acknowledges no address, raises no interrupt, holds READY released and keeps no
   traffic. An active one is open, addressed and in target mode, and a device that has been removed is inactive.
   */
  lemma LifecycleSafety(s: Setup, actions: seq<Action>)
    requires s.Plausible()
    ensures var (m, w, d) := (Reach(s, actions), Reach(s, actions).w, Reach(s, actions).w.d);
            && (!d.active ==> w.h.cr == 0 && w.h.imsc == 0 && w.h.slv == 0 && !w.h.ready
                              && d.work == [] && d.queue == [] && d.tx == [] && !d.queued && !d.workerPending)
            && (d.active ==> w.h.cr == 0x305 && w.h.slv == d.address && d.isOpen && m.phase.Opened?)
            && (d.dead && !m.removing ==> !d.active)
            && (d.isOpen <==> !m.phase.Closed?)
  {
    EveryRunIsSafe(s, actions);
    hide Reach, Inv;
  }

  /** The only actions that purge the transmit path: an open that activates and a recovery that succeeds. */
  predicate Purging(m: Machine, a: Action) {
    match a
    case OpenFinish(pinsSelected, _) => m.phase.Claimed? && !m.removing && !m.w.d.dead && pinsSelected
    case RecoverRequest(script) => m.phase.Opened? && RecoverIoctl(Under(m.w, script)).1 == Done(0)
    case _ => false
  }

  lemma PurgedOnlyByActivationOrRecovery(m: Machine, a: Action)
    ensures Act(m, a).w.purges == m.w.purges + if Purging(m, a) then 1 else 0
  {
    hide HappenAll, Service, PublishResponse, RecoverResponse, Tick, Activate, Deactivate;
    match a
    case Bus(events) => HappenAllIsBusOnly(m.w, events);
    case Interrupt(pending, script) =>
      ServiceIsSteady(CountInterrupt(Under(m.w, script)));
      TickIsSteady(Service(CountInterrupt(Under(m.w, script))));
    case TimerRun(script) => ServiceIsSteady(CountTimer(Under(m.w, script)));
    case Write(data, script) => PublishIsSteady(Under(m.w, script), data);
    case RecoverRequest(script) => RecoveryPurges(Under(m.w, script));
    case OpenFinish(_, script) => ActivationPurges(Under(m.w, script));
    case ReleaseBegin(script) => DeactivationPurgesNothing(Under(m.w, script));
    case RemoveEnd(script) => DeactivationPurgesNothing(Under(m.w, script));
    case _ =>
  }

  lemma RecoveryPurges(w: World)
    ensures RecoverResponse(w).0.purges == w.purges + if RecoverResponse(w).1 == Done(0) then 1 else 0
  {
    ServiceIsSteady(w);
    hide Service, CheckIdle, Recover;
    CheckIsSteady(Service(w));
    RecoverFrame(CheckIdle(Service(w)));
  }

  lemma CheckIsSteady(w: World)
    ensures Steady(w, CheckIdle(w))
  {
    TickIsSteady(w);
    hide Tick;
  }

  lemma PublishIsSteady(w: World, data: seq<byte>)
    ensures Steady(w, PublishResponse(w, data).0)
  {
    ServiceIsSteady(w);
    hide Service, CheckIdle, Reply;
    var turn := ConsumeTurn(Service(w));
    CheckIsSteady(turn);
    ReplyIsSteady(CheckIdle(turn), data);
  }

  lemma ReplyIsSteady(w: World, data: seq<byte>)
    ensures Steady(w, Reply(w, data))
  {
    var begun := BeginResponse(w, data);
    RefillFrame(begun);
    hide RefillTx, SetReady;
    var counted := CountReply(RefillTx(begun), |data|);
    SetReadyIsSteady(counted, true, Respond(counted.d.requestGeneration));
  }

  lemma ResetPurgesNothing(w: World)
    ensures ResetIo(w).purges == w.purges
  {
    SetReadyIsSteady(Cleared(w), false, Release);
    hide SetReady;
  }

  lemma ActivationPurges(w: World)
    ensures Activate(w).purges == w.purges + 1
  {
    ResetPurgesNothing(w);
    hide ResetIo, Configure;
    ConfigureFrame(ResetIo(w).(d := ResetIo(w).d.(active := true)));
  }

  lemma DeactivationPurgesNothing(w: World)
    ensures Deactivate(w).purges == w.purges
  {
    hide WriteImsc, WriteCr, WriteRsr, WriteSlv, ResetIo;
    var inactive := w.(d := w.d.(active := false));
    RegisterFrames(inactive, 0);
    var masked := WriteImsc(inactive, 0);
    RegisterFrames(masked, 0);
    var off := WriteCr(masked, 0);
    RegisterFrames(off, 0);
    RegisterFrames(WriteRsr(off), 0);
    ResetPurgesNothing(WriteSlv(WriteRsr(off), 0));
  }
}
