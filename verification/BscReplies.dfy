/** Replies over whole runs. */
module BscReplies {
  import opened Bytes
  import opened BscWorld
  import opened BscDriver
  import opened BscInvariant
  import opened BscService
  import opened BscActions
  import opened BscResponse
  import opened BscRecovery
  import opened BscMachine
  import opened BscPurge
  import opened BscBooks
  import opened BscPromises
  import opened BscLatency

  // ---- One account of the transmit side ----

  predicate Publishes(m: Machine, a: Action) {
    a.Write? && |Act(m, a).w.own.published| > |m.w.own.published|
  }

  /** Only a publication and a purge begin a new account of the transmit side. */
  predicate BeginsAccount(m: Machine, a: Action) {
    Publishes(m, a) || Purging(m, a)
  }

  predicate OneAccount(m: Machine, actions: seq<Action>)
    decreases |actions|
  {
    actions == [] || (!BeginsAccount(m, actions[0]) && OneAccount(Act(m, actions[0]), actions[1..]))
  }

  lemma CheckedGrows(w: World)
    ensures WireGrows(w, CheckIdle(Service(w))) && WireGrows(w, Decision(w)) && WireGrows(w, Service(w))
  {
    ServiceGrows(w);
    CheckGrows(Service(w));
    var turn := ConsumeTurn(Service(w));
    CheckGrows(turn);
    hide CheckIdle, Service;
  }

  lemma UnpublishedGrows(w: World, data: seq<byte>)
    requires |PublishResponse(w, data).0.own.published| <= |w.own.published|
    ensures WireGrows(w, PublishResponse(w, data).0)
  {
    PublicationDecided(w, data);
    CheckedGrows(w);
    ServiceKeepsBooks(w);
    CheckKeepsBooks(ConsumeTurn(Service(w)));
    hide Service, CheckIdle, Reply, WireGrows;
    DiscardGrows(w, Decision(w));
  }

  lemma DiscardGrows(w: World, decision: World)
    requires WireGrows(w, decision)
    ensures WireGrows(w, Discard(decision))
  {
  }

  lemma UnrecoveredGrows(w: World)
    requires RecoverResponse(w).1 != Done(0)
    ensures WireGrows(w, RecoverResponse(w).0)
  {
    CheckedGrows(w);
    hide Service, CheckIdle, Recover, WireGrows;
  }

  lemma OffGrows(w: World)
    ensures WireGrows(w, WriteCr(w, 0))
  {
    TickGrows(w);
    hide Tick;
  }

  lemma RegistersGrow(w: World, value: nat)
    ensures WireGrows(w, WriteImsc(w, value)) && WireGrows(w, WriteSlv(w, value)) && WireGrows(w, WriteRsr(w))
  {
    TickGrows(w);
    hide Tick;
  }

  lemma ResetGrows(w: World)
    ensures WireGrows(w, ResetIo(w))
  {
    SetReadyGrows(Cleared(w), false, Release);
    ResetIsRelease(w);
    hide SetReady, ResetIo;
  }

  lemma DeactivationGrows(w: World)
    ensures WireGrows(w, Deactivate(w))
  {
    hide WriteImsc, WriteCr, WriteRsr, WriteSlv, ResetIo;
    var inactive := w.(d := w.d.(active := false));
    var masked := WriteImsc(inactive, 0);
    var off := WriteCr(masked, 0);
    var cleared := WriteRsr(off);
    var silent := WriteSlv(cleared, 0);
    RegistersGrow(inactive, 0);
    OffGrows(masked);
    RegistersGrow(off, 0);
    RegistersGrow(cleared, 0);
    ResetGrows(silent);
    assert WireGrows(w, inactive);
    hide WireGrows, Disable;
    GrowsChain(w, inactive, masked);
    GrowsChain(w, masked, off);
    GrowsChain(w, off, cleared);
    GrowsChain(w, cleared, silent);
    GrowsChain(w, silent, ResetIo(silent));
    GrowsSelf(w);
    DisableIs(inactive);
  }

  lemma DisableIs(w: World)
    ensures Disable(w) == ResetIo(WriteSlv(WriteRsr(WriteCr(WriteImsc(w, 0), 0)), 0))
  {
  }

  /** Interrupts, timer, reads, failed recoveries, discarded results, even closing: none takes a byte back. */
  lemma ActGrows(m: Machine, a: Action)
    requires !BeginsAccount(m, a)
    ensures WireGrows(m.w, Act(m, a).w)
  {
    hide HappenAll, Irq, Timer, QueueResponse, RecoverIoctl, Activate, Deactivate;
    match a
    case Bus(events) => HappenAllGrows(m.w, events);
    case Interrupt(pending, script) => ServedGrows(Under(m.w, script), pending);
    case TimerRun(script) => ServedGrows(Under(m.w, script), false);
    case Write(data, script) => if m.phase.Opened? { WriteGrows(Under(m.w, script), data); }
    case RecoverRequest(script) => if m.phase.Opened? { RecoverGrows(Under(m.w, script)); }
    case ReleaseBegin(script) => DeactivationGrows(Under(m.w, script));
    case RemoveEnd(script) => DeactivationGrows(Under(m.w, script));
    case _ =>
  }

  lemma ServedGrows(w: World, pending: bool)
    ensures WireGrows(w, Irq(w, pending)) && WireGrows(w, Timer(w))
  {
    var counted := CountInterrupt(w);
    ServiceGrows(counted);
    TickGrows(Service(counted));
    ServiceGrows(CountTimer(w));
    hide Service, Tick;
  }

  lemma WriteGrows(w: World, data: seq<byte>)
    requires |QueueResponse(w, data).0.own.published| <= |w.own.published|
    ensures WireGrows(w, QueueResponse(w, data).0)
  {
    hide PublishResponse;
    if data != [] && |data| <= MAX_TRANSFER && !w.d.dead && w.d.active {
      UnpublishedGrows(w, data);
    }
  }

  lemma RecoverGrows(w: World)
    requires RecoverIoctl(w).1 != Done(0)
    ensures WireGrows(w, RecoverIoctl(w).0)
  {
    hide RecoverResponse;
    if !w.d.dead && w.d.active {
      UnrecoveredGrows(w);
    }
  }

  lemma {:induction false} RunGrows(m: Machine, actions: seq<Action>)
    requires OneAccount(m, actions)
    ensures WireGrows(m.w, Run(m, actions).w)
    decreases |actions|
  {
    hide Act, WireGrows, BeginsAccount;
    if actions == [] {
      GrowsSelf(m.w);
    } else {
      var next := Act(m, actions[0]);
      ActGrows(m, actions[0]);
      RunGrows(next, actions[1..]);
      GrowsChain(m.w, next.w, Run(m, actions).w);
    }
  }

  // ---- What was published stays what is sent ----

  /** The same publications, or none if the device was closed meanwhile. */
  ghost predicate NothingPublished(w: World, after: World) {
    after.own.published == w.own.published || after.own.published == []
  }

  lemma ActPublishesNothing(m: Machine, a: Action)
    requires !Publishes(m, a)
    ensures NothingPublished(m.w, Act(m, a).w)
  {
    hide HappenAll, Irq, Timer, QueueResponse, RecoverIoctl, Activate, Deactivate;
    match a
    case Bus(events) => HappenAllIsBusOnly(m.w, events);
    case Interrupt(pending, script) => ServedPublishesNothing(Under(m.w, script), pending);
    case TimerRun(script) => ServedPublishesNothing(Under(m.w, script), false);
    case Write(data, script) => WritePublishes(Under(m.w, script), data);
    case RecoverRequest(script) => RecoverPublishesNothing(Under(m.w, script));
    case OpenFinish(_, script) => ActivationForgets(Under(m.w, script));
    case ReleaseBegin(script) => DeactivationForgets(Under(m.w, script));
    case RemoveEnd(script) => DeactivationForgets(Under(m.w, script));
    case _ =>
  }

  lemma ServedPublishesNothing(w: World, pending: bool)
    ensures Irq(w, pending).own.published == w.own.published == Timer(w).own.published
  {
    ServiceKeepsBooks(CountInterrupt(w));
    TickKeepsBooks(Service(CountInterrupt(w)));
    ServiceKeepsBooks(CountTimer(w));
    hide Service, Tick;
  }

  lemma WritePublishes(w: World, data: seq<byte>)
    ensures var (before, after) := (w.own.published, QueueResponse(w, data).0.own.published);
            |after| <= |before| ==> after == before
  {
    PublicationDecided(w, data);
    hide PublishResponse;
  }

  lemma RecoverPublishesNothing(w: World)
    ensures RecoverIoctl(w).0.own.published == w.own.published
  {
    ServiceKeepsBooks(w);
    hide Service, CheckIdle, Recover;
    CheckKeepsBooks(Service(w));
    RecoverFrame(CheckIdle(Service(w)));
  }

  lemma ResetForgets(w: World)
    ensures ResetIo(w).own.published == []
  {
    ResetIsRelease(w);
    SetReadyIsSteady(Cleared(w), false, Release);
    hide SetReady, ResetIo;
  }

  lemma ActivationForgets(w: World)
    ensures Activate(w).own.published == []
  {
    ResetForgets(w);
    hide ResetIo, Configure;
    ConfigureFrame(ResetIo(w).(d := ResetIo(w).d.(active := true)));
  }

  lemma DeactivationForgets(w: World)
    ensures NothingPublished(w, Deactivate(w))
  {
    var inactive := w.(d := w.d.(active := false));
    DisableIs(inactive);
    ResetForgets(WriteSlv(WriteRsr(WriteCr(WriteImsc(inactive, 0), 0)), 0));
    hide Disable, ResetIo;
  }

  lemma {:induction false} RunPublishesNothing(m: Machine, actions: seq<Action>)
    requires OneAccount(m, actions)
    ensures NothingPublished(m.w, Run(m, actions).w)
    decreases |actions|
  {
    hide Act, Publishes, Purging;
    if actions != [] {
      ActPublishesNothing(m, actions[0]);
      RunPublishesNothing(Act(m, actions[0]), actions[1..]);
    }
  }

  // ---- Every reply, in every run ----

  /** The hardware is left with these bytes when a write decides over its response. */
  function Before(m: Machine, script: seq<seq<Event>>): seq<byte> {
    Decision(Under(m.w, script)).h.TxContents()
  }

  lemma PublicationBegins(m: Machine, data: seq<byte>, script: seq<seq<Event>>)
    requires Publishes(m, Write(data, script))
    ensures var w := Act(m, Write(data, script)).w;
            && w.wire.stale == Before(m, script) && w.d.queued && w.own.published != []
            && w.own.published[|w.own.published| - 1].data == data
  {
    PublicationDecided(Under(m.w, script), data);
    hide PublishResponse, Decision;
  }

  /** While a response is queued, it is the last one published, and its bytes are accounted for. */
  lemma QueuedIsPublished(w: World)
    requires Inv(w, false) && w.d.queued
    ensures w.own.published != [] && w.own.published[|w.own.published| - 1].data == w.d.tx && w.d.loaded <= |w.d.tx|
    ensures w.wire.out + w.h.TxContents() == w.wire.stale + w.d.tx[..w.d.loaded]
  {
    hide RxInv, SentInv, SignalInv, RecordsInv, EdgeInv, CutsOk;
  }

  /** From here on the controller reads `before` and then `data`; what it has read and what waits are that far. */
  ghost predicate Sends(w: World, before: seq<byte>, data: seq<byte>) {
    && w.d.tx == data && w.d.loaded <= |data|
    && w.wire.out + w.h.TxContents() == before + data[..w.d.loaded]
    && w.wire.out <= before + data
    && (|w.wire.out| == |before| + |data| ==> w.wire.out == before + data)
  }

  lemma EveryReplyIsAccountedFor(m: Machine, data: seq<byte>, script: seq<seq<Event>>, later: seq<Action>)
    requires Safe(m) && Publishes(m, Write(data, script)) && OneAccount(Act(m, Write(data, script)), later)
    ensures var w := Run(Act(m, Write(data, script)), later).w;
            w.d.queued ==> Sends(w, Before(m, script), data)
  {
    hide Act, Run, Inv, Before, Publishes, OneAccount, Safe;
    var published := Act(m, Write(data, script));
    PublicationBegins(m, data, script);
    ActIsSafe(m, Write(data, script));
    RunIsSafe(published, later);
    RunGrows(published, later);
    RunPublishesNothing(published, later);
    var w := Run(published, later).w;
    SafeStands(Run(published, later));
    if w.d.queued {
      QueuedIsPublished(w);
      ReadWhole(w.wire.out, w.h.TxContents(), Before(m, script), data, w.d.loaded);
    }
  }

  /**
   In every run, from the publication of a response to the next publication or purge, the controller reads first
   what the hardware held when the response was published and then the response itself.
   */
  lemma RepliesInEveryRun(s: Setup, before: seq<Action>, data: seq<byte>, script: seq<seq<Event>>, later: seq<Action>)
    requires s.Plausible() && Publishes(Reach(s, before), Write(data, script))
    requires OneAccount(Act(Reach(s, before), Write(data, script)), later)
    ensures var w := Run(Act(Reach(s, before), Write(data, script)), later).w;
            w.d.queued ==> Sends(w, Before(Reach(s, before), script), data)
  {
    EveryRunIsSafe(s, before);
    hide Reach, Act, Run, Publishes, OneAccount, Before, Safe, Sends;
    EveryReplyIsAccountedFor(Reach(s, before), data, script, later);
  }

  /**
   In every run, a response that has been loaded and clocked out to its end was read exactly if and only if the
   hardware held nothing when it was published; what it held was read before it.
   */
  lemma ReplyIsExactUnlessAbandoned(m: Machine, data: seq<byte>, script: seq<seq<Event>>, later: seq<Action>)
    requires Safe(m) && Publishes(m, Write(data, script)) && OneAccount(Act(m, Write(data, script)), later)
    ensures var (w, before) := (Run(Act(m, Write(data, script)), later).w, Before(m, script));
            w.d.queued && w.h.TxContents() == [] && w.d.loaded == |data| ==>
              && w.wire.out == before + data
              && (w.wire.out == data <==> before == [])
  {
    EveryReplyIsAccountedFor(m, data, script, later);
    hide Act, Run, Publishes, OneAccount, Before, Safe;
    var (w, before) := (Run(Act(m, Write(data, script)), later).w, Before(m, script));
    if w.d.queued && w.h.TxContents() == [] && w.d.loaded == |data| {
      assert w.wire.out + [] == w.wire.out && data[..|data|] == data;
      assert |before + data| == |before| + |data|;
      assert [] + data == data;
    }
  }

  // ---- What the controller finds when READY rises ----

  /** The last thing a publication does is to announce its response. */
  lemma PublicationSignals(m: Machine, data: seq<byte>, script: seq<seq<Event>>)
    requires Safe(m) && Publishes(m, Write(data, script))
    ensures var w := Act(m, Write(data, script)).w;
            && w.wire.signals != [] && w.wire.signals[|w.wire.signals| - 1] == SignalOf(w) && SignalOk(SignalOf(w))
            && w.edges != [] && w.edges[|w.edges| - 1].Respond? && w.d.tx == data
  {
    hide Act, Safe, SignalOk, PublishResponse;
    var w := Under(m.w, script);
    PublishedAct(m, data, script);
    PublishedLast(w, data);
    ActIsSafe(m, Write(data, script));
    SignalStands(Act(m, Write(data, script)));
    assert SignalOf(Rest(PublishResponse(w, data).0)) == SignalOf(PublishResponse(w, data).0);
  }

  lemma PublishedAct(m: Machine, data: seq<byte>, script: seq<seq<Event>>)
    requires Publishes(m, Write(data, script))
    ensures var after := PublishResponse(Under(m.w, script), data).0;
            && Act(m, Write(data, script)).w == Rest(after) && |after.own.published| > |m.w.own.published| && after.d.tx == data
  {
    PublicationDecided(Under(m.w, script), data);
    hide PublishResponse, Decision;
  }

  lemma SignalStands(m: Machine)
    requires Safe(m)
    ensures forall i | 0 <= i < |m.w.wire.signals| :: SignalOk(m.w.wire.signals[i])
  {
    hide RxInv, SentInv, RecordsInv, OwnInv, TxInv, EdgeInv, Operational, Idle, SignalOk, Responses;
  }

  lemma PublishedLast(w: World, data: seq<byte>)
    requires |PublishResponse(w, data).0.own.published| > |w.own.published|
    ensures var after := PublishResponse(w, data).0;
            && after.wire.signals != [] && after.wire.signals[|after.wire.signals| - 1] == SignalOf(after)
            && after.edges != [] && after.edges[|after.edges| - 1].Respond?
  {
    ServiceKeepsBooks(w);
    hide Service, CheckIdle, Reply, MayReply;
    var turn := ConsumeTurn(Service(w));
    CheckKeepsBooks(turn);
    if w.d.hasReady {
      RepliedLast(CheckIdle(turn), data);
    }
  }

  lemma RepliedLast(w: World, data: seq<byte>)
    requires w.d.hasReady
    ensures var after := Reply(w, data);
            && after.wire.signals != [] && after.wire.signals[|after.wire.signals| - 1] == SignalOf(after)
            && after.edges != [] && after.edges[|after.edges| - 1].Respond?
  {
    RefillFrame(BeginResponse(w, data));
    assert BeginResponse(w, data).d.hasReady;
    hide RefillTx, BeginResponse, SetReady;
    var loaded := RefillTx(BeginResponse(w, data));
    var counted := CountReply(loaded, |data|);
    assert counted.d.hasReady;
    hide CountReply;
    SignalledLast(counted, Respond(loaded.d.requestGeneration));
  }

  lemma SignalledLast(w: World, edge: Edge)
    requires w.d.hasReady && edge.Respond?
    ensures var after := SetReady(w, true, edge);
            && after.wire.signals != [] && after.wire.signals[|after.wire.signals| - 1] == SignalOf(after)
            && after.edges != [] && after.edges[|after.edges| - 1] == edge
  {
    hide Tick;
    var after := SetReady(w, true, edge);
    assert after.h.TxContents() == Tick(w).h.TxContents();
  }

  /**
   However the bus moves during the publication and in any run that follows it: a controller that waits for READY before
   it reads meets no gap within the first 17 bytes, or the whole of what was there and of the response if that is less.
   */
  lemma ReadingAfterReadyMeetsNoGap(m: Machine, data: seq<byte>, script: seq<seq<Event>>, later: seq<Action>)
    requires Safe(m) && Publishes(m, Write(data, script)) && OneAccount(Act(m, Write(data, script)), later)
    ensures var (signals, w) := (Act(m, Write(data, script)).w.wire.signals, Run(Act(m, Write(data, script)), later).w);
            && signals != []
            && var a := signals[|signals| - 1];
               && a.data == data && a.before == Before(m, script)
               && (a.out == [] && w.wire.gaps > a.gaps ==>
                     |w.wire.out| >= 17 || |w.wire.out| >= |Before(m, script)| + |data|)
  {
    hide Act, Run, Before, Publishes, OneAccount, Safe;
    var published := Act(m, Write(data, script));
    PublicationBegins(m, data, script);
    PublicationSignals(m, data, script);
    ActIsSafe(m, Write(data, script));
    RunGrows(published, later);
    SafeFillsBehind(published);
    var w := published.w;
    if SignalOf(w).out == [] {
      HeldAtSignal(SignalOf(w));
    }
  }

  lemma SafeFillsBehind(m: Machine)
    requires Safe(m)
    ensures FillsBehind(m.w.h)
  {
    hide RxInv, SentInv, SignalInv, RecordsInv, OwnInv, EdgeInv, Operational, Idle;
  }

  lemma HeldAtSignal(a: Signal)
    requires SignalOk(a) && a.out == []
    ensures |a.held| >= 17 || |a.held| >= |a.before| + |a.data|
  {
    assert |a.out + a.held| == |a.before| + a.loaded;
  }

  // ---- Recovery, then an exact reply ----

  /** Only the controller's reading happens on the bus; the driver is served, read and asked to recover at will. */
  ghost predicate QuietAction(a: Action) {
    match a
    case Bus(events) => ClockOnly([events])
    case Interrupt(_, script) => ClockOnly(script)
    case TimerRun(script) => ClockOnly(script)
    case RecoverRequest(script) => ClockOnly(script)
    case Read(_) => true
    case Clear => true
    case _ => false
  }

  ghost predicate InUse(m: Machine) {
    Safe(m) && m.phase.Opened? && m.w.d.active && !m.w.d.dead && m.w.script == [] && Quiet(m.w)
  }

  /** The worker with the turn owns the latest request, whatever an abandoned exchange left in the hardware. */
  ghost predicate Owes(m: Machine) {
    InUse(m) && Owner(m.w)
  }

  ghost predicate Recovered(m: Machine) {
    Owes(m) && m.w.h.TxContents() == [] && !m.w.h.ready
  }

  lemma OwnerFrame(w: World)
    requires Inv(w, false) && Owner(w)
    ensures !w.d.InBurst() && !w.d.queued && w.d.queue == [] && |w.own.ids| == |w.d.queue|
  {
    hide SentInv, SignalInv, RecordsInv, TxInv, EdgeInv, CutsOk, OpenWrites;
  }

  /** The bus changes nothing that a recovered device promises. */
  lemma QuietBus(w: World, events: seq<Event>)
    requires Quiet(w) && w.script == [] && ClockOnly([events])
    ensures var after := HappenAll(w, events);
            && StaysQuiet(w, after) && after.d == w.d && after.script == [] && after.h.ready == w.h.ready
            && (w.h.TxContents() == [] ==> after.h.TxContents() == [])
  {
    forall j | 0 <= j < |events| ensures events[j] == Clock {
      assert [events][0][j] == Clock;
    }
    ClocksStayQuiet(w, events);
    HappenAllIsBusOnly(w, events);
    if w.h.TxContents() == [] {
      EventsConsume(w, events);
    }
    hide HappenAll;
  }

  /** Service changes nothing that a recovered device promises. */
  lemma QuietServed(w: World)
    requires Quiet(w) && Inv(w, false) && Owner(w)
    ensures var after := Service(w);
            && StaysQuiet(w, after) && Owner(after) && after.h.ready == w.h.ready
            && (w.h.TxContents() == [] ==> after.h.TxContents() == [])
  {
    OwnerFrame(w);
    QuietService(w);
    if w.h.TxContents() == [] {
      QuietServiceStaysEmpty(w);
    }
    hide Service, Inv;
  }

  /** What a quiet action preserves while the worker owes a reply: no input, its ownership, an empty transmit path. */
  ghost predicate KeepsOwing(w: World, after: World) {
    && after.rx == w.rx && after.own == w.own && Quiet(Rest(after)) && Owner(after)
    && SameLife(w, after)
    && (w.h.TxContents() == [] && !w.h.ready ==> after.h.TxContents() == [] && !after.h.ready)
  }

  lemma TickKeepsOwing(w: World, after: World)
    requires KeepsOwing(w, after) && Quiet(after)
    ensures KeepsOwing(w, Tick(after))
  {
    QuietTick(after);
    TickIsBusOnly(after);
    if after.h.TxContents() == [] {
      StaysEmpty(after);
    }
    RestIsQuiet(Tick(after));
    hide Tick, ClockOnly;
  }

  lemma OwesSelf(w: World)
    requires Quiet(w) && Owner(w)
    ensures KeepsOwing(w, w)
  {
    RestIsQuiet(w);
    hide ClockOnly;
  }

  lemma ServedKeepsOwing(w: World, pending: bool)
    requires Quiet(w) && Inv(w, false) && Owner(w)
    ensures KeepsOwing(w, Irq(w, pending)) && KeepsOwing(w, Timer(w))
  {
    hide Service, Inv, Tick, Quiet, KeepsOwing, Owner;
    CountedServiceOwes(w, CountInterrupt(w));
    CountedServiceOwes(w, CountTimer(w));
    OwesSelf(w);
    TickKeepsOwing(w, Service(CountInterrupt(w)));
  }

  lemma RestIsQuiet(w: World)
    ensures Quiet(w) ==> Quiet(Rest(w))
  {
  }

  lemma CountedServiceOwes(w: World, counted: World)
    requires Quiet(w) && Inv(w, false) && Owner(w)
    requires counted == w.(d := w.d.(stats := counted.d.stats))
    ensures KeepsOwing(w, Service(counted)) && Quiet(Service(counted))
  {
    CountingKeeps(w, counted.d.stats);
    assert Quiet(counted);
    QuietServed(counted);
    ServiceIsSteady(counted);
    hide Service, Inv, ClockOnly;
    RestIsQuiet(Service(counted));
  }

  lemma CountingKeeps(w: World, stats: Stats)
    requires Inv(w, false)
    ensures Inv(w.(d := w.d.(stats := stats)), false)
  {
    StatsAreFree(w, stats, w.d.recoveries, w.h.overrun, w.h.underrun, false);
    hide Inv;
    assert w.(d := w.d.(stats := stats)) ==
           w.(d := w.d.(stats := stats, recoveries := w.d.recoveries), h := w.h.(overrun := w.h.overrun, underrun := w.h.underrun));
  }

  lemma RecoveryKeepsOwing(w: World)
    requires Quiet(w) && Inv(w, false) && Operational(w) && Owner(w)
    ensures var (after, result) := RecoverIoctl(w);
            !w.d.dead && w.d.active ==>
              result == Done(0) && KeepsOwing(w, after) && after.h.TxContents() == [] && !after.h.ready
    ensures w.d.dead || !w.d.active ==> RecoverIoctl(w).0 == w
  {
    QuietRecovery(w);
    RecoverResponseKeeps(w);
    hide RecoverResponse, Service, Inv, Operational, ClockOnly;
    RestIsQuiet(RecoverResponse(w).0);
  }

  lemma ReadingNothing(w: World, capacity: nat)
    requires Inv(w, false) && Owner(w)
    ensures ReadMessage(w, capacity).0 == w
  {
    OwnerFrame(w);
  }

  lemma SafeIsOperational(m: Machine)
    requires Safe(m)
    ensures Inv(m.w, false) && (m.w.d.active ==> Operational(m.w))
  {
    hide Inv, Operational, Idle;
  }

  lemma QuietUnder(w: World, script: seq<seq<Event>>)
    requires Quiet(w) && ClockOnly(script)
    ensures Quiet(Under(w, script))
  {
  }

  lemma BusKeepsOwing(w: World, events: seq<Event>)
    requires Quiet(w) && Owner(w) && w.script == [] && ClockOnly([events])
    ensures KeepsOwing(w, HappenAll(w, events)) && HappenAll(w, events).script == []
  {
    QuietBus(w, events);
    RestIsQuiet(HappenAll(w, events));
    hide HappenAll, ClockOnly;
  }

  lemma ClearKeepsOwing(w: World)
    requires Quiet(w) && Owner(w)
    ensures KeepsOwing(w, ClearStats(w)) && ClearStats(w).script == w.script
  {
    RestIsQuiet(ClearStats(w));
    hide ClockOnly;
  }

  /** While the worker owes a reply, quiet actions change nothing that matters for it. */
  lemma QuietActKeepsOwing(m: Machine, a: Action)
    requires Owes(m) && QuietAction(a)
    ensures var after := Act(m, a);
            && KeepsOwing(m.w, after.w) && after.w.script == [] && after.phase.Opened?
    ensures a.RecoverRequest? ==> Act(m, a).w.h.TxContents() == [] && !Act(m, a).w.h.ready
  {
    hide Safe, Inv, KeepsOwing, Quiet, Owner, HappenAll, ReadMessage, ClearStats, ClockOnly;
    SafeIsOperational(m);
    match a {
      case Bus(events) => BusKeepsOwing(m.w, events);
      case Read(capacity) =>
        ReadingNothing(m.w, capacity);
        OwesSelf(m.w);
      case Clear => ClearKeepsOwing(m.w);
      case _ => QuietOperationKeepsOwing(m, a);
    }
  }

  lemma QuietOperationKeepsOwing(m: Machine, a: Action)
    requires Owes(m) && QuietAction(a) && (a.Interrupt? || a.TimerRun? || a.RecoverRequest?)
    ensures var after := Act(m, a);
            && KeepsOwing(m.w, after.w) && after.w.script == [] && after.phase.Opened?
    ensures a.RecoverRequest? ==> Act(m, a).w.h.TxContents() == [] && !Act(m, a).w.h.ready
  {
    hide Safe, Inv, Operational, Irq, Timer, RecoverIoctl, Quiet, KeepsOwing, ClockOnly;
    SafeIsOperational(m);
    QuietUnder(m.w, a.script);
    var w := Under(m.w, a.script);
    UnderOwes(m.w, a.script);
    if a.RecoverRequest? {
      RecoveryKeepsOwing(w);
      RestKeepsOwing(m.w, a.script, RecoverIoctl(w).0);
    } else {
      var pending := a.Interrupt? && a.pending;
      ServedKeepsOwing(w, pending);
      RestKeepsOwing(m.w, a.script, if a.Interrupt? then Irq(w, pending) else Timer(w));
    }
  }

  lemma UnderOwes(w: World, script: seq<seq<Event>>)
    requires Inv(w, false) && Operational(w) && Owner(w)
    ensures var after := Under(w, script);
            Inv(after, false) && Operational(after) && Owner(after) && after.d == w.d
  {
    ScriptKeeps(w, script);
    hide Inv, InterruptMask;
  }

  lemma RestKeepsOwing(w: World, script: seq<seq<Event>>, after: World)
    requires KeepsOwing(Under(w, script), after)
    ensures KeepsOwing(w, Rest(after)) && Rest(after).script == [] && Rest(after).h == after.h
  {
    hide ClockOnly;
    assert Rest(Rest(after)) == Rest(after);
  }

  lemma {:induction false} QuietRunKeepsOwing(m: Machine, actions: seq<Action>)
    requires Owes(m) && forall i | 0 <= i < |actions| :: QuietAction(actions[i])
    ensures var after := Run(m, actions);
            Owes(after) && after.w.rx == m.w.rx && after.w.own == m.w.own && (Recovered(m) ==> Recovered(after))
    decreases |actions|
  {
    hide Act, Safe, QuietAction, Quiet, Owner;
    if actions != [] {
      var next := Act(m, actions[0]);
      QuietActKeepsOwing(m, actions[0]);
      ActIsSafe(m, actions[0]);
      assert Rest(next.w) == next.w;
      QuietRunKeepsOwing(next, actions[1..]);
    }
  }

  // ---- A reply under way ----

  ghost predicate Replied(m: Machine) {
    InUse(m) && m.w.d.queued
  }

  ghost predicate KeepsReply(w: World, after: World) {
    && after.d.queued && Quiet(Rest(after)) && SameLife(w, after)
  }

  lemma ReplyFrame(w: World)
    requires Inv(w, false) && w.d.queued
    ensures !w.d.InBurst() && !w.d.workerPending && w.d.queue == [] && |w.own.ids| == |w.d.queue|
  {
    hide SentInv, SignalInv, RecordsInv, TxInv, EdgeInv, CutsOk, OpenWrites;
  }

  lemma CountedServiceReplies(w: World, counted: World)
    requires Quiet(w) && Inv(w, false) && w.d.queued && counted == w.(d := w.d.(stats := counted.d.stats))
    ensures var after := Service(counted); KeepsReply(w, after) && Quiet(after) && !after.d.workerPending
  {
    ReplyFrame(w);
    assert Quiet(counted);
    QuietService(counted);
    ServiceIsSteady(counted);
    hide Service, Inv, ClockOnly;
    RestIsQuiet(Service(counted));
  }

  lemma ServedKeepsReply(w: World, pending: bool)
    requires Quiet(w) && Inv(w, false) && w.d.queued
    ensures KeepsReply(w, Irq(w, pending)) && KeepsReply(w, Timer(w))
    ensures RecoverIoctl(w).1 != Done(0) && KeepsReply(w, RecoverIoctl(w).0)
  {
    CountedServiceReplies(w, CountInterrupt(w));
    CountedServiceReplies(w, CountTimer(w));
    CountedServiceReplies(w, w);
    RestIsQuiet(w);
    var served := Service(CountInterrupt(w));
    QuietTick(served);
    TickIsBusOnly(served);
    RestIsQuiet(Tick(served));
    hide Service, Inv, Tick, Quiet;
  }

  lemma BusKeepsReply(w: World, events: seq<Event>)
    requires Quiet(w) && w.script == [] && ClockOnly([events])
    ensures var after := HappenAll(w, events); after.d == w.d && Quiet(after) && after.script == []
  {
    QuietBus(w, events);
    hide HappenAll, ClockOnly;
  }

  lemma ClearKeepsReply(w: World)
    ensures var after := ClearStats(w);
            && after.d == w.d.(stats := after.d.stats, recoveries := after.d.recoveries) && after.script == w.script
            && (Quiet(w) ==> Quiet(after))
  {
  }

  /** Quiet actions neither end a reply nor begin another account of the transmit side. */
  lemma QuietActKeepsReply(m: Machine, a: Action)
    requires Replied(m) && QuietAction(a)
    ensures var after := Act(m, a);
            && after.w.d.queued && Quiet(after.w) && SameLife(m.w, after.w) && after.w.script == [] && after.phase.Opened?
    ensures !BeginsAccount(m, a)
  {
    hide Safe, Inv, Quiet, HappenAll, ClearStats, ClockOnly;
    SafeIsOperational(m);
    match a {
      case Bus(events) => BusKeepsReply(m.w, events);
      case Read(capacity) => ReplyFrame(m.w);
      case Clear => ClearKeepsReply(m.w);
      case _ => QuietOperationKeepsReply(m, a);
    }
  }

  lemma QuietOperationKeepsReply(m: Machine, a: Action)
    requires Replied(m) && QuietAction(a) && (a.Interrupt? || a.TimerRun? || a.RecoverRequest?)
    ensures var after := Act(m, a);
            && after.w.d.queued && Quiet(after.w) && SameLife(m.w, after.w) && after.w.script == [] && after.phase.Opened?
    ensures !BeginsAccount(m, a)
  {
    hide Safe, Inv, Operational, Irq, Timer, RecoverIoctl, ClockOnly;
    SafeIsOperational(m);
    QuietUnder(m.w, a.script);
    ScriptKeeps(m.w, a.script);
    ServedKeepsReply(Under(m.w, a.script), a.Interrupt? && a.pending);
  }

  lemma {:induction false} QuietRunKeepsReply(m: Machine, actions: seq<Action>)
    requires Replied(m) && forall i | 0 <= i < |actions| :: QuietAction(actions[i])
    ensures Replied(Run(m, actions)) && OneAccount(m, actions)
    decreases |actions|
  {
    hide Act, Safe, QuietAction, Quiet, BeginsAccount;
    if actions != [] {
      QuietActKeepsReply(m, actions[0]);
      ActIsSafe(m, actions[0]);
      QuietRunKeepsReply(Act(m, actions[0]), actions[1..]);
    }
  }

  /** The owner of the latest request writes its response to a recovered device. */
  lemma RecoveredReplies(m: Machine, data: seq<byte>, script: seq<seq<Event>>)
    requires Recovered(m) && 0 < |data| <= MAX_TRANSFER && ClockOnly(script)
    ensures var (a, w) := (Write(data, script), m.w);
            && Publishes(m, a) && Before(m, script) == [] && Replied(Act(m, a))
            && Act(m, a).w.own.published == w.own.published + [Publication(w.own.LastRead(), w.rx.Begun(), data)]
  {
    hide Inv, Operational, ClockOnly, PublishResponse, Safe, Before;
    SafeIsOperational(m);
    OwnerFrame(m.w);
    QuietUnder(m.w, script);
    var w := Under(m.w, script);
    UnderOwes(m.w, script);
    QuietPublish(w, data);
    PublishKeeps(w, data);
    PublishStaysQuiet(w, data);
    ActIsSafe(m, Write(data, script));
    PublicationBegins(m, data, script);
  }

  lemma PublishStaysQuiet(w: World, data: seq<byte>)
    requires Quiet(w) && Owner(w) && |w.own.ids| == |w.d.queue|
    ensures Quiet(Rest(PublishResponse(w, data).0))
  {
    QuietService(w);
    hide Service, CheckIdle, Reply, MayReply, ClockOnly;
    var turn := ConsumeTurn(Service(w));
    QuietCheck(turn);
    CheckIdleFrame(turn);
    ReplyStaysQuiet(CheckIdle(turn), data);
    RestIsQuiet(Reply(CheckIdle(turn), data));
    RestIsQuiet(Discard(CheckIdle(turn)));
  }

  lemma ReplyStaysQuiet(w: World, data: seq<byte>)
    requires Quiet(w)
    ensures Quiet(Reply(w, data))
  {
    var begun := BeginResponse(w, data);
    assert Quiet(begun);
    hide BeginResponse, RefillTx, SetReady, Quiet;
    QuietRefill(begun);
    CountReplyIsQuiet(RefillTx(begun), |data|);
    var counted := CountReply(RefillTx(begun), |data|);
    hide CountReply;
    QuietReady(counted, true, Respond(counted.d.requestGeneration));
  }

  /**
   Recovery, then an exact reply, over runs: whatever an abandoned exchange left in FIFO and serializer, the owner
   of the latest request recovers; interrupts, timer, reads and clocks may follow in any order; its next response is
   published; and however that is then served and clocked out, the controller reads exactly that response.
   */
  lemma RecoveryThenExactReply(m: Machine, recovering: seq<seq<Event>>, between: seq<Action>,
                               data: seq<byte>, replying: seq<seq<Event>>, later: seq<Action>)
    requires Owes(m) && 0 < |data| <= MAX_TRANSFER && ClockOnly(recovering) && ClockOnly(replying)
    requires forall i | 0 <= i < |between| :: QuietAction(between[i])
    requires forall i | 0 <= i < |later| :: QuietAction(later[i])
    ensures var recovered := Act(m, RecoverRequest(recovering));
            var waiting := Run(recovered, between);
            var replied := Act(waiting, Write(data, replying));
            var w := Run(replied, later).w;
            && Recovered(recovered) && Recovered(waiting)
            && replied.w.own.published == m.w.own.published + [Publication(m.w.own.LastRead(), m.w.rx.Begun(), data)]
            && w.d.queued && Sends(w, [], data)
  {
    hide Act, Run, ClockOnly, QuietAction, Sends, Publishes, Before, OneAccount, Inv;
    var recovered := Act(m, RecoverRequest(recovering));
    RecoverIsRecovered(m, recovering);
    QuietRunKeepsOwing(recovered, between);
    var waiting := Run(recovered, between);
    RecoveredReplies(waiting, data, replying);
    QuietRunKeepsReply(Act(waiting, Write(data, replying)), later);
    EveryReplyIsAccountedFor(waiting, data, replying, later);
  }

  lemma RecoverIsRecovered(m: Machine, script: seq<seq<Event>>)
    requires Owes(m) && ClockOnly(script)
    ensures var after := Act(m, RecoverRequest(script));
            Recovered(after) && after.w.rx == m.w.rx && after.w.own == m.w.own
  {
    hide Act, Safe, Quiet;
    QuietActKeepsOwing(m, RecoverRequest(script));
    ActIsSafe(m, RecoverRequest(script));
    assert Rest(Act(m, RecoverRequest(script)).w) == Act(m, RecoverRequest(script)).w;
  }
}
