/** From the bus to the screen. */
module TargetDisplay {
  import opened Bytes
  import Codec = DisplayCodec
  import Fragments = DisplayFragments
  import Frames = DisplayFrames
  import Screens = DisplayPresentation
  import Spec = DisplaySpec
  import Machines = BscMachine
  import World = BscWorld
  import Invariant = BscInvariant
  import Books = BscBooks
  import Promises = BscPromises
  import Statistics = BscStatistics

  function Delivered(w: World.World): seq<byte> {
    Flatten(Books.Datas(w.own.delivered))
  }

  /** No record and no byte of the controller's writes since the open has been lost. */
  ghost predicate Lossless(w: World.World) {
    w.own.lost == 0 && Promises.Intact(w.rx)
  }

  /** With nothing lost, the records delivered spell the beginning of what the controller has sent. */
  lemma DeliveredIsPrefix(s: Machines.Setup, actions: seq<Machines.Action>)
    requires s.Plausible() && Lossless(Machines.Reach(s, actions).w)
    ensures var w := Machines.Reach(s, actions).w; Promises.Logged(w.rx) && Delivered(w) <= Promises.Sent(w.rx)
  {
    hide Machines.Reach;
    Machines.EveryRunIsSafe(s, actions);
    Promises.SafeStands(Machines.Reach(s, actions));
    SafeDelivery(Machines.Reach(s, actions).w);
  }

  lemma SafeDelivery(w: World.World)
    requires Invariant.Inv(w, false) && Lossless(w)
    ensures Promises.Logged(w.rx) && Delivered(w) <= Promises.Sent(w.rx)
    ensures w.d.queue == [] && w.d.work == [] && !w.d.overflowed && w.h.rxFifo == [] ==> Delivered(w) == Promises.Sent(w.rx)
  {
    Promises.SafeStream(w);
    Statistics.BurstHasWork(w);
    Promises.ArrivedOfSent(w.h.rxBusy, w.rx);
    hide Invariant.Inv, Invariant.SentInv, Promises.Arrived, Promises.Sent, Promises.Intact;
    FlattenAppend(Books.Datas(w.own.delivered), w.d.queue);
    Reassociate(Delivered(w), Flatten(w.d.queue), w.rx.burst + w.h.rxFifo);
    if w.d.queue == [] {
      Promises.FlattenNothing();
      assert Delivered(w) + [] == Delivered(w);
    }
  }

  /**
   Both parts together: a display that is fed the delivered records, in whatever pieces and at whatever times,
   presents what it would present if it were given the bytes the controller sent, as far as delivered, all at once.
   */
  lemma DisplayFollowsController(s: Machines.Setup, actions: seq<Machines.Action>,
                                 r: Screens.Runtime, ops: seq<Screens.Op>, now: nat)
    requires s.Plausible() && r.Valid()
    requires Lossless(Machines.Reach(s, actions).w)
    requires Screens.Inputs(ops) == Delivered(Machines.Reach(s, actions).w)
    ensures var w := Machines.Reach(s, actions).w;
            && Promises.Logged(w.rx) && |Screens.Inputs(ops)| <= |Promises.Sent(w.rx)|
            && var once := [Screens.Push(Promises.Sent(w.rx)[..|Screens.Inputs(ops)|], now, now)];
               && Screens.DoAll(r, ops).parser == Screens.DoAll(r, once).parser
               && Screens.SamePresentation(Screens.DoAll(r, ops).screen, Screens.DoAll(r, once).screen)
  {
    hide Machines.Reach, Promises.Sent, Screens.DoAll, Screens.SamePresentation, Lossless;
    DeliveredIsPrefix(s, actions);
    var w := Machines.Reach(s, actions).w;
    var stream := Promises.Sent(w.rx)[..|Screens.Inputs(ops)|];
    InputsOfOne(stream, now);
    Screens.RuntimeFragmentationIndependence(r, ops, [Screens.Push(stream, now, now)]);
  }

  lemma InputsOfOne(stream: seq<byte>, now: nat)
    ensures Screens.Inputs([Screens.Push(stream, now, now)]) == stream
  {
    var op := Screens.Push(stream, now, now);
    assert [op][1..] == [];
    assert Screens.Inputs([op]) == stream + Screens.Inputs([]);
  }

  /** Nothing waits in the driver or in the FIFO. */
  predicate Emptied(w: World.World) {
    w.d.queue == [] && w.d.work == [] && !w.d.overflowed && w.h.rxFifo == []
  }

  /** The display RAM is the blank screen with the updates that the messages declare. */
  ghost predicate Shows(controller: Spec.Controller, ms: seq<Codec.Message>, ops: seq<Screens.Op>) {
    && (forall w | w in Codec.DeclaredAll(ms) :: w.rect.Valid() && |w.data| == w.rect.width * w.rect.pages)
    && Screens.DoAll(Screens.Start(controller), ops).screen.ram
       == Codec.PaintWrites(Codec.Blank(), Codec.DeclaredAll(ms))
  }

  /**
   End to end: in every run without losses, once the driver is empty, a display that has been fed the delivered records
   shows exactly the updates declared by the messages that the controller sent.
   */
  lemma DisplayShowsTheMessages(s: Machines.Setup, actions: seq<Machines.Action>,
                                controller: Spec.Controller, ms: seq<Codec.Message>, ops: seq<Screens.Op>)
    requires s.Plausible() && Codec.AllSendable(controller, ms)
    requires var w := Machines.Reach(s, actions).w;
             && Lossless(w) && Emptied(w) && Promises.Logged(w.rx)
             && Promises.Sent(w.rx) == Codec.EncodeAll(controller, ms) && Screens.Inputs(ops) == Delivered(w)
    ensures Shows(controller, ms, ops)
  {
    hide Machines.Reach, Lossless, Promises.Sent, Shows;
    Machines.EveryRunIsSafe(s, actions);
    Promises.SafeStands(Machines.Reach(s, actions));
    SafeDelivery(Machines.Reach(s, actions).w);
    EncodedShows(controller, ms, ops);
  }

  /**
   The same by what can be read: the messages are those sent since the device was opened, the counters of losses have
   not moved since, and the timer has run once more.
   */
  lemma DisplayShowsByStatistics(m: Machines.Machine, a: Machines.Action, since: seq<Machines.Action>, later: seq<Machines.Action>,
                                 controller: Spec.Controller, ms: seq<Codec.Message>, ops: seq<Screens.Op>)
    requires Machines.Safe(m) && a.OpenFinish? && Promises.Purging(m, a)
    requires Statistics.OneOpen(since) && Statistics.OneOpen(later) && Codec.AllSendable(controller, ms)
    requires var start, w := Machines.Act(m, a), Machines.Run(Machines.Act(m, a), since);
             && Statistics.Unmoved(start.w, Machines.Run(w, later).w)
             && Machines.Run(w, later).w.d.stats.timerRuns > w.w.d.stats.timerRuns
             && Emptied(w.w) && Promises.Logged(w.w.rx)
             && Promises.Sent(w.w.rx) == Codec.EncodeAll(controller, ms) && Screens.Inputs(ops) == Delivered(w.w)
    ensures Shows(controller, ms, ops)
  {
    hide Machines.Act, Machines.Run, Machines.Safe, Promises.Sent, Promises.Purging, Statistics.Unmoved, Statistics.OneOpen, Shows;
    Statistics.NothingIsMissingByStatistics(m, a, since, later);
    var w := Machines.Run(Machines.Act(m, a), since).w;
    HeldIsDelivered(w);
    EncodedShows(controller, ms, ops);
  }

  lemma HeldIsDelivered(w: World.World)
    requires Emptied(w)
    ensures Promises.Held(w) == Delivered(w)
  {
    var datas := Books.Datas(w.own.delivered);
    assert datas + w.d.queue == datas;
    hide Flatten;
    assert Flatten(datas) + ([] + []) == Flatten(datas);
  }

  /** A fresh display fed with the encoding of messages, in whatever pieces, shows what they declare. */
  lemma EncodedShows(controller: Spec.Controller, ms: seq<Codec.Message>, ops: seq<Screens.Op>)
    requires Codec.AllSendable(controller, ms) && Screens.Inputs(ops) == Codec.EncodeAll(controller, ms)
    ensures Shows(controller, ms, ops)
  {
    var (r, stream) := (Screens.Start(controller), Codec.EncodeAll(controller, ms));
    FlattenOne(stream);
    Codec.DisplayShowsWhatWasSent(controller, ms, [stream]);
    Fragments.FragmentationIndependence(Spec.Fresh(controller), [stream]);
    Screens.PresentationFollowsStream(r, ops, 0);
    hide Spec.Step, Codec.PaintWrites;
    assert Screens.DoAll(r, ops).Valid();
  }
}
