/** What is rendered, and when. */
module DisplayPresentation {
  import opened Bytes
  import opened DisplaySpec
  import opened DisplayFragments
  import opened DisplayFrames

  /** Milliseconds. */
  const PARTIAL_FRAME_TIMEOUT: nat := 75

  datatype Screen = Screen(
    ram: seq<byte>,
    shown: seq<byte>,
    boundaryFrames: seq<seq<byte>>,
    visualRenders: nat,
    timeoutRenders: nat,
    completedFrames: nat,
    discardedBytes: nat,
    displayUpdates: nat,
    deadline: Option<nat>)
  {
    predicate Valid() {
      |ram| == FRAMEBUFFER_SIZE
    }
  }

  datatype Runtime = Runtime(parser: Parser, screen: Screen) {
    predicate Valid() {
      parser.Valid() && Step(parser).Stuck? && screen.ram == parser.framebuffer
    }
  }

  function Start(controller: Controller): (r: Runtime)
    ensures r.Valid()
  {
    var p := Fresh(controller);
    Runtime(p, Screen(p.framebuffer, p.framebuffer, [], 0, 0, 0, 0, 0, None))
  }

  /** One parser token at time `now`: an event renders, any other update starts the 75 ms clock once. */
  function Absorb(s: Screen, token: Token, now: nat): (next: Screen)
    requires s.Valid() && token.Valid()
    ensures next.Valid() && next.ram == Paint(s.ram, token)
  {
    var ram := Paint(s.ram, token);
    var counted := s.(
      ram := ram,
      completedFrames := s.completedFrames + (if token.EventOf() == CompletedFrame then 1 else 0),
      discardedBytes := s.discardedBytes + (if token.Discard? then 1 else 0),
      displayUpdates := s.displayUpdates + (if token.Payload? then 1 else 0));
    if token.IsEvent() then
      counted.(
      shown := ram,
      boundaryFrames := s.boundaryFrames + [ram],
      visualRenders := s.visualRenders + 1,
      deadline := None)
    else if token.Payload? && s.deadline.None? then
      counted.(deadline := Some(now + PARTIAL_FRAME_TIMEOUT))
    else
      counted
  }

  function AbsorbAll(s: Screen, tokens: seq<Token>, now: nat): (next: Screen)
    requires s.Valid() && AllValid(tokens)
    ensures next.Valid() && next.ram == Painted(s.ram, tokens)
    decreases |tokens|
  {
    if tokens == [] then s else AbsorbAll(Absorb(s, tokens[0], now), tokens[1..], now)
  }

  function Poll(s: Screen, now: nat): Screen {
    if s.deadline.Some? && now >= s.deadline.value then
      s.(shown := s.ram,
      visualRenders := s.visualRenders + 1,
      timeoutRenders := s.timeoutRenders + 1,
      deadline := None)
    else
      s
  }

  /** The clock is read once when an update stays unrendered and once when the deadline is checked. */
  datatype Op = Push(input: seq<byte>, updated: nat, polled: nat) | PollIdle(polled: nat)

  function Do(r: Runtime, op: Op): (next: Runtime)
    requires r.Valid()
    ensures next.Valid()
  {
    match op
    case PollIdle(now) => r.(screen := Poll(r.screen, now))
    case Push(input, updated, now) =>
      FramebufferIsFold(r.parser.Feed(input));
      var d := Drain(r.parser.Feed(input));
      Runtime(d.parser, Poll(AbsorbAll(r.screen, d.tokens, updated), now))
  }

  function DoAll(r: Runtime, ops: seq<Op>): (next: Runtime)
    requires r.Valid()
    ensures next.Valid()
    decreases |ops|
  {
    if ops == [] then r else DoAll(Do(r, ops[0]), ops[1..])
  }

  // ---- The stream decides what is presented, not how it was cut or when it was read ----

  function Inputs(ops: seq<Op>): seq<byte> {
    if ops == [] then [] else InputOf(ops[0]) + Inputs(ops[1..])
  }

  /** All that does not depend on the clock. */
  ghost predicate SamePresentation(a: Screen, b: Screen) {
    && a.ram == b.ram
    && a.boundaryFrames == b.boundaryFrames
    && a.completedFrames == b.completedFrames
    && a.discardedBytes == b.discardedBytes
    && a.displayUpdates == b.displayUpdates
  }

  lemma {:induction false} AbsorbIgnoresClock(a: Screen, b: Screen, tokens: seq<Token>, now: nat, later: nat)
    requires a.Valid() && b.Valid() && AllValid(tokens) && SamePresentation(a, b)
    ensures SamePresentation(AbsorbAll(a, tokens, now), AbsorbAll(b, tokens, later))
    decreases |tokens|
  {
    if tokens != [] {
      AbsorbIgnoresClock(Absorb(a, tokens[0], now), Absorb(b, tokens[0], later), tokens[1..], now, later);
    }
  }

  lemma {:induction false} AbsorbAppend(s: Screen, a: seq<Token>, b: seq<Token>, now: nat)
    requires s.Valid() && AllValid(a) && AllValid(b)
    ensures AllValid(a + b) && AbsorbAll(s, a + b, now) == AbsorbAll(AbsorbAll(s, a, now), b, now)
    decreases |a|
  {
    if a == [] {
      assert a + b == b;
    } else {
      hide Absorb;
      AbsorbAppend(Absorb(s, a[0], now), a[1..], b, now);
      assert (a + b)[1..] == a[1..] + b;
    }
  }

  function InputOf(op: Op): seq<byte> {
    if op.Push? then op.input else []
  }

  lemma DoDrains(r: Runtime, op: Op, now: nat)
    requires r.Valid()
    ensures var d := Drain(r.parser.Feed(InputOf(op)));
            && AllValid(d.tokens)
            && Do(r, op).parser == d.parser
            && SamePresentation(Do(r, op).screen, AbsorbAll(r.screen, d.tokens, now))
  {
    FramebufferIsFold(r.parser.Feed(InputOf(op)));
    if op.Push? {
      AbsorbIgnoresClock(r.screen, r.screen, Drain(r.parser.Feed(op.input)).tokens, op.updated, now);
    } else {
      assert r.parser.Feed([]) == r.parser;
    }
  }

  lemma DrainTwice(p: Parser, head: seq<byte>, tail: seq<byte>)
    requires p.Valid()
    ensures var first := Drain(p.Feed(head)); var rest := Drain(first.parser.Feed(tail));
            Drain(p.Feed(head + tail)) == Run(rest.parser, first.tokens + rest.tokens)
  {
    DrainExtends(p.Feed(head), tail);
    assert p.Feed(head).Feed(tail) == p.Feed(head + tail) by {
      assert (p.pending + head) + tail == p.pending + (head + tail);
    }
  }

  /** Any sequence of pushes and polls presents what one push of the whole stream presents. */
  lemma {:induction false} PresentationFollowsStream(r: Runtime, ops: seq<Op>, now: nat)
    requires r.Valid()
    ensures var d := Drain(r.parser.Feed(Inputs(ops)));
            && AllValid(d.tokens)
            && DoAll(r, ops).parser == d.parser
            && SamePresentation(DoAll(r, ops).screen, AbsorbAll(r.screen, d.tokens, now))
    decreases |ops|
  {
    hide Step, Absorb, Do;
    FramebufferIsFold(r.parser.Feed(Inputs(ops)));
    if ops == [] {
      assert r.parser.Feed([]) == r.parser;
    } else {
      var (head, tail) := (InputOf(ops[0]), Inputs(ops[1..]));
      var next := Do(r, ops[0]);
      DoDrains(r, ops[0], now);
      PresentationFollowsStream(next, ops[1..], now);
      DrainTwice(r.parser, head, tail);
      var first, rest := Drain(r.parser.Feed(head)), Drain(next.parser.Feed(tail));
      AbsorbAppend(r.screen, first.tokens, rest.tokens, now);
      AbsorbIgnoresClock(next.screen, AbsorbAll(r.screen, first.tokens, now), rest.tokens, now, now);
    }
  }

  lemma RuntimeFragmentationIndependence(r: Runtime, left: seq<Op>, right: seq<Op>)
    requires r.Valid() && Inputs(left) == Inputs(right)
    ensures DoAll(r, left).parser == DoAll(r, right).parser
    ensures SamePresentation(DoAll(r, left).screen, DoAll(r, right).screen)
  {
    PresentationFollowsStream(r, left, 0);
    PresentationFollowsStream(r, right, 0);
  }

  // ---- Bounded staleness ----

  /** What an observer of the display RAM and of the window writes down. */
  datatype Entry = Update(at: nat) | Render

  function EntriesOf(token: Token, now: nat): seq<Entry> {
    (if token.Payload? then [Update(now)] else []) + (if token.IsEvent() then [Render] else [])
  }

  function Entries(tokens: seq<Token>, now: nat): seq<Entry> {
    if tokens == [] then [] else EntriesOf(tokens[0], now) + Entries(tokens[1..], now)
  }

  function PollEntries(s: Screen, now: nat): seq<Entry> {
    if s.deadline.Some? && now >= s.deadline.value then [Render] else []
  }

  function OpEntries(r: Runtime, op: Op): seq<Entry>
    requires r.Valid()
  {
    match op
    case PollIdle(now) => PollEntries(r.screen, now)
    case Push(input, updated, now) =>
      FramebufferIsFold(r.parser.Feed(input));
      var tokens := Drain(r.parser.Feed(input)).tokens;
      Entries(tokens, updated) + PollEntries(AbsorbAll(r.screen, tokens, updated), now)
  }

  function Log(r: Runtime, ops: seq<Op>): seq<Entry>
    requires r.Valid()
    decreases |ops|
  {
    if ops == [] then [] else OpEntries(r, ops[0]) + Log(Do(r, ops[0]), ops[1..])
  }

  /** The time of the first update after the last render in `log`; `before` is what was open before it. */
  function OldestUnrendered(before: Option<nat>, log: seq<Entry>): Option<nat>
    decreases |log|
  {
    if log == [] then
      before
    else
      match log[0]
      case Render => OldestUnrendered(None, log[1..])
      case Update(at) => OldestUnrendered(if before.None? then Some(at) else before, log[1..])
  }

  function Renders(log: seq<Entry>): nat {
    if log == [] then 0 else (if log[0].Render? then 1 else 0) + Renders(log[1..])
  }

  lemma {:induction false} LogAppend(before: Option<nat>, a: seq<Entry>, b: seq<Entry>)
    ensures OldestUnrendered(before, a + b) == OldestUnrendered(OldestUnrendered(before, a), b)
    ensures Renders(a + b) == Renders(a) + Renders(b)
    decreases |a|
  {
    if a == [] {
      assert a + b == b;
    } else {
      assert (a + b)[1..] == a[1..] + b;
      LogAppend(match a[0] case Render => None case Update(at) => if before.None? then Some(at) else before, a[1..], b);
    }
  }

  function DeadlineFor(oldest: Option<nat>): Option<nat> {
    if oldest.Some? then Some(oldest.value + 75) else None
  }

  /** The deadline belongs to the oldest unrendered update; without one the window shows the RAM. */
  ghost predicate Tracks(s: Screen, oldest: Option<nat>) {
    s.deadline == DeadlineFor(oldest) && (oldest.None? ==> s.shown == s.ram)
  }

  lemma AbsorbTracks(s: Screen, token: Token, now: nat, oldest: Option<nat>)
    requires s.Valid() && token.Valid() && Tracks(s, oldest)
    ensures Tracks(Absorb(s, token, now), OldestUnrendered(oldest, EntriesOf(token, now)))
    ensures Absorb(s, token, now).visualRenders == s.visualRenders + Renders(EntriesOf(token, now))
  {
    hide Blit;
    var entries := EntriesOf(token, now);
    if token.Payload? && token.IsEvent() {
      assert entries == [Update(now), Render];
      assert entries[1..] == [Render];
      forall before ensures OldestUnrendered(before, [Render]) == None {
        assert OldestUnrendered(None, [Render][1..]) == None;
      }
    } else if entries != [] {
      assert entries[1..] == [];
    }
  }

  lemma {:induction false} AbsorbAllTracks(s: Screen, tokens: seq<Token>, now: nat, oldest: Option<nat>)
    requires s.Valid() && AllValid(tokens) && Tracks(s, oldest)
    ensures Tracks(AbsorbAll(s, tokens, now), OldestUnrendered(oldest, Entries(tokens, now)))
    ensures AbsorbAll(s, tokens, now).visualRenders == s.visualRenders + Renders(Entries(tokens, now))
    decreases |tokens|
  {
    if tokens != [] {
      hide Absorb, EntriesOf, Tracks;
      var head := EntriesOf(tokens[0], now);
      AbsorbTracks(s, tokens[0], now, oldest);
      AbsorbAllTracks(Absorb(s, tokens[0], now), tokens[1..], now, OldestUnrendered(oldest, head));
      LogAppend(oldest, head, Entries(tokens[1..], now));
    }
  }

  lemma PollTracks(s: Screen, now: nat, oldest: Option<nat>)
    requires Tracks(s, oldest)
    ensures var after := OldestUnrendered(oldest, PollEntries(s, now));
            && Tracks(Poll(s, now), after)
            && (after.Some? ==> now < after.value + 75)
    ensures Poll(s, now).visualRenders == s.visualRenders + Renders(PollEntries(s, now))
  {
    assert PollEntries(s, now) != [] ==> PollEntries(s, now)[1..] == [];
  }

  lemma OpTracks(r: Runtime, op: Op, oldest: Option<nat>)
    requires r.Valid() && Tracks(r.screen, oldest)
    ensures var after := OldestUnrendered(oldest, OpEntries(r, op));
            && Tracks(Do(r, op).screen, after)
            && (after.Some? ==> op.polled < after.value + 75)
    ensures Do(r, op).screen.visualRenders == r.screen.visualRenders + Renders(OpEntries(r, op))
  {
    hide Absorb, Step, Poll, PollEntries, Tracks;
    match op
    case PollIdle(now) =>
      PollTracks(r.screen, now, oldest);
    case Push(input, updated, now) =>
      FramebufferIsFold(r.parser.Feed(input));
      var tokens := Drain(r.parser.Feed(input)).tokens;
      var (absorbed, entries) := (AbsorbAll(r.screen, tokens, updated), Entries(tokens, updated));
      AbsorbAllTracks(r.screen, tokens, updated, oldest);
      PollTracks(absorbed, now, OldestUnrendered(oldest, entries));
      LogAppend(oldest, entries, PollEntries(absorbed, now));
  }

  /**
   After any operations the deadline is 75 ms after the oldest unrendered update, so a later update never
   postpones it; the last clock reading is before it; without one the window shows the display RAM; and
   every render is counted once.
   */
  lemma {:induction false} BoundedStaleness(r: Runtime, ops: seq<Op>, oldest: Option<nat>)
    requires r.Valid() && Tracks(r.screen, oldest)
    ensures var after := OldestUnrendered(oldest, Log(r, ops));
            && Tracks(DoAll(r, ops).screen, after)
            && (ops != [] && after.Some? ==> ops[|ops| - 1].polled < after.value + 75)
    ensures DoAll(r, ops).screen.visualRenders == r.screen.visualRenders + Renders(Log(r, ops))
    decreases |ops|
  {
    if ops == [] {
    } else {
      hide Do, OpEntries, Tracks, OldestUnrendered, Renders, DoAll, Log, Runtime.Valid;
      DoFirst(r, ops);
      var next, open := Do(r, ops[0]), OldestUnrendered(oldest, OpEntries(r, ops[0]));
      OpTracks(r, ops[0], oldest);
      BoundedStaleness(next, ops[1..], open);
      LogAppend(oldest, OpEntries(r, ops[0]), Log(next, ops[1..]));
      if ops[1..] == [] {
        NothingLogged(next, open);
      } else {
        assert ops[1..][|ops| - 2] == ops[|ops| - 1];
      }
    }
  }

  lemma DoFirst(r: Runtime, ops: seq<Op>)
    requires r.Valid() && ops != []
    ensures DoAll(r, ops) == DoAll(Do(r, ops[0]), ops[1..])
    ensures Log(r, ops) == OpEntries(r, ops[0]) + Log(Do(r, ops[0]), ops[1..])
  {
  }

  lemma NothingLogged(r: Runtime, oldest: Option<nat>)
    requires r.Valid()
    ensures OldestUnrendered(oldest, Log(r, [])) == oldest
  {
  }

  /** Every render is at a frame boundary or after a timeout. */
  ghost predicate RendersAddUp(s: Screen) {
    s.visualRenders == |s.boundaryFrames| + s.timeoutRenders
  }

  lemma {:induction false} AbsorbAllAddsUp(s: Screen, tokens: seq<Token>, now: nat)
    requires s.Valid() && AllValid(tokens) && RendersAddUp(s)
    ensures RendersAddUp(AbsorbAll(s, tokens, now))
    decreases |tokens|
  {
    if tokens != [] {
      AbsorbAllAddsUp(Absorb(s, tokens[0], now), tokens[1..], now);
    }
  }

  lemma {:induction false} RendersAlwaysAddUp(r: Runtime, ops: seq<Op>)
    requires r.Valid() && RendersAddUp(r.screen)
    ensures RendersAddUp(DoAll(r, ops).screen)
    decreases |ops|
  {
    if ops != [] {
      match ops[0]
      case PollIdle(_) =>
        RendersAlwaysAddUp(Do(r, ops[0]), ops[1..]);
      case Push(input, updated, _) =>
        FramebufferIsFold(r.parser.Feed(input));
        AbsorbAllAddsUp(r.screen, Drain(r.parser.Feed(input)).tokens, updated);
        RendersAlwaysAddUp(Do(r, ops[0]), ops[1..]);
    }
  }
}
