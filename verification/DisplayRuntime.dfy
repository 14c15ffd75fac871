/** The receive and render loop of src/bin/virtual-display.rs, proved against the presentation spec. */
module DisplayRuntimes {
  import opened Bytes
  import opened DisplaySpec
  import opened DisplayFrames
  import opened DisplayParsing
  import opened DisplayPresentation
  import opened SdlDisplays

  /** A monotonic clock in milliseconds. */
  class Clock {
    var now: nat

    method Now() returns (t: nat)
      modifies this
      ensures old(now) <= now == t
    {
      var elapsed: nat :| 0 <= elapsed;
      now := now + elapsed;
      t := now;
    }
  }

  /** One round of the loop: `update` summarises the tokens since `s`, after which the RAM is `ram`. */
  ghost function Account(s: Screen, update: ParseUpdate, ram: seq<byte>, now: nat): Screen {
    var counted := s.(
      ram := ram,
      completedFrames := s.completedFrames + update.completedFrames,
      discardedBytes := s.discardedBytes + update.discardedBytes,
      displayUpdates := s.displayUpdates + update.displayUpdates);
    if Presents(update) then
      counted.(
      shown := ram,
      boundaryFrames := s.boundaryFrames + [ram],
      visualRenders := s.visualRenders + 1,
      deadline := None)
    else if update.displayUpdates > 0 && s.deadline.None? then
      counted.(deadline := Some(now + PARTIAL_FRAME_TIMEOUT))
    else
      counted
  }

  lemma RamIsReplaced(s: Screen, update: ParseUpdate, ram: seq<byte>, now: nat)
    ensures Account(s.(ram := ram), update, ram, now) == Account(s, update, ram, now)
  {
  }

  predicate Presents(update: ParseUpdate) {
    update.completedFrames > 0 || update.partialFrameBoundary
  }

  /** Only the last token of a round can be an event. */
  ghost predicate OneRound(tokens: seq<Token>) {
    forall i | 0 <= i < |tokens| - 1 :: !tokens[i].IsEvent()
  }

  predicate EndsInEvent(tokens: seq<Token>) {
    tokens != [] && tokens[|tokens| - 1].IsEvent()
  }

  lemma {:induction false} BurstIsOneRound(p: Parser)
    requires p.Valid()
    ensures var b := Burst(p);
            && OneRound(b.tokens)
            && (EndsInEvent(b.tokens) || Step(b.parser).Stuck?)
            && (b.tokens != [] ==> b.parser.Measure() < p.Measure())
    decreases p.Measure()
  {
    hide Step, Token.IsEvent;
    match Step(p)
    case Stuck =>
    case Moved(next, token) =>
      if !token.IsEvent() {
        BurstIsOneRound(next);
        assert Burst(p).tokens == [token] + Burst(next).tokens;
      }
  }

  lemma {:induction false} BurstPaints(p: Parser)
    requires p.Valid()
    ensures AllValid(Burst(p).tokens)
    ensures Burst(p).parser.framebuffer == Painted(p.framebuffer, Burst(p).tokens)
    decreases p.Measure()
  {
    hide Step, Paint, Token.IsEvent;
    match Step(p)
    case Stuck =>
    case Moved(next, token) =>
      StepPaints(p);
      assert [token][1..] == [];
      if !token.IsEvent() {
        BurstPaints(next);
        assert Burst(p).tokens[1..] == Burst(next).tokens;
      }
  }

  lemma {:induction false} DrainGoesOn(p: Parser)
    requires p.Valid()
    ensures var b := Burst(p);
            Drain(p) == Run(Drain(b.parser).parser, b.tokens + Drain(b.parser).tokens)
    decreases p.Measure()
  {
    hide Step, Token.IsEvent;
    match Step(p)
    case Stuck =>
    case Moved(next, token) =>
      if !token.IsEvent() {
        DrainGoesOn(next);
        var b := Burst(next);
        assert [token] + (b.tokens + Drain(b.parser).tokens) == ([token] + b.tokens) + Drain(b.parser).tokens;
      }
  }

  lemma CountIsAbsorbed(s: Screen, update: ParseUpdate, ram: seq<byte>, token: Token, now: nat)
    requires !Presents(update) && |ram| == FRAMEBUFFER_SIZE && token.Valid()
    ensures Absorb(Account(s, update, ram, now), token, now) == Account(s, update.Count(token), Paint(ram, token), now)
  {
    hide Blit;
  }

  lemma {:induction false} RoundIsAbsorbed(s: Screen, update: ParseUpdate, ram: seq<byte>, tokens: seq<Token>, now: nat)
    requires !Presents(update) && |ram| == FRAMEBUFFER_SIZE && AllValid(tokens) && OneRound(tokens)
    ensures AbsorbAll(Account(s, update, ram, now), tokens, now) ==
            Account(s, Tally(update, tokens), Painted(ram, tokens), now)
    ensures Presents(Tally(update, tokens)) <==> EndsInEvent(tokens)
    decreases |tokens|
  {
    if tokens != [] {
      hide Absorb, Account, Paint;
      CountIsAbsorbed(s, update, ram, tokens[0], now);
      if |tokens| > 1 {
        RoundIsAbsorbed(s, update.Count(tokens[0]), Paint(ram, tokens[0]), tokens[1..], now);
      } else {
        assert tokens[1..] == [];
      }
    }
  }

  /** Absorbing the tokens seen since `start`, at time `now`, gives this screen. */
  ghost predicate Explains(start: Screen, seen: seq<Token>, screen: Screen, now: nat) {
    start.Valid() && AllValid(seen) && AbsorbAll(start, seen, now) == screen
  }

  lemma JoinRound(start: Screen, before: Screen, seen: seq<Token>, round: seq<Token>, now: nat)
    requires Explains(start, seen, before, now) && AllValid(round) && OneRound(round)
    ensures before.Valid()
    ensures Explains(start, seen + round, Account(before, Tally(NO_UPDATE, round), Painted(before.ram, round), now), now)
  {
    AbsorbAppend(start, seen, round, now);
    RoundIsAbsorbed(before, NO_UPDATE, before.ram, round, now);
    hide AbsorbAll, Painted, Tally;
    assert Account(before, NO_UPDATE, before.ram, now) == before;
  }

  /** Between two rounds: `seen` has been consumed, `fed` is still to be drained, nothing waits for the clock. */
  ghost predicate Underway(start: Runtime, input: seq<byte>, seen: seq<Token>, fed: Parser, screen: Screen) {
    && start.Valid() && fed.Valid()
    && Drain(start.parser.Feed(input)) == Run(Drain(fed).parser, seen + Drain(fed).tokens)
    && fed.framebuffer == screen.ram
    && forall t: nat :: Explains(start.screen, seen, screen, t)
  }

  lemma PushBegins(start: Runtime, input: seq<byte>)
    requires start.Valid()
    ensures Underway(start, input, [], start.parser.Feed(input), start.screen)
  {
    forall t: nat ensures Explains(start.screen, [], start.screen, t) {}
    assert [] + Drain(start.parser.Feed(input)).tokens == Drain(start.parser.Feed(input)).tokens;
  }

  /** The screen after a round whose clock reading, if any, is `now`. */
  ghost function AfterRound(fed: Parser, screen: Screen, now: nat): Screen
    requires fed.Valid()
  {
    Account(screen, Tally(NO_UPDATE, Burst(fed).tokens), Burst(fed).parser.framebuffer, now)
  }

  ghost predicate RoundPresents(fed: Parser)
    requires fed.Valid()
  {
    Presents(Tally(NO_UPDATE, Burst(fed).tokens))
  }

  lemma RoundIsExplained(start: Runtime, input: seq<byte>, seen: seq<Token>, fed: Parser, screen: Screen, now: nat)
    requires Underway(start, input, seen, fed, screen)
    ensures Explains(start.screen, seen + Burst(fed).tokens, AfterRound(fed, screen, now), now)
    ensures RoundPresents(fed) <==> EndsInEvent(Burst(fed).tokens)
  {
    BurstIsOneRound(fed);
    BurstPaints(fed);
    JoinRound(start.screen, screen, seen, Burst(fed).tokens, now);
    RoundIsAbsorbed(screen, NO_UPDATE, screen.ram, Burst(fed).tokens, now);
  }

  lemma RoundContinues(start: Runtime, input: seq<byte>, seen: seq<Token>, fed: Parser, screen: Screen, now: nat)
    requires Underway(start, input, seen, fed, screen) && RoundPresents(fed)
    ensures Underway(start, input, seen + Burst(fed).tokens, Burst(fed).parser, AfterRound(fed, screen, now))
    ensures Burst(fed).parser.Measure() < fed.Measure()
  {
    hide Explains, Step, Tally, OneRound, Burst, Drain;
    var b := Burst(fed);
    forall t: nat ensures Explains(start.screen, seen + b.tokens, AfterRound(fed, screen, now), t) {
      RoundIsExplained(start, input, seen, fed, screen, t);
      assert AfterRound(fed, screen, t) == AfterRound(fed, screen, now);
    }
    RoundIsExplained(start, input, seen, fed, screen, now);
    BurstIsOneRound(fed);
    DrainGoesOn(fed);
    assert (seen + b.tokens) + Drain(b.parser).tokens == seen + (b.tokens + Drain(b.parser).tokens);
  }

  lemma RoundEnds(start: Runtime, input: seq<byte>, seen: seq<Token>, fed: Parser, screen: Screen, now: nat, polled: nat)
    requires Underway(start, input, seen, fed, screen) && !RoundPresents(fed)
    ensures Do(start, Op.Push(input, now, polled)) == Runtime(Burst(fed).parser, Poll(AfterRound(fed, screen, now), polled))
  {
    var b := Burst(fed);
    RoundIsExplained(start, input, seen, fed, screen, now);
    BurstIsOneRound(fed);
    DrainGoesOn(fed);
    FramebufferIsFold(start.parser.Feed(input));
    hide Step, Tally, OneRound, Account, AbsorbAll, Poll;
    assert Drain(b.parser) == Run(b.parser, []);
    assert Drain(start.parser.Feed(input)).tokens == seen + b.tokens;
  }

  class DisplayRuntime {
    const parser: DisplayParser
    const window: SdlDisplay
    var visualRenders: nat
    var completedFrames: nat
    var discardedBytes: nat
    var displayUpdates: nat
    var timeoutRenders: nat
    var partialFrameDeadline: Option<nat>
    /** The framebuffers presented at frame boundaries. */
    ghost var boundaryFrames: seq<seq<byte>>

    ghost function ScreenModel(): Screen
      reads this, parser.framebuffer, window
    {
      Screen(parser.framebuffer[..], window.shown, boundaryFrames, visualRenders, timeoutRenders, completedFrames,
             discardedBytes, displayUpdates, partialFrameDeadline)
    }

    ghost function Model(): Runtime
      reads this, parser, parser.framebuffer, window
    {
      Runtime(parser.Model(), ScreenModel())
    }

    ghost predicate Valid()
      reads this, parser, parser.framebuffer, window, window.texture
    {
      parser.Valid() && window.Valid() && Model().Valid()
    }

    constructor (controller: Controller)
      ensures Valid() && fresh(parser) && fresh(parser.framebuffer) && fresh(window) && fresh(window.texture)
      ensures Model() == Start(controller)
    {
      window := new SdlDisplay();
      parser := new DisplayParser(controller);
      visualRenders, completedFrames, discardedBytes, displayUpdates, timeoutRenders := 0, 0, 0, 0, 0;
      partialFrameDeadline := None;
      boundaryFrames := [];
    }

    method Push(input: seq<byte>, clock: Clock) returns (ghost updated: nat, ghost polled: nat)
      requires Valid()
      modifies this, parser, parser.framebuffer, window, window.texture, clock
      ensures Valid()
      ensures Model() == Do(old(Model()), Op.Push(input, updated, polled))
      ensures old(clock.now) <= updated <= polled == clock.now
    {
      ghost var start := Model();
      ghost var fed := start.parser.Feed(input);
      ghost var seen: seq<Token> := [];
      PushBegins(start, input);
      hide Step, Burst, Underway, AfterRound, RoundPresents, Pixel;
      var first := true;
      while true
        invariant parser.Valid() && window.Valid() && clock.now == old(clock.now)
        invariant fed == if first then parser.Model().Feed(input) else parser.Model()
        invariant Underway(start, input, seen, fed, ScreenModel())
        decreases fed.Measure()
      {
        ghost var before := ScreenModel();
        var present;
        assert fed.Feed([]) == fed;
        present, updated := Round(if first then input else [], fed, clock);
        first := false;
        if !present {
          polled := PollIdle(clock);
          RoundEnds(start, input, seen, fed, before, updated, polled);
          return;
        }
        RoundContinues(start, input, seen, fed, before, updated);
        seen, fed := seen + Burst(fed).tokens, Burst(fed).parser;
      }
    }

    /** One iteration of the loop of `Push`; the clock is read if the round leaves an update unrendered. */
    method Round(input: seq<byte>, ghost fed: Parser, clock: Clock) returns (present: bool, ghost updated: nat)
      requires parser.Valid() && window.Valid() && fed == parser.Model().Feed(input)
      modifies this, parser, parser.framebuffer, window, window.texture, clock
      ensures parser.Valid() && window.Valid() && parser.Model() == Burst(fed).parser
      ensures present == RoundPresents(fed)
      ensures ScreenModel() == AfterRound(fed, old(ScreenModel()), updated)
      ensures old(clock.now) <= updated == clock.now && (present ==> clock.now == old(clock.now))
    {
      hide Burst, Tally, Account, Presents;
      ghost var before := ScreenModel();
      var update := parser.Push(input);
      assert ScreenModel() == before.(ram := parser.framebuffer[..]);
      present, updated := Settle(update, clock);
      RamIsReplaced(before, update, parser.framebuffer[..], updated);
    }

    /** Counts what a push reports, and renders a boundary or starts the timeout of a partial frame. */
    method Settle(update: ParseUpdate, clock: Clock) returns (present: bool, ghost updated: nat)
      requires parser.Valid() && window.Valid()
      modifies this, window, window.texture, clock
      ensures parser.Valid() && window.Valid() && parser.Model() == old(parser.Model())
      ensures present == Presents(update)
      ensures ScreenModel() == Account(old(ScreenModel()), update, parser.framebuffer[..], updated)
      ensures old(clock.now) <= updated == clock.now && (present ==> clock.now == old(clock.now))
    {
      hide Pixel;
      present := update.completedFrames > 0 || update.partialFrameBoundary;
      var changed := update.displayUpdates > 0;
      completedFrames := completedFrames + update.completedFrames;
      discardedBytes := discardedBytes + update.discardedBytes;
      displayUpdates := displayUpdates + update.displayUpdates;
      if present {
        window.Render(parser.framebuffer[..]);
        visualRenders := visualRenders + 1;
        partialFrameDeadline := None;
        boundaryFrames := boundaryFrames + [parser.framebuffer[..]];
      } else if changed {
        var now := clock.Now();
        if partialFrameDeadline.None? {
          partialFrameDeadline := Some(now + PARTIAL_FRAME_TIMEOUT);
        }
      }
      updated := clock.now;
    }

    method PollIdle(clock: Clock) returns (ghost polled: nat)
      requires parser.Valid() && window.Valid()
      modifies this, window, window.texture, clock
      ensures parser.Valid() && window.Valid()
      ensures ScreenModel() == Poll(old(ScreenModel()), polled)
      ensures old(clock.now) <= polled == clock.now
    {
      if partialFrameDeadline.Some? {
        var now := clock.Now();
        if now >= partialFrameDeadline.value {
          window.Render(parser.framebuffer[..]);
          visualRenders := visualRenders + 1;
          timeoutRenders := timeoutRenders + 1;
          partialFrameDeadline := None;
        }
      }
      polled := clock.now;
    }
  }
}
