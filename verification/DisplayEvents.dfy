/** When a frame is complete. */
module DisplayEvents {
  // The frame events and the counters, as functions of the tokens of the stream.

  import opened Bytes
  import opened DisplaySpec
  import opened DisplayFragments
  import opened DisplayFrames
  import opened DisplayCodec
  import opened DisplayGrammar
  import opened DisplayPresentation

  // ---- SSD1306 ----

  /** A payload is a completed frame exactly if it is the whole display; any other payload is a partial boundary. */
  predicate Ssd1306Event(token: Token) {
    token.Payload? ==>
      token.event == if token.rect == Rect(0, 128, 0, 8) then CompletedFrame else PartialBoundary
  }

  ghost predicate Ssd1306State(p: Parser) {
    p.Valid() && p.controller.Ssd1306? && !p.state.Sh1106PageData?
  }

  lemma Ssd1306Steps(p: Parser)
    requires Ssd1306State(p) && Step(p).Moved?
    ensures Ssd1306State(Step(p).next) && Ssd1306Event(Step(p).token) && !Step(p).token.Wrap?
  {
    hide Blit;
  }

  lemma {:induction false} Ssd1306Run(p: Parser, k: nat)
    requires Ssd1306State(p) && k < |Drain(p).tokens|
    ensures Ssd1306Event(Drain(p).tokens[k]) && !Drain(p).tokens[k].Wrap?
    decreases p.Measure()
  {
    hide Step, Ssd1306Event;
    Ssd1306Steps(p);
    if k > 0 {
      Ssd1306Run(Step(p).next, k - 1);
    }
  }

  lemma Ssd1306EventsAreExact(fragments: seq<seq<byte>>, k: nat)
    requires k < |DrainAll(Fresh(Ssd1306), fragments).tokens|
    ensures Ssd1306Event(DrainAll(Fresh(Ssd1306), fragments).tokens[k])
    ensures !DrainAll(Fresh(Ssd1306), fragments).tokens[k].Wrap?
  {
    FragmentationIndependence(Fresh(Ssd1306), fragments);
    Ssd1306Run(Fresh(Ssd1306).Feed(Flatten(fragments)), k);
  }

  // ---- SH1106 ----

  /** What ends an SH1106 frame: data for page 7, or a page command that goes back. */
  predicate EndsFrame(token: Token) {
    token.Wrap? || (token.Payload? && token.rect.page == 7)
  }

  /** The frame that began with the page-0 command `begin` is still open. */
  ghost predicate OpenSince(tokens: seq<Token>, begin: nat) {
    && begin < |tokens| && BeginsFrame(tokens[begin])
    && forall j | begin < j < |tokens| :: !BeginsFrame(tokens[j]) && !EndsFrame(tokens[j])
  }

  /** The frame has been open since some page-0 command, and all its rows are rewritten by the tokens and by `last`. */
  ghost predicate Completes(tokens: seq<Token>, last: Token) {
    exists begin: nat :: OpenSince(tokens, begin)
      && forall page: nat | page < 8 :: RewrittenSince(tokens, begin, page) || RewritesRow(last, page)
  }

  /** Data for page 7 ends a frame, completed or not; other data is no event. */
  ghost predicate Sh1106Event(tokens: seq<Token>, token: Token) {
    token.Payload? ==>
      && token.rect.pages == 1
      && token.event == if token.rect.page != 7 then NoEvent
                        else if Completes(tokens, token) then CompletedFrame else PartialBoundary
  }

  /** The page of the last page command of the frame in progress. */
  function LastPage(tokens: seq<Token>): Option<nat> {
    if tokens == [] then None
    else
      var (before, token) := (tokens[..|tokens| - 1], tokens[|tokens| - 1]);
      if EndsFrame(token) then None
      else if token.Address? && |token.bytes| >= 2 && token.bytes[1] >= 0xb0 then Some(token.bytes[1] as nat - 0xb0)
      else LastPage(before)
  }

  /** The marks say exactly which frame is open and which of its rows have been rewritten. */
  ghost predicate MarksAre(marks: Marks, tokens: seq<Token>) {
    && marks.lastPage == LastPage(tokens)
    && if marks.frameStarted then
         exists begin: nat :: OpenSince(tokens, begin)
           && forall page: nat | page < 8 :: HasPage(marks.pages, page) <==> RewrittenSince(tokens, begin, page)
       else
         forall begin: nat :: !OpenSince(tokens, begin)
  }

  ghost predicate Sh1106State(p: Parser, tokens: seq<Token>) {
    p.Valid() && p.controller.Sh1106? && !p.state.Ssd1306Data? && MarksAre(p.sh1106, tokens)
  }

  lemma OpenGrows(tokens: seq<Token>, token: Token, begin: nat)
    ensures begin < |tokens| ==>
              (OpenSince(tokens + [token], begin) <==> OpenSince(tokens, begin) && !BeginsFrame(token) && !EndsFrame(token))
    ensures OpenSince(tokens + [token], |tokens|) <==> BeginsFrame(token)
  {
    var all := tokens + [token];
    assert all[|tokens|] == token;
    if begin < |tokens| {
      assert forall j | begin <= j < |tokens| :: all[j] == tokens[j];
    }
  }

  lemma RewritingGrows(tokens: seq<Token>, token: Token, begin: nat, page: nat)
    requires begin < |tokens|
    ensures RewrittenSince(tokens + [token], begin, page) <==> RewrittenSince(tokens, begin, page) || RewritesRow(token, page)
  {
    var all := tokens + [token];
    assert all[|tokens|] == token;
    if RewrittenSince(tokens, begin, page) {
      var i :| begin < i < |tokens| && RewritesRow(tokens[i], page);
      assert all[i] == tokens[i];
    }
    if RewrittenSince(all, begin, page) && !RewritesRow(token, page) {
      var i :| begin < i < |all| && RewritesRow(all[i], page);
      assert all[i] == tokens[i];
    }
  }

  /** A token that neither begins nor ends a frame nor rewrites a row leaves the marks alone. */
  lemma OtherToken(marks: Marks, after: Marks, tokens: seq<Token>, token: Token)
    requires MarksAre(marks, tokens) && !BeginsFrame(token) && !EndsFrame(token)
    requires forall page: nat | page < 8 :: HasPage(after.pages, page) <==> HasPage(marks.pages, page) || RewritesRow(token, page)
    requires after.frameStarted == marks.frameStarted && after.lastPage == LastPage(tokens + [token])
    ensures MarksAre(after, tokens + [token])
  {
    hide HasPage, LastPage, RewritesRow, BeginsFrame, EndsFrame, OpenSince, RewrittenSince;
    if marks.frameStarted {
      var begin: nat :| OpenSince(tokens, begin)
        && forall page: nat | page < 8 :: HasPage(marks.pages, page) <==> RewrittenSince(tokens, begin, page);
      OpenBegins(tokens, begin);
      OpenGrows(tokens, token, begin);
      forall page: nat | page < 8
        ensures HasPage(after.pages, page) <==> RewrittenSince(tokens + [token], begin, page)
      {
        RewritingGrows(tokens, token, begin, page);
      }
    } else {
      forall begin: nat ensures !OpenSince(tokens + [token], begin) {
        OpenGrows(tokens, token, begin);
        if OpenSince(tokens + [token], begin) {
          OpenBegins(tokens + [token], begin);
        }
      }
    }
  }

  lemma OpenBegins(tokens: seq<Token>, begin: nat)
    requires OpenSince(tokens, begin)
    ensures begin < |tokens|
  {
  }

  lemma EndToken(marks: Marks, tokens: seq<Token>, token: Token)
    requires EndsFrame(token) && marks == NO_MARKS
    ensures MarksAre(marks, tokens + [token])
  {
    var all := tokens + [token];
    assert all[..|all| - 1] == tokens && all[|all| - 1] == token;
    forall begin: nat ensures !OpenSince(all, begin) {
      OpenGrows(tokens, token, begin);
    }
  }

  lemma BeginToken(marks: Marks, tokens: seq<Token>, token: Token)
    requires BeginsFrame(token) && marks == Marks(0, true, Some(0))
    ensures MarksAre(marks, tokens + [token])
  {
    var all := tokens + [token];
    assert all[..|all| - 1] == tokens && all[|all| - 1] == token;
    OpenGrows(tokens, token, |tokens|);
    forall page: nat | page < 8 ensures HasPage(0, page) <==> RewrittenSince(all, |tokens|, page) {
      PageMask(0, page, page);
    }
    hide HasPage;
    assert OpenSince(all, |tokens|);
  }

  lemma LastPageOf(tokens: seq<Token>, token: Token)
    ensures LastPage(tokens + [token]) ==
            if EndsFrame(token) then None
            else if token.Address? && |token.bytes| >= 2 && token.bytes[1] >= 0xb0 then Some(token.bytes[1] as nat - 0xb0)
            else LastPage(tokens)
  {
    var all := tokens + [token];
    assert all[..|all| - 1] == tokens && all[|all| - 1] == token;
  }

  lemma AllPages(mask: bv8)
    ensures mask == 0xff <==> forall page: nat | page < 8 :: HasPage(mask, page)
  {
    forall page: nat | page < 8 && mask == 0xff ensures HasPage(mask, page) {
      PageMask(mask, page, page);
    }
    if forall page: nat | page < 8 :: HasPage(mask, page) {
      assert HasPage(mask, 0) && HasPage(mask, 1) && HasPage(mask, 2) && HasPage(mask, 3);
      assert HasPage(mask, 4) && HasPage(mask, 5) && HasPage(mask, 6) && HasPage(mask, 7);
      EightBits(mask);
    }
  }

  lemma EightBits(mask: bv8)
    requires mask & 0x01 != 0 && mask & 0x02 != 0 && mask & 0x04 != 0 && mask & 0x08 != 0
    requires mask & 0x10 != 0 && mask & 0x20 != 0 && mask & 0x40 != 0 && mask & 0x80 != 0
    ensures mask == 0xff
  {
  }

  lemma Sh1106Scan(p: Parser, tokens: seq<Token>)
    requires Sh1106State(p, tokens) && p.state.Scan? && Step(p).Moved?
    ensures Sh1106State(Step(p).next, tokens + [Step(p).token]) && !Step(p).token.Payload?
  {
    hide HasPage, LastPage, MarksAre, SkippedAt, Undecided, WrapsAt;
    ScanIsExact(p);
    var (next, token) := (Step(p).next, Step(p).token);
    hide Step;
    LastPageOf(tokens, token);
    if token.Wrap? {
      EndToken(next.sh1106, tokens, token);
    } else if token.Address? && p.pending[1] == 0xb0 {
      BeginToken(next.sh1106, tokens, token);
    } else {
      assert next.sh1106.lastPage == LastPage(tokens + [token]) by {
        MarkedLast(p.sh1106, tokens);
      }
      OtherToken(p.sh1106, next.sh1106, tokens, token);
    }
  }

  lemma MarkedLast(marks: Marks, tokens: seq<Token>)
    requires MarksAre(marks, tokens)
    ensures marks.lastPage == LastPage(tokens)
  {
    hide LastPage;
  }

  /** The rows marked after a payload of one row. */
  lemma RowMarked(pages: bv8, r: Rect, token: Token, row: nat)
    requires r.Valid() && r.pages == 1 && token.Payload? && token.rect == r && row < 8
    ensures HasPage(Marked(pages, r), row) <==> HasPage(pages, row) || RewritesRow(token, row)
  {
    PageMask(pages, r.page, row);
    hide HasPage, PageBit;
  }

  /** The marks and the event of a payload of one row. */
  lemma PayloadStep(p: Parser)
    requires p.Valid() && p.state.Sh1106PageData? && Step(p).Moved? && Step(p).token.Payload?
    ensures var (next, token, r) := (Step(p).next, Step(p).token, p.Target());
            var pages := Marked(p.sh1106.pages, r);
            && next.Valid() && next.controller == p.controller && next.state.Scan?
            && token.rect == r && r.Valid() && r.pages == 1
            && next.sh1106 == (if r.page == 7 then NO_MARKS else p.sh1106.(pages := pages))
            && token.event == (if r.page != 7 then NoEvent
                               else if p.sh1106.frameStarted && pages == 0xff then CompletedFrame else PartialBoundary)
  {
    hide Blit, PageBit;
  }

  lemma Sh1106Payload(p: Parser, tokens: seq<Token>)
    requires Sh1106State(p, tokens) && p.state.Sh1106PageData? && Step(p).Moved? && Step(p).token.Payload?
    ensures Sh1106State(Step(p).next, tokens + [Step(p).token]) && Sh1106Event(tokens, Step(p).token)
  {
    hide HasPage, LastPage, MarksAre, Marked, Step, Completes;
    PayloadStep(p);
    PayloadMarks(p.sh1106, tokens, Step(p).token);
  }

  lemma PayloadMarks(marks: Marks, tokens: seq<Token>, token: Token)
    requires MarksAre(marks, tokens) && token.Payload? && token.rect.Valid() && token.rect.pages == 1
    ensures var r := token.rect;
            var pages := Marked(marks.pages, r);
            if r.page == 7 then
              MarksAre(NO_MARKS, tokens + [token]) && (marks.frameStarted && pages == 0xff <==> Completes(tokens, token))
            else
              MarksAre(marks.(pages := pages), tokens + [token])
  {
    hide HasPage, LastPage, MarksAre, Marked, Completes, RewritesRow;
    var r := token.rect;
    var pages := Marked(marks.pages, r);
    LastPageOf(tokens, token);
    MarkedLast(marks, tokens);
    forall row: nat | row < 8 ensures HasPage(pages, row) <==> HasPage(marks.pages, row) || RewritesRow(token, row) {
      RowMarked(marks.pages, r, token, row);
    }
    if r.page == 7 {
      EndToken(NO_MARKS, tokens, token);
      CompleteByMarks(marks, tokens, token, pages);
    } else {
      OtherToken(marks, marks.(pages := pages), tokens, token);
    }
  }

  lemma CompleteByMarks(marks: Marks, tokens: seq<Token>, token: Token, pages: bv8)
    requires MarksAre(marks, tokens)
    requires forall row: nat | row < 8 :: HasPage(pages, row) <==> HasPage(marks.pages, row) || RewritesRow(token, row)
    ensures marks.frameStarted && pages == 0xff <==> Completes(tokens, token)
  {
    hide HasPage, LastPage, RewritesRow, RewrittenSince;
    AllPages(pages);
    if marks.frameStarted {
      var begin: nat :| OpenSince(tokens, begin)
        && forall page: nat | page < 8 :: HasPage(marks.pages, page) <==> RewrittenSince(tokens, begin, page);
      if Completes(tokens, token) {
        var other: nat :| OpenSince(tokens, other)
          && forall page: nat | page < 8 :: RewrittenSince(tokens, other, page) || RewritesRow(token, page);
        OneOpening(tokens, begin, other);
      }
    }
  }

  lemma OneOpening(tokens: seq<Token>, first: nat, second: nat)
    requires OpenSince(tokens, first) && OpenSince(tokens, second)
    ensures first == second
  {
  }

  lemma Sh1106Steps(p: Parser, tokens: seq<Token>)
    requires Sh1106State(p, tokens) && Step(p).Moved?
    ensures Sh1106State(Step(p).next, tokens + [Step(p).token]) && Sh1106Event(tokens, Step(p).token)
  {
    if p.state.Scan? {
      Sh1106Scan(p, tokens);
    } else if Step(p).token.Payload? {
      Sh1106Payload(p, tokens);
    } else {
      hide HasPage, LastPage, MarksAre, Blit, Finish;
      LastPageOf(tokens, Step(p).token);
      MarkedLast(p.sh1106, tokens);
      OtherToken(p.sh1106, p.sh1106, tokens, Step(p).token);
    }
  }

  lemma {:induction false} Sh1106Run(p: Parser, tokens: seq<Token>, k: nat)
    requires Sh1106State(p, tokens) && k < |Drain(p).tokens|
    ensures Sh1106Event(tokens + Drain(p).tokens[..k], Drain(p).tokens[k])
    decreases p.Measure()
  {
    hide Step, Sh1106Event, Sh1106State;
    StateIsValid(p, tokens);
    var (next, token) := (Step(p).next, Step(p).token);
    Sh1106Steps(p, tokens);
    if k == 0 {
      assert tokens + [] == tokens && Drain(p).tokens[..0] == [];
    } else {
      StateIsValid(next, tokens + [token]);
      Sh1106Run(next, tokens + [token], k - 1);
      assert (tokens + [token]) + Drain(next).tokens[..k - 1] == tokens + Drain(p).tokens[..k];
    }
  }

  lemma StateIsValid(p: Parser, tokens: seq<Token>)
    requires Sh1106State(p, tokens)
    ensures p.Valid()
  {
  }

  /**
   In every SH1106 stream, however cut: data for pages 0 to 6 is no event; data for page 7 completes a frame exactly if,
   since the last page-0 command, no page command has gone back, no other data for page 7 has come, and each of the
   eight rows has been rewritten over its full width; otherwise it is a partial boundary.
   */
  lemma Sh1106EventsAreExact(fragments: seq<seq<byte>>, k: nat)
    requires k < |DrainAll(Fresh(Sh1106), fragments).tokens|
    ensures var tokens := DrainAll(Fresh(Sh1106), fragments).tokens; Sh1106Event(tokens[..k], tokens[k])
  {
    var p := Fresh(Sh1106).Feed(Flatten(fragments));
    FragmentationIndependence(Fresh(Sh1106), fragments);
    assert MarksAre(NO_MARKS, []) by {
      assert forall begin: nat :: !OpenSince([], begin);
    }
    Sh1106Run(p, [], k);
    assert [] + Drain(p).tokens[..k] == Drain(p).tokens[..k];
  }

  // ---- The counters and the boundary frames of the presentation ----

  /** Token `k` completes a frame. */
  ghost predicate IsComplete(c: Controller, tokens: seq<Token>, k: nat)
    requires k < |tokens|
  {
    && tokens[k].Payload?
    && if c.Ssd1306? then tokens[k].rect == Rect(0, 128, 0, 8)
       else tokens[k].rect.page == 7 && Completes(tokens[..k], tokens[k])
  }

  /** How many of the first `n` tokens complete a frame. */
  ghost function FramesIn(c: Controller, tokens: seq<Token>, n: nat): nat
    requires n <= |tokens|
  {
    if n == 0 then 0 else FramesIn(c, tokens, n - 1) + (if IsComplete(c, tokens, n - 1) then 1 else 0)
  }

  function CompletedEvents(tokens: seq<Token>): nat {
    if tokens == [] then 0 else (if tokens[0].EventOf() == CompletedFrame then 1 else 0) + CompletedEvents(tokens[1..])
  }

  lemma {:induction false} CompletedEventsAppend(tokens: seq<Token>, token: Token)
    ensures CompletedEvents(tokens + [token])
         == CompletedEvents(tokens) + (if token.EventOf() == CompletedFrame then 1 else 0)
  {
    hide Token.EventOf;
    if tokens == [] {
      assert [token][1..] == [] && CompletedEvents([token][1..]) == 0;
    } else {
      CompletedEventsAppend(tokens[1..], token);
      assert (tokens + [token])[1..] == tokens[1..] + [token];
    }
  }

  /** The display as it was at each frame event. */
  function BoundaryPictures(ram: seq<byte>, tokens: seq<Token>): seq<seq<byte>>
    requires |ram| == FRAMEBUFFER_SIZE && AllValid(tokens)
    decreases |tokens|
  {
    if tokens == [] then []
    else
      var next := Paint(ram, tokens[0]);
      (if tokens[0].IsEvent() then [next] else []) + BoundaryPictures(next, tokens[1..])
  }

  lemma {:induction false} AbsorbAllCounts(s: Screen, tokens: seq<Token>, now: nat)
    requires s.Valid() && AllValid(tokens)
    ensures var after := AbsorbAll(s, tokens, now);
            && after.completedFrames == s.completedFrames + CompletedEvents(tokens)
            && after.discardedBytes == s.discardedBytes + Discarded(tokens)
            && after.displayUpdates == s.displayUpdates + |Writes(tokens)|
            && after.boundaryFrames == s.boundaryFrames + BoundaryPictures(s.ram, tokens)
    decreases |tokens|
  {
    hide Paint, Token.EventOf;
    if tokens == [] {
      assert s.boundaryFrames + [] == s.boundaryFrames;
    } else {
      var next := Absorb(s, tokens[0], now);
      AbsorbAllCounts(next, tokens[1..], now);
      var first := if tokens[0].IsEvent() then [next.ram] else [];
      AbsorbFrames(s, tokens[0], now);
      hide Absorb;
      Reassociate(s.boundaryFrames, first, BoundaryPictures(next.ram, tokens[1..]));
    }
  }

  lemma AbsorbFrames(s: Screen, token: Token, now: nat)
    requires s.Valid() && token.Valid()
    ensures var next := Absorb(s, token, now);
            next.boundaryFrames == s.boundaryFrames + (if token.IsEvent() then [next.ram] else [])
  {
    hide Paint, Token.EventOf;
    assert s.boundaryFrames + [] == s.boundaryFrames;
  }

  /** The completed frames among the tokens of a stream are those that its bytes complete. */
  lemma EventsAreExact(c: Controller, stream: seq<byte>, k: nat)
    requires k < |Drain(Fresh(c).Feed(stream)).tokens|
    ensures var tokens := Drain(Fresh(c).Feed(stream)).tokens;
            tokens[k].EventOf() == CompletedFrame <==> IsComplete(c, tokens, k)
  {
    hide Drain, Completes;
    FlattenOne(stream);
    FragmentationIndependence(Fresh(c), [stream]);
    if c.Ssd1306? {
      Ssd1306EventsAreExact([stream], k);
    } else {
      Sh1106EventsAreExact([stream], k);
    }
  }

  lemma {:induction false} FramesAreCounted(c: Controller, stream: seq<byte>, n: nat)
    requires n <= |Drain(Fresh(c).Feed(stream)).tokens|
    ensures var tokens := Drain(Fresh(c).Feed(stream)).tokens; CompletedEvents(tokens[..n]) == FramesIn(c, tokens, n)
  {
    hide Drain, IsComplete, Token.EventOf;
    var tokens := Drain(Fresh(c).Feed(stream)).tokens;
    if n == 0 {
      assert tokens[..0] == [];
    } else {
      FramesAreCounted(c, stream, n - 1);
      EventsAreExact(c, stream, n - 1);
      assert tokens[..n] == tokens[..n - 1] + [tokens[n - 1]];
      CompletedEventsAppend(tokens[..n - 1], tokens[n - 1]);
    }
  }

  /**
   The counters of the presentation loop, after any pushes and polls at any times: as many completed frames as the
   stream completes, one update for each rectangle, one discarded byte for each byte that was not understood, and the
   boundary frames are the pictures at the frame events.
   */
  lemma CountersAreExact(c: Controller, ops: seq<Op>)
    ensures var (screen, tokens) := (DoAll(Start(c), ops).screen, Drain(Fresh(c).Feed(Inputs(ops))).tokens);
            && AllValid(tokens)
            && screen.completedFrames == FramesIn(c, tokens, |tokens|)
            && screen.displayUpdates == |Writes(tokens)|
            && screen.discardedBytes == Discarded(tokens)
            && screen.boundaryFrames == BoundaryPictures(Blank(), tokens)
  {
    hide Drain, FramesIn, DoAll, AbsorbAll;
    var tokens := Drain(Fresh(c).Feed(Inputs(ops))).tokens;
    assert Fresh(c).framebuffer == Blank();
    PresentationFollowsStream(Start(c), ops, 0);
    AbsorbAllCounts(Start(c).screen, tokens, 0);
    FramesAreCounted(c, Inputs(ops), |tokens|);
    assert tokens[..|tokens|] == tokens;
    assert [] + BoundaryPictures(Blank(), tokens) == BoundaryPictures(Blank(), tokens);
  }

  /** The updates that cover the whole display. */
  function WholeScreens(writes: seq<Write>): nat {
    if writes == [] then 0 else (if writes[0].rect == Rect(0, 128, 0, 8) then 1 else 0) + WholeScreens(writes[1..])
  }

  lemma {:induction false} WholeScreensComplete(tokens: seq<Token>)
    requires forall k | 0 <= k < |tokens| :: Ssd1306Event(tokens[k]) && !tokens[k].Wrap?
    ensures CompletedEvents(tokens) == WholeScreens(Writes(tokens))
  {
    if tokens != [] {
      assert Ssd1306Event(tokens[0]);
      WholeScreensComplete(tokens[1..]);
      if tokens[0].Payload? {
        assert Writes(tokens)[1..] == Writes(tokens[1..]);
      } else {
        assert Writes(tokens) == Writes(tokens[1..]);
      }
    }
  }

  /** Of messages the loop counts each update and each byte of noise, and for an SSD1306 each whole screen as a frame. */
  lemma MessagesAreCounted(c: Controller, ms: seq<Message>, ops: seq<Op>)
    requires AllSendable(c, ms) && Inputs(ops) == EncodeAll(c, ms)
    ensures var screen := DoAll(Start(c), ops).screen;
            && screen.displayUpdates == |DeclaredAll(ms)|
            && screen.discardedBytes == NoiseInAll(ms)
            && (c.Ssd1306? ==> screen.completedFrames == WholeScreens(DeclaredAll(ms)))
  {
    hide Drain, DoAll, AbsorbAll;
    var (p, tokens) := (Fresh(c).Feed(Inputs(ops)), Drain(Fresh(c).Feed(Inputs(ops))).tokens);
    PresentationFollowsStream(Start(c), ops, 0);
    AbsorbAllCounts(Start(c).screen, tokens, 0);
    RoundTrip(p, ms);
    if c.Ssd1306? {
      forall k | 0 <= k < |tokens| ensures Ssd1306Event(tokens[k]) && !tokens[k].Wrap? {
        Ssd1306Run(p, k);
      }
      WholeScreensComplete(tokens);
    }
  }
}
