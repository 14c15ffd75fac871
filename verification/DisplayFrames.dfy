/** Completed frames are fresh. */
module DisplayFrames {
  // The framebuffer is the fold of the declared rectangle writes, and a frame reported as completed shows nothing
  // older than the frame itself.

  import opened Bytes
  import opened DisplaySpec
  import opened DisplayFragments

  ghost predicate AllValid(tokens: seq<Token>) {
    forall token | token in tokens :: token.Valid()
  }

  function Paint(framebuffer: seq<byte>, token: Token): (result: seq<byte>)
    requires |framebuffer| == FRAMEBUFFER_SIZE && token.Valid()
    ensures |result| == FRAMEBUFFER_SIZE
  {
    if token.Payload? then Blit(framebuffer, token.rect, token.data) else framebuffer
  }

  function Painted(framebuffer: seq<byte>, tokens: seq<Token>): (result: seq<byte>)
    requires |framebuffer| == FRAMEBUFFER_SIZE && AllValid(tokens)
    ensures |result| == FRAMEBUFFER_SIZE
    decreases |tokens|
  {
    if tokens == [] then framebuffer else Painted(Paint(framebuffer, tokens[0]), tokens[1..])
  }

  /** The framebuffers at the completed frames, in order. */
  function CompletedPictures(framebuffer: seq<byte>, tokens: seq<Token>): seq<seq<byte>>
    requires |framebuffer| == FRAMEBUFFER_SIZE && AllValid(tokens)
    decreases |tokens|
  {
    if tokens == [] then
      []
    else
      var next := Paint(framebuffer, tokens[0]);
      (if tokens[0].EventOf() == CompletedFrame then [next] else []) + CompletedPictures(next, tokens[1..])
  }

  lemma StepPaints(p: Parser)
    requires p.Valid() && Step(p).Moved?
    ensures Step(p).next.framebuffer == Paint(p.framebuffer, Step(p).token)
  {
    hide ReadScan, Finish, Blit;
  }

  /** Nothing but the declared writes ever changes the framebuffer. */
  lemma {:induction false} FramebufferIsFold(p: Parser)
    requires p.Valid()
    ensures AllValid(Drain(p).tokens)
    ensures Drain(p).parser.framebuffer == Painted(p.framebuffer, Drain(p).tokens)
    decreases p.Measure()
  {
    hide Step, Paint;
    match Step(p)
    case Stuck =>
    case Moved(next, token) =>
      StepPaints(p);
      FramebufferIsFold(next);
      assert Drain(p).tokens[1..] == Drain(next).tokens;
  }

  /** The byte that a token writes at index `i`, if its rectangle covers that index. */
  function WrittenAt(token: Token, i: nat): Option<byte>
    requires token.Valid()
  {
    if !token.Payload? then
      None
    else
      var (r, row, column) := (token.rect, i / 128, i % 128);
      if r.page <= row < r.page + r.pages && r.x <= column < r.x + r.width then
        DataIndexInRange(r, row, column);
        Some(token.data[(row - r.page) * r.width + (column - r.x)])
      else
        None
  }

  /** The byte last written at index `i`. */
  function LastWritten(tokens: seq<Token>, i: nat): Option<byte>
    requires AllValid(tokens)
  {
    if tokens == [] then
      None
    else
      var later := LastWritten(tokens[1..], i);
      if later.Some? then later else WrittenAt(tokens[0], i)
  }

  /** Every framebuffer byte is the last one written there; where nothing was written it is preserved. */
  lemma {:induction false} ByteIsLastWritten(framebuffer: seq<byte>, tokens: seq<Token>, i: nat)
    requires |framebuffer| == FRAMEBUFFER_SIZE && AllValid(tokens) && i < FRAMEBUFFER_SIZE
    ensures Painted(framebuffer, tokens)[i] ==
            match LastWritten(tokens, i) case Some(b) => b case None => framebuffer[i]
    decreases |tokens|
  {
    if tokens != [] {
      ByteIsLastWritten(Paint(framebuffer, tokens[0]), tokens[1..], i);
    }
  }

  predicate HasPage(mask: bv8, page: nat)
    requires page < PAGES
  {
    mask & PageBit(page) != 0
  }

  lemma PageMask(mask: bv8, page: nat, other: nat)
    requires page < PAGES && other < PAGES
    ensures !HasPage(0, page)
    ensures mask == 0xff ==> HasPage(mask, page)
    ensures HasPage(mask | PageBit(page), other) <==> HasPage(mask, other) || page == other
  {
  }

  /** Parsers that differ at most in framebuffer rows that the current SH1106 frame has not rewritten. */
  ghost predicate Twins(p: Parser, q: Parser) {
    && p.Valid() && q.Valid()
    && q == p.(framebuffer := q.framebuffer)
    && forall i | 0 <= i < FRAMEBUFFER_SIZE && HasPage(p.sh1106.pages, i / WIDTH) :: p.framebuffer[i] == q.framebuffer[i]
  }

  lemma TwinScan(p: Parser, q: Parser)
    requires Twins(p, q) && p.state.Scan? && Step(p).Moved?
    ensures Step(q).Moved? && Step(q).token == Step(p).token && Step(p).token.EventOf() != CompletedFrame
    ensures Twins(Step(p).next, Step(q).next)
  {
    forall page: nat | page < PAGES ensures !HasPage(0, page) {
      PageMask(0, page, page);
    }
    hide ReadSsd1306, ReadSh1106, HasPage, PageBit;
  }

  ghost predicate Refills(r: Rect, page: nat) {
    r.x == 0 && r.width == WIDTH && r.page <= page < r.page + r.pages
  }

  /** The marks with the page of a payload added, if that covers the whole row. */
  function Marked(pages: bv8, r: Rect): bv8
    requires r.Valid()
  {
    if r.x == 0 && r.width == WIDTH then pages | PageBit(r.page) else pages
  }

  lemma FinishedPage(state: ParseState, marks: Marks, r: Rect)
    requires !state.Ssd1306Data? && r.Valid()
    ensures var (after, event) := Finish(state, marks, r);
            && (after.pages == 0 || after.pages == Marked(marks.pages, r))
            && (after.frameStarted ==> marks.frameStarted && after.pages == Marked(marks.pages, r))
            && (event == CompletedFrame ==> marks.frameStarted && Marked(marks.pages, r) == 0xff)
  {
  }

  lemma MarkedHas(pages: bv8, r: Rect, page: nat)
    requires r.Valid() && page < PAGES
    ensures HasPage(Marked(pages, r), page) ==> HasPage(pages, page) || Refills(r, page)
    ensures Marked(pages, r) == 0xff ==> HasPage(Marked(pages, r), page)
    ensures !HasPage(0, page)
  {
    hide HasPage, PageBit;
    PageMask(pages, r.page, page);
    PageMask(Marked(pages, r), page, page);
  }

  /** The rows marked after a payload, and all rows of a completed frame, were marked before or just refilled. */
  lemma FinishMarksRewrittenRows(state: ParseState, marks: Marks, r: Rect, page: nat)
    requires page < PAGES && r.Valid() && (state.Sh1106PageData? ==> r.pages == 1)
    ensures var (after, event) := Finish(state, marks, r);
            HasPage(after.pages, page) || event == CompletedFrame ==> HasPage(marks.pages, page) || Refills(r, page)
  {
    MarkedHas(marks.pages, r, page);
    if !state.Ssd1306Data? {
      hide HasPage, Marked, Finish, Refills;
      FinishedPage(state, marks, r);
    } else {
      hide HasPage, Marked, PageBit;
    }
  }

  lemma BlitAgrees(left: seq<byte>, right: seq<byte>, r: Rect, data: seq<byte>, i: nat)
    requires |left| == |right| == FRAMEBUFFER_SIZE && r.Valid() && |data| == r.width * r.pages && i < FRAMEBUFFER_SIZE
    requires left[i] == right[i] || Refills(r, i / WIDTH)
    ensures Blit(left, r, data)[i] == Blit(right, r, data)[i]
  {
  }

  lemma TwinData(p: Parser, q: Parser)
    requires Twins(p, q) && !p.state.Scan? && Step(p).Moved?
    ensures Step(q).Moved? && Step(q).token == Step(p).token
    ensures Twins(Step(p).next, Step(q).next)
    ensures Step(p).token.EventOf() == CompletedFrame ==> Step(p).next.framebuffer == Step(q).next.framebuffer
  {
    if p.pending[0] == 0x40 {
      var (r, token) := (p.Target(), Step(p).token);
      hide Blit, HasPage, Finish;
      assert token == Step(q).token;
      forall i | 0 <= i < FRAMEBUFFER_SIZE
        ensures HasPage(Step(p).next.sh1106.pages, i / WIDTH) || token.EventOf() == CompletedFrame ==>
                  Step(p).next.framebuffer[i] == Step(q).next.framebuffer[i]
      {
        FinishMarksRewrittenRows(p.state, p.sh1106, r, i / WIDTH);
        if p.framebuffer[i] == q.framebuffer[i] || Refills(r, i / WIDTH) {
          BlitAgrees(p.framebuffer, q.framebuffer, r, token.data, i);
        }
      }
    }
  }

  lemma TwinStep(p: Parser, q: Parser)
    requires Twins(p, q) && Step(p).Moved?
    ensures Step(q).Moved? && Step(q).token == Step(p).token
    ensures Twins(Step(p).next, Step(q).next)
    ensures Step(p).token.EventOf() == CompletedFrame ==> Step(p).next.framebuffer == Step(q).next.framebuffer
  {
    if p.state.Scan? {
      TwinScan(p, q);
    } else {
      TwinData(p, q);
    }
  }

  lemma {:induction false} TwinRun(p: Parser, q: Parser)
    requires Twins(p, q)
    ensures Drain(p).tokens == Drain(q).tokens && AllValid(Drain(p).tokens)
    ensures CompletedPictures(p.framebuffer, Drain(p).tokens) == CompletedPictures(q.framebuffer, Drain(q).tokens)
    decreases p.Measure()
  {
    match Step(p)
    case Stuck =>
    case Moved(next, token) =>
      TwinStep(p, q);
      TwinRun(next, Step(q).next);
      StepPaints(p);
      StepPaints(q);
      assert Drain(p).tokens[1..] == Drain(next).tokens;
      assert Drain(q).tokens[1..] == Drain(next).tokens;
  }

  /**
   From a parser that has no page of the current frame marked (a fresh one, or one that has just read a
   page-0 command), the completed frames do not depend on what the framebuffer held before.
   */
  lemma CompletedFramesHoldNoStalePixel(p: Parser, framebuffer: seq<byte>, fragments: seq<seq<byte>>)
    requires p.Valid() && Step(p).Stuck? && p.sh1106.pages == 0 && |framebuffer| == FRAMEBUFFER_SIZE
    ensures var q := p.(framebuffer := framebuffer);
            && q.Valid()
            && DrainAll(p, fragments).tokens == DrainAll(q, fragments).tokens
            && AllValid(DrainAll(p, fragments).tokens)
            && CompletedPictures(p.framebuffer, DrainAll(p, fragments).tokens)
            == CompletedPictures(framebuffer, DrainAll(q, fragments).tokens)
  {
    var q, stream := p.(framebuffer := framebuffer), Flatten(fragments);
    FragmentationIndependence(p, fragments);
    FragmentationIndependence(q, fragments);
    TwinRun(p.Feed(stream), q.Feed(stream));
  }

  // ---- Every row of a completed SH1106 frame was rewritten ----

  /** A command for page 0, with which an SH1106 frame begins. */
  predicate BeginsFrame(token: Token) {
    token.Address? && |token.bytes| >= 2 && token.bytes[0] == 0x00 && token.bytes[1] == 0xb0
  }

  predicate RewritesRow(token: Token, page: nat) {
    token.Payload? && token.rect == Rect(0, WIDTH, page, 1)
  }

  ghost predicate RewrittenSince(tokens: seq<Token>, begin: nat, page: nat) {
    exists i :: begin < i < |tokens| && RewritesRow(tokens[i], page)
  }

  /** These tokens contain a page-0 command after which every marked row has been rewritten in full. */
  ghost predicate MarksAreRewritten(pages: bv8, tokens: seq<Token>) {
    exists begin: nat :: begin < |tokens| && BeginsFrame(tokens[begin])
      && forall page: nat | page < PAGES && HasPage(pages, page) :: RewrittenSince(tokens, begin, page)
  }

  /** The state of an SH1106 parser after these tokens, with the history that its marks stand for. */
  ghost predicate History(p: Parser, tokens: seq<Token>) {
    && p.Valid() && p.controller.Sh1106? && !p.state.Ssd1306Data?
    && (p.sh1106.frameStarted ==> MarksAreRewritten(p.sh1106.pages, tokens))
  }

  /** A longer history rewrites no less; a row just rewritten may be marked as well. */
  lemma MarksGrow(pages: bv8, more: bv8, tokens: seq<Token>, token: Token)
    requires MarksAreRewritten(pages, tokens)
    requires forall page: nat | page < PAGES && HasPage(more, page) :: HasPage(pages, page) || RewritesRow(token, page)
    ensures MarksAreRewritten(more, tokens + [token])
  {
    hide HasPage;
    var all := tokens + [token];
    var begin: nat :| begin < |tokens| && BeginsFrame(tokens[begin])
      && forall page: nat | page < PAGES && HasPage(pages, page) :: RewrittenSince(tokens, begin, page);
    assert BeginsFrame(all[begin]);
    forall page: nat | page < PAGES && HasPage(more, page) ensures RewrittenSince(all, begin, page) {
      if HasPage(pages, page) {
        var i :| begin < i < |tokens| && RewritesRow(tokens[i], page);
        assert RewritesRow(all[i], page);
      } else {
        assert RewritesRow(all[|tokens|], page);
      }
    }
  }

  lemma NoMarks(tokens: seq<Token>, token: Token)
    requires BeginsFrame(token)
    ensures MarksAreRewritten(0, tokens + [token])
  {
    forall page: nat | page < PAGES ensures !HasPage(0, page) {
      PageMask(0, page, page);
    }
    hide HasPage;
    assert BeginsFrame((tokens + [token])[|tokens|]);
  }

  lemma ScanHistory(p: Parser, tokens: seq<Token>)
    requires History(p, tokens) && p.state.Scan? && Step(p).Moved?
    ensures History(Step(p).next, tokens + [Step(p).token])
  {
    var (next, token) := (Step(p).next, Step(p).token);
    if ReadScan(p).PageWrite? && ReadScan(p).page == 0 {
      assert BeginsFrame(token) && next.sh1106.pages == 0;
      NoMarks(tokens, token);
    } else if p.sh1106.frameStarted && next.sh1106.frameStarted {
      assert next.sh1106.pages == p.sh1106.pages;
      MarksGrow(p.sh1106.pages, p.sh1106.pages, tokens, token);
    }
    hide MarksAreRewritten, HasPage;
  }

  lemma MarkedRows(pages: bv8, r: Rect, token: Token)
    requires r.Valid() && r.pages == 1 && token.Payload? && token.rect == r
    ensures forall page: nat | page < PAGES && HasPage(Marked(pages, r), page) :: HasPage(pages, page) || RewritesRow(token, page)
  {
    forall page: nat | page < PAGES && HasPage(Marked(pages, r), page) ensures HasPage(pages, page) || RewritesRow(token, page) {
      PageMask(pages, r.page, page);
    }
  }

  lemma DataHistory(p: Parser, tokens: seq<Token>)
    requires History(p, tokens) && !p.state.Scan? && Step(p).Moved?
    ensures History(Step(p).next, tokens + [Step(p).token])
    ensures Step(p).token.EventOf() == CompletedFrame ==> MarksAreRewritten(0xff, tokens + [Step(p).token])
  {
    hide MarksAreRewritten, HasPage, PageBit, Blit, Finish, Marked, RewritesRow;
    var token := Step(p).token;
    if p.sh1106.frameStarted && p.pending[0] != 0x40 {
      MarksGrow(p.sh1106.pages, p.sh1106.pages, tokens, token);
    } else if p.pending[0] == 0x40 {
      var r := p.Target();
      FinishedPage(p.state, p.sh1106, r);
      MarkedRows(p.sh1106.pages, r, token);
      if p.sh1106.frameStarted {
        MarksGrow(p.sh1106.pages, Marked(p.sh1106.pages, r), tokens, token);
      }
    }
  }

  /** Every page of the frame that ends these tokens was rewritten in full since a page-0 command. */
  ghost predicate FrameIsRewritten(tokens: seq<Token>) {
    exists begin: nat :: begin < |tokens| && BeginsFrame(tokens[begin])
      && forall page: nat | page < PAGES :: RewrittenSince(tokens, begin, page)
  }

  lemma AllMarked(tokens: seq<Token>)
    requires MarksAreRewritten(0xff, tokens)
    ensures FrameIsRewritten(tokens)
  {
    forall page: nat | page < PAGES ensures HasPage(0xff, page) {
      PageMask(0xff, page, page);
    }
    hide HasPage;
  }

  lemma {:induction false} RunHistory(p: Parser, tokens: seq<Token>, k: nat)
    requires History(p, tokens) && k < |Drain(p).tokens| && Drain(p).tokens[k].EventOf() == CompletedFrame
    ensures FrameIsRewritten(tokens + Drain(p).tokens[..k + 1])
    decreases p.Measure()
  {
    hide Step, MarksAreRewritten, FrameIsRewritten;
    var (next, token) := (Step(p).next, Step(p).token);
    StepHistory(p, tokens);
    if k == 0 {
      assert Drain(p).tokens[..1] == [token];
    } else {
      RunHistory(next, tokens + [token], k - 1);
      assert (tokens + [token]) + Drain(next).tokens[..k] == tokens + Drain(p).tokens[..k + 1];
    }
  }

  lemma StepHistory(p: Parser, tokens: seq<Token>)
    requires History(p, tokens) && Step(p).Moved?
    ensures History(Step(p).next, tokens + [Step(p).token])
    ensures Step(p).token.EventOf() == CompletedFrame ==> FrameIsRewritten(tokens + [Step(p).token])
  {
    if p.state.Scan? {
      ScanHistory(p, tokens);
      assert Step(p).token.EventOf() != CompletedFrame;
    } else {
      DataHistory(p, tokens);
      hide Step, History, MarksAreRewritten, FrameIsRewritten;
      if Step(p).token.EventOf() == CompletedFrame {
        AllMarked(tokens + [Step(p).token]);
      }
    }
  }

  /**
   In every SH1106 stream, however it is cut, a frame reported as completed comes after a page-0 command since which
   each of its eight rows has been rewritten over its full width.
   */
  lemma CompletedFrameRewroteEveryRow(fragments: seq<seq<byte>>, k: nat)
    requires var tokens := DrainAll(Fresh(Sh1106), fragments).tokens;
             k < |tokens| && tokens[k].EventOf() == CompletedFrame
    ensures FrameIsRewritten(DrainAll(Fresh(Sh1106), fragments).tokens[..k + 1])
  {
    var p := Fresh(Sh1106).Feed(Flatten(fragments));
    FragmentationIndependence(Fresh(Sh1106), fragments);
    RunHistory(p, [], k);
    assert [] + Drain(p).tokens[..k + 1] == Drain(p).tokens[..k + 1];
  }
}
