/** The incremental parser object of src/display_protocol.rs, proved against the step function. */
module DisplayParsing {
  import opened Bytes
  import opened DisplaySpec

  datatype ParseUpdate = ParseUpdate(
    completedFrames: nat,
    partialFrameBoundary: bool,
    discardedBytes: nat,
    displayUpdates: nat)
  {
    function Count(token: Token): ParseUpdate {
      ParseUpdate(
        completedFrames + (if token.EventOf() == CompletedFrame then 1 else 0),
        partialFrameBoundary || token.EventOf() == PartialBoundary,
        discardedBytes + (if token.Discard? then 1 else 0),
        displayUpdates + (if token.Payload? then 1 else 0))
    }
  }

  const NO_UPDATE := ParseUpdate(0, false, 0, 0)

  function Tally(update: ParseUpdate, tokens: seq<Token>): ParseUpdate
    decreases |tokens|
  {
    if tokens == [] then update else Tally(update.Count(tokens[0]), tokens[1..])
  }

  lemma {:induction false} TallyOneMore(update: ParseUpdate, tokens: seq<Token>, token: Token)
    ensures Tally(update, tokens + [token]) == Tally(update, tokens).Count(token)
    decreases |tokens|
  {
    if tokens == [] {
      assert Tally(update, [token]) == Tally(update.Count(token), []);
    } else {
      TallyOneMore(update.Count(tokens[0]), tokens[1..], token);
      assert (tokens + [token])[1..] == tokens[1..] + [token];
    }
  }

  /** What one step made of the parser and of the update; a wrap reports no progress. */
  ghost predicate Follows(outcome: Outcome, before: Parser, after: Parser,
                          update: ParseUpdate, counted: ParseUpdate, progressed: bool) {
    match outcome
    case Stuck => after == before && counted == update && !progressed
    case Moved(next, token) => after == next && counted == update.Count(token) && progressed == !token.Wrap?
  }

  ghost predicate Stepped(before: Parser, after: Parser, update: ParseUpdate, counted: ParseUpdate, progressed: bool)
    requires before.Valid()
  {
    Follows(Step(before), before, after, update, counted, progressed)
  }

  /** A scanning parser has acted on `reading`. */
  ghost predicate Acted(before: Parser, reading: Reading, after: Parser,
                        update: ParseUpdate, counted: ParseUpdate, progressed: bool)
  {
    && before.Valid() && before.state.Scan? && reading.Valid() && reading.Length() <= |before.pending|
    && (reading.WrapBack? ==> before.sh1106.lastPage.Some?)
    && Follows(Act(before, reading), before, after, update, counted, progressed)
  }

  ghost function TokenOf(p: Parser): seq<Token>
    requires p.Valid()
  {
    if Step(p).Moved? then [Step(p).token] else []
  }

  /** The burst that began at `start` has consumed `seen`, without an event, and goes on from `p`. */
  ghost predicate Midway(start: Parser, seen: seq<Token>, p: Parser, update: ParseUpdate)
    requires start.Valid() && p.Valid()
  {
    && Burst(start) == Run(Burst(p).parser, seen + Burst(p).tokens)
    && update == Tally(NO_UPDATE, seen)
    && update.completedFrames == 0 && !update.partialFrameBoundary
  }

  lemma BurstBegins(start: Parser)
    requires start.Valid()
    ensures Midway(start, [], start, NO_UPDATE)
  {
    assert [] + Burst(start).tokens == Burst(start).tokens;
  }

  lemma BurstUnfolds(p: Parser)
    requires p.Valid()
    ensures Step(p).Stuck? ==> Burst(p) == Run(p, [])
    ensures Step(p).Moved? && Step(p).token.IsEvent() ==> Burst(p) == Run(Step(p).next, [Step(p).token])
    ensures Step(p).Moved? && !Step(p).token.IsEvent() ==>
              Burst(p) == Run(Burst(Step(p).next).parser, [Step(p).token] + Burst(Step(p).next).tokens)
  {
  }

  lemma BurstGoesOn(start: Parser, seen: seq<Token>, before: Parser, after: Parser,
                    update: ParseUpdate, counted: ParseUpdate, progressed: bool)
    requires start.Valid() && before.Valid() && Midway(start, seen, before, update)
    requires Stepped(before, after, update, counted, progressed)
    ensures after.Valid()
    ensures if counted.completedFrames > 0 || counted.partialFrameBoundary || !progressed then
              Burst(start).parser == after && counted == Tally(NO_UPDATE, Burst(start).tokens)
            else
              Midway(start, seen + TokenOf(before), after, counted) && after.Measure() < before.Measure()
  {
    hide Step, Burst, Tally;
    BurstUnfolds(before);
    if Step(before).Moved? {
      var token := Step(before).token;
      TallyOneMore(NO_UPDATE, seen, token);
      if !token.IsEvent() {
        assert seen + ([token] + Burst(after).tokens) == (seen + [token]) + Burst(after).tokens;
      }
    } else {
      assert seen + [] == seen;
    }
  }

  /** Byte `i` after the first `rows` rows of `data` have been copied into the rectangle `r`. */
  ghost function Copied(framebuffer: seq<byte>, r: Rect, data: seq<byte>, rows: nat, i: nat): byte
    requires |framebuffer| == FRAMEBUFFER_SIZE && r.Valid() && |data| == r.width * r.pages
    requires i < FRAMEBUFFER_SIZE
  {
    if r.Covers(i / WIDTH, i % WIDTH) && i / WIDTH < r.page + rows then
      DataIndexInRange(r, i / WIDTH, i % WIDTH);
      data[(i / WIDTH - r.page) * r.width + (i % WIDTH - r.x)]
    else
      framebuffer[i]
  }

  lemma RowIsStretch(row: nat, x: nat, width: nat, i: nat)
    requires x + width <= WIDTH
    ensures row * WIDTH + x <= i < row * WIDTH + x + width <==> i / WIDTH == row && x <= i % WIDTH < x + width
  {
    assert i == WIDTH * (i / WIDTH) + i % WIDTH;
  }

  /** The next row is a stretch of `width` bytes in the framebuffer and in the payload. */
  lemma CopiedOneRow(framebuffer: seq<byte>, r: Rect, data: seq<byte>, row: nat, i: nat)
    requires |framebuffer| == FRAMEBUFFER_SIZE && r.Valid() && |data| == r.width * r.pages
    requires i < FRAMEBUFFER_SIZE && row < r.pages
    ensures row * r.width + r.width <= r.width * r.pages
    ensures var target := (r.page + row) * WIDTH + r.x;
            Copied(framebuffer, r, data, row + 1, i)
            == if target <= i < target + r.width then data[row * r.width + (i - target)]
               else Copied(framebuffer, r, data, row, i)
  {
    MulNext(row, r.pages, r.width);
    RowIsStretch(r.page + row, r.x, r.width, i);
  }

  /** The first `rows` rows have been copied into `was`, and nothing else has changed. */
  ghost predicate HasRows(now: seq<byte>, was: seq<byte>, r: Rect, data: seq<byte>, rows: nat)
    requires |was| == FRAMEBUFFER_SIZE && r.Valid() && |data| == r.width * r.pages
  {
    |now| == |was| && forall i | 0 <= i < FRAMEBUFFER_SIZE :: now[i] == Copied(was, r, data, rows, i)
  }

  /** `now` is `before` with `source` put in from `target` on. */
  ghost predicate HasStretch(now: seq<byte>, before: seq<byte>, target: nat, source: seq<byte>) {
    && |now| == |before|
    && forall i | 0 <= i < |now| ::
         now[i] == if target <= i < target + |source| then source[i - target] else before[i]
  }

  lemma RowsBegin(was: seq<byte>, r: Rect, data: seq<byte>)
    requires |was| == FRAMEBUFFER_SIZE && r.Valid() && |data| == r.width * r.pages
    ensures HasRows(was, was, r, data, 0)
  {
  }

  /** Each row of the payload and of the framebuffer lies inside it. */
  lemma RowLies(r: Rect, row: nat)
    requires r.Valid() && row < r.pages
    ensures (r.page + row) * WIDTH + r.x + r.width <= FRAMEBUFFER_SIZE
    ensures row * r.width + r.width <= r.width * r.pages
  {
    MulNext(row, r.pages, r.width);
  }

  lemma RowAdded(now: seq<byte>, before: seq<byte>, was: seq<byte>, r: Rect, data: seq<byte>, row: nat)
    requires |was| == FRAMEBUFFER_SIZE && r.Valid() && |data| == r.width * r.pages
    requires row < r.pages && HasRows(before, was, r, data, row)
    requires row * r.width + r.width <= |data|
    requires HasStretch(now, before, (r.page + row) * WIDTH + r.x, data[row * r.width..row * r.width + r.width])
    ensures HasRows(now, was, r, data, row + 1)
  {
    hide Copied;
    forall i | 0 <= i < FRAMEBUFFER_SIZE ensures now[i] == Copied(was, r, data, row + 1, i) {
      CopiedOneRow(was, r, data, row, i);
      assert before[i] == Copied(was, r, data, row, i);
    }
  }

  lemma RowsEnd(now: seq<byte>, was: seq<byte>, r: Rect, data: seq<byte>)
    requires |was| == FRAMEBUFFER_SIZE && r.Valid() && |data| == r.width * r.pages
    requires HasRows(now, was, r, data, r.pages)
    ensures now == Blit(was, r, data)
  {
    forall i | 0 <= i < FRAMEBUFFER_SIZE ensures now[i] == Blit(was, r, data)[i] {
      assert now[i] == Copied(was, r, data, r.pages, i);
    }
  }

  class DisplayParser {
    const controller: Controller
    var pending: seq<byte>
    var state: ParseState
    const framebuffer: array<byte>
    var sh1106Pages: bv8
    var sh1106FrameStarted: bool
    var sh1106LastPageCommand: Option<nat>

    ghost function Model(): Parser
      reads this, framebuffer
    {
      Parser(controller, pending, state, framebuffer[..], Marks(sh1106Pages, sh1106FrameStarted, sh1106LastPageCommand))
    }

    ghost predicate Valid()
      reads this, framebuffer
    {
      Model().Valid()
    }

    constructor (controller: Controller)
      ensures Valid() && fresh(framebuffer)
      ensures Model() == Fresh(controller)
    {
      this.controller := controller;
      pending := [];
      state := Scan;
      framebuffer := new byte[FRAMEBUFFER_SIZE](_ => 0);
      sh1106Pages := 0;
      sh1106FrameStarted := false;
      sh1106LastPageCommand := None;
    }

    method Push(input: seq<byte>) returns (update: ParseUpdate)
      requires Valid()
      modifies this, framebuffer
      ensures Valid()
      ensures Model() == Burst(old(Model()).Feed(input)).parser
      ensures update == Tally(NO_UPDATE, Burst(old(Model()).Feed(input)).tokens)
    {
      hide Stepped, Midway;
      pending := pending + input;
      update := NO_UPDATE;
      ghost var start := Model();
      ghost var seen: seq<Token> := [];
      BurstBegins(start);
      while true
        invariant Valid() && start.Valid()
        invariant Midway(start, seen, Model(), update)
        decreases Model().Measure()
      {
        ghost var before, previous := Model(), update;
        var progressed;
        progressed, update := StepOnce(update);
        BurstGoesOn(start, seen, before, Model(), previous, update, progressed);
        seen := seen + TokenOf(before);
        if update.completedFrames > 0 || update.partialFrameBoundary {
          break;
        }
        if !progressed {
          break;
        }
      }
    }

    method StepOnce(update: ParseUpdate) returns (progressed: bool, counted: ParseUpdate)
      requires Valid()
      modifies this, framebuffer
      ensures Stepped(old(Model()), Model(), update, counted, progressed)
    {
      match state
      case Scan => progressed, counted := ScanStep(update);
      case Ssd1306Data(x, width, page, pages) => progressed, counted := ReadSsd1306Data(x, width, page, pages, update);
      case Sh1106PageData(page, x, width) => progressed, counted := ReadSh1106PageData(page, x, width, update);
    }

    method ConsumePattern(pattern: seq<byte>) returns (consumed: bool)
      modifies this`pending
      ensures consumed == (pattern <= old(pending))
      ensures pending == if consumed then old(pending)[|pattern|..] else old(pending)
    {
      consumed := pattern <= pending;
      if consumed {
        pending := pending[|pattern|..];
      }
    }

    method ScanStep(update: ParseUpdate) returns (progressed: bool, counted: ParseUpdate)
      requires Valid() && state.Scan?
      modifies this
      ensures Stepped(old(Model()), Model(), update, counted, progressed)
    {
      if controller.Ssd1306? {
        progressed, counted := ScanSsd1306(update);
      } else {
        progressed, counted := ScanSh1106(update);
      }
    }

    method ScanSsd1306(update: ParseUpdate) returns (progressed: bool, counted: ParseUpdate)
      requires Valid() && state.Scan? && controller.Ssd1306?
      modifies this
      ensures Acted(old(Model()), ReadScan(old(Model())), Model(), update, counted, progressed)
    {
      hide Acted, Ssd1306Window;
      var known := SkipPattern(SSD1306_INIT, update);
      if known {
        return true, update;
      }
      if SSD1306_WINDOW <= pending {
        if |pending| < 7 {
          progressed, counted := AwaitMore(update);
          return;
        }
        var decided := ScanWindow(update);
        if decided {
          return true, update;
        }
      }
      if pending <= SSD1306_INIT || pending <= SSD1306_WINDOW {
        progressed, counted := AwaitMore(update);
        return;
      }
      progressed, counted := DiscardByte(update);
    }

    /** The window set by an address command; undecided when it is not well formed. */
    method ScanWindow(ghost update: ParseUpdate) returns (decided: bool)
      requires Valid() && state.Scan? && |pending| >= 7
      modifies this
      ensures decided == Ssd1306Window(old(pending)).Some?
      ensures if decided then
                Acted(old(Model()), Window(Ssd1306Window(old(pending)).value), Model(), update, update, true)
              else
                Model() == old(Model())
    {
      var (x, endX, page, endPage) := (pending[2] as nat, pending[3] as nat, pending[5] as nat, pending[6] as nat);
      decided := pending[4] == 0x22 && x <= endX && endX < WIDTH && page <= endPage && endPage < PAGES;
      if decided {
        pending := pending[7..];
        state := Ssd1306Data(x, endX - x + 1, page, endPage - page + 1);
      }
    }

    method SkipPattern(pattern: seq<byte>, ghost update: ParseUpdate) returns (known: bool)
      requires Valid() && state.Scan? && pattern != []
      modifies this`pending
      ensures known == (pattern <= old(pending))
      ensures if known then Acted(old(Model()), Known(|pattern|), Model(), update, update, true) else Model() == old(Model())
    {
      known := ConsumePattern(pattern);
    }

    method AwaitMore(update: ParseUpdate) returns (progressed: bool, counted: ParseUpdate)
      requires Valid() && state.Scan?
      ensures Acted(Model(), NeedMore, Model(), update, counted, progressed)
    {
      return false, update;
    }

    method DiscardByte(update: ParseUpdate) returns (progressed: bool, counted: ParseUpdate)
      requires Valid() && state.Scan? && pending != []
      modifies this`pending
      ensures Acted(old(Model()), Junk, Model(), update, counted, progressed)
    {
      pending := pending[1..];
      return true, update.(discardedBytes := update.discardedBytes + 1);
    }

    method ScanSh1106(update: ParseUpdate) returns (progressed: bool, counted: ParseUpdate)
      requires Valid() && state.Scan? && controller.Sh1106?
      modifies this
      ensures Acted(old(Model()), ReadScan(old(Model())), Model(), update, counted, progressed)
    {
      hide Acted, ReadSh1106Page;
      assert SH1106_INIT[1] == 0xae && SH1106_DISPLAY_ON[1] == 0xaf;
      var known := SkipPattern(SH1106_INIT, update);
      if !known {
        known := SkipPattern(SH1106_DISPLAY_ON, update);
      }
      if known {
        return true, update;
      }
      if [0x00] <= pending {
        if |pending| < 2 {
          progressed, counted := AwaitMore(update);
          return;
        }
        var pageCommand := pending[1];
        if 0xb0 <= pageCommand <= 0xb7 {
          var decided;
          decided, progressed, counted := ScanPageCommand(pageCommand as nat % 8, update);
          if decided {
            return;
          }
        }
      }
      if pending <= SH1106_INIT || pending <= SH1106_DISPLAY_ON {
        progressed, counted := AwaitMore(update);
        return;
      }
      progressed, counted := DiscardByte(update);
    }

    /** The part of the scan below a page command; undecided when the command is not well formed. */
    method ScanPageCommand(page: nat, update: ParseUpdate) returns (decided: bool, progressed: bool, counted: ParseUpdate)
      requires Valid() && state.Scan? && controller.Sh1106?
      requires |pending| >= 2 && 0xb0 <= pending[1] <= 0xb7 && page == pending[1] as nat - 0xb0
      modifies this
      ensures var reading := ReadSh1106Page(old(pending), old(sh1106LastPageCommand));
              if decided then
                !reading.Junk? && Acted(old(Model()), reading, Model(), update, counted, progressed)
              else reading.Junk? && Model() == old(Model()) && counted == update && |pending| >= 5
    {
      hide Acted, DecodeColumn;
      counted := update;
      if |pending| >= 4 && DecodeColumn(pending[2], pending[3]).Some?
         && sh1106LastPageCommand.Some? && page < sh1106LastPageCommand.value {
        decided := true;
        progressed, counted := Wrap(update);
        return;
      }
      if |pending| < 5 {
        decided := true;
        progressed, counted := AwaitMore(update);
        return;
      }
      var endColumn := DecodeColumn(pending[2], pending[3]);
      var range := None;
      if pending[4] == 0x40 {
        if endColumn == Some(2) {
          range := Some((4, 0, WIDTH));
        }
      } else {
        if |pending| < 6 {
          decided := true;
          progressed, counted := AwaitMore(update);
          return;
        }
        var startColumn := DecodeColumn(pending[4], pending[5]);
        if endColumn.Some? && startColumn.Some? {
          var (end, start) := (endColumn.value, startColumn.value);
          if start >= 2 && start <= end && end < WIDTH + 2 {
            range := Some((6, start - 2, end - start + 1));
          }
        }
      }
      if range.None? {
        return false, false, counted;
      }
      var (commandSize, x, width) := range.value;
      BeginPage(commandSize, page, x, width, update);
      return true, true, counted;
    }

    /** A lower page than the last one: the frame ended without page 7, and the command is read again. */
    method Wrap(update: ParseUpdate) returns (progressed: bool, counted: ParseUpdate)
      requires Valid() && state.Scan? && sh1106LastPageCommand.Some?
      modifies this`sh1106Pages, this`sh1106FrameStarted, this`sh1106LastPageCommand
      ensures Acted(old(Model()), WrapBack, Model(), update, counted, progressed)
    {
      sh1106Pages := 0;
      sh1106FrameStarted := false;
      sh1106LastPageCommand := None;
      return false, update.(partialFrameBoundary := true);
    }

    method BeginPage(commandSize: nat, page: nat, x: nat, width: nat, ghost update: ParseUpdate)
      requires Valid() && state.Scan? && PageWrite(commandSize, page, x, width).Valid() && commandSize <= |pending|
      modifies this
      ensures Acted(old(Model()), PageWrite(commandSize, page, x, width), Model(), update, update, true)
    {
      pending := pending[commandSize..];
      if page == 0 {
        sh1106Pages := 0;
        sh1106FrameStarted := true;
      }
      sh1106LastPageCommand := Some(page);
      state := Sh1106PageData(page, x, width);
    }

    method ReadSsd1306Data(x: nat, width: nat, page: nat, pages: nat, update: ParseUpdate)
      returns (progressed: bool, counted: ParseUpdate)
      requires Valid() && state == Ssd1306Data(x, width, page, pages)
      modifies this, framebuffer
      ensures Stepped(old(Model()), Model(), update, counted, progressed)
    {
      hide Blit;
      var messageSize := width * pages + 1;
      if pending == [] {
        return false, update;
      }
      if pending[0] != 0x40 {
        state := Scan;
        return true, update;
      }
      if |pending| < messageSize {
        return false, update;
      }
      WriteRectangle(Rect(x, width, page, pages));
      counted := update.(displayUpdates := update.displayUpdates + 1);
      pending := pending[messageSize..];
      state := Scan;
      if x == 0 && width == WIDTH && page == 0 && pages == PAGES {
        counted := counted.(completedFrames := counted.completedFrames + 1);
      } else {
        counted := counted.(partialFrameBoundary := true);
      }
      progressed := true;
    }

    method ReadSh1106PageData(page: nat, x: nat, width: nat, update: ParseUpdate)
      returns (progressed: bool, counted: ParseUpdate)
      requires Valid() && state == Sh1106PageData(page, x, width)
      modifies this, framebuffer
      ensures Stepped(old(Model()), Model(), update, counted, progressed)
    {
      hide Blit, Finish;
      var messageSize := width + 1;
      if pending == [] {
        return false, update;
      }
      if pending[0] != 0x40 {
        state := Scan;
        return true, update;
      }
      if |pending| < messageSize {
        return false, update;
      }
      progressed, counted := WritePage(page, x, width, update);
    }

    method WritePage(page: nat, x: nat, width: nat, update: ParseUpdate) returns (progressed: bool, counted: ParseUpdate)
      requires Valid() && state == Sh1106PageData(page, x, width) && |pending| > width && pending[0] == 0x40
      modifies this, framebuffer
      ensures Stepped(old(Model()), Model(), update, counted, progressed)
    {
      hide Blit, Finish;
      WriteRectangle(Rect(x, width, page, 1));
      counted := update.(displayUpdates := update.displayUpdates + 1);
      pending := pending[width + 1..];
      state := Scan;
      counted := FinishPage(page, x, width, counted);
      progressed := true;
    }

    /** Marks the page that was written; page 7 ends the frame. */
    method FinishPage(page: nat, x: nat, width: nat, update: ParseUpdate) returns (counted: ParseUpdate)
      requires Rect(x, width, page, 1).Valid()
      modifies this`sh1106Pages, this`sh1106FrameStarted, this`sh1106LastPageCommand
      ensures var (marks, event) := Finish(Sh1106PageData(page, x, width), old(Model().sh1106), Rect(x, width, page, 1));
              && Model().sh1106 == marks
              && counted == update.(
                 completedFrames := update.completedFrames + (if event == CompletedFrame then 1 else 0),
                 partialFrameBoundary := update.partialFrameBoundary || event == PartialBoundary)
    {
      hide PageBit;
      counted := update;
      if x == 0 && width == WIDTH {
        sh1106Pages := sh1106Pages | PageBit(page);
      }
      if page == 7 {
        if sh1106FrameStarted && sh1106Pages == 0xff {
          counted := counted.(completedFrames := counted.completedFrames + 1);
        } else {
          counted := counted.(partialFrameBoundary := true);
        }
        sh1106FrameStarted := false;
        sh1106Pages := 0;
        sh1106LastPageCommand := None;
      }
    }

    /** Copies the pending payload into the framebuffer, one row after the other. */
    method WriteRectangle(r: Rect)
      requires framebuffer.Length == FRAMEBUFFER_SIZE && r.Valid() && |pending| > r.width * r.pages
      modifies framebuffer
      ensures framebuffer[..] == Blit(old(framebuffer[..]), r, pending[1..r.width * r.pages + 1])
    {
      hide HasRows, HasStretch, Blit;
      ghost var data, was := pending[1..r.width * r.pages + 1], framebuffer[..];
      RowsBegin(was, r, data);
      for offset := 0 to r.pages
        invariant HasRows(framebuffer[..], was, r, data, offset)
      {
        RowLies(r, offset);
        ghost var before := framebuffer[..];
        var start := offset * r.width;
        Subslice(pending, 1, 1 + r.width * r.pages, start, start + r.width);
        CopyBytes((r.page + offset) * WIDTH + r.x, 1 + start, r.width);
        RowAdded(framebuffer[..], before, was, r, data, offset);
      }
      RowsEnd(framebuffer[..], was, r, data);
    }

    /** Copies `width` pending bytes, from `source` on, to the framebuffer from `target` on. */
    method CopyBytes(target: nat, source: nat, width: nat)
      requires target + width <= framebuffer.Length && source + width <= |pending|
      modifies framebuffer
      ensures HasStretch(framebuffer[..], old(framebuffer[..]), target, pending[source..source + width])
    {
      forall k | 0 <= k < width {
        framebuffer[target + k] := pending[source + k];
      }
    }
  }
}
