/** The SSD1306/SH1106 stream parser as one step function on values. */
module DisplaySpec {
  // src/display_protocol.rs on values: one step either consumes a token of the stream or reports that it needs more.

  import opened Bytes

  const WIDTH: nat := 128
  const PAGES: nat := 8
  const FRAMEBUFFER_SIZE: nat := 1024

  const SSD1306_INIT: seq<byte> := [
    0x00, 0xae, 0xd5, 0x80, 0xa8, 0x3f, 0xd3, 0x00, 0x40, 0x8d, 0x14, 0x20, 0x00, 0xa1, 0xc8, 0xda,
    0x12, 0x81, 0xcf, 0xd9, 0xf1, 0xdb, 0x40, 0xa4, 0xa6, 0xaf
  ]
  const SSD1306_WINDOW: seq<byte> := [0x00, 0x21]
  const SH1106_INIT: seq<byte> := [
    0x00, 0xae, 0x02, 0x10, 0x40, 0x81, 0xa0, 0xa1, 0xc8, 0xa6, 0xa8, 0x3f, 0xd3, 0x00, 0xd5, 0x80,
    0xd9, 0xf1, 0xda, 0x12, 0xdb, 0x40, 0x20, 0x02, 0xa4, 0xa6
  ]
  const SH1106_DISPLAY_ON: seq<byte> := [0x00, 0xaf]

  datatype Controller = Ssd1306 | Sh1106

  datatype ParseState =
    | Scan
    | Ssd1306Data(x: nat, width: nat, page: nat, pages: nat)
    | Sh1106PageData(page: nat, x: nat, width: nat)

  /** A rectangle of display RAM: `width` columns from `x` in each of `pages` pages from `page`. */
  datatype Rect = Rect(x: nat, width: nat, page: nat, pages: nat) {
    predicate Valid() {
      1 <= width && x + width <= WIDTH && 1 <= pages && page + pages <= PAGES
    }

    predicate Covers(row: nat, column: nat) {
      page <= row < page + pages && x <= column < x + width
    }

    predicate WholeFrame() {
      this == Rect(0, WIDTH, 0, PAGES)
    }
  }

  datatype Event = NoEvent | CompletedFrame | PartialBoundary

  /** What one parser step took from the stream; `Abandon` and `Wrap` take no bytes. */
  datatype Token =
    | Pattern(bytes: seq<byte>)
    | Address(bytes: seq<byte>)
    | Abandon
    | Payload(rect: Rect, data: seq<byte>, event: Event)
    | Discard(b: byte)
    | Wrap
  {
    function Bytes(): seq<byte> {
      match this
      case Pattern(bytes) => bytes
      case Address(bytes) => bytes
      case Abandon => []
      case Payload(_, data, _) => [0x40] + data
      case Discard(b) => [b]
      case Wrap => []
    }

    function EventOf(): Event {
      match this
      case Payload(_, _, event) => event
      case Wrap => PartialBoundary
      case _ => NoEvent
    }

    predicate IsEvent() {
      EventOf() != NoEvent
    }

    predicate Valid() {
      Payload? ==> rect.Valid() && |data| == rect.width * rect.pages
    }
  }

  /** SH1106 frame bookkeeping: pages rewritten so far, page 0 seen, page of the last page command. */
  datatype Marks = Marks(pages: bv8, frameStarted: bool, lastPage: Option<nat>)

  const NO_MARKS := Marks(0, false, None)

  datatype Parser = Parser(
    controller: Controller,
    pending: seq<byte>,
    state: ParseState,
    framebuffer: seq<byte>,
    sh1106: Marks)
  {
    predicate Valid() {
      |framebuffer| == FRAMEBUFFER_SIZE && (!state.Scan? ==> Target().Valid())
    }

    /** The rectangle that the parser is waiting to fill. */
    function Target(): Rect
      requires !state.Scan?
    {
      match state
      case Ssd1306Data(x, width, page, pages) => Rect(x, width, page, pages)
      case Sh1106PageData(page, x, width) => Rect(x, width, page, 1)
    }

    /** Decreases with every step, including the two steps that consume no bytes. */
    function Measure(): nat {
      4 * |pending| + (if state.Scan? then 0 else 2) + (if sh1106.lastPage.Some? then 1 else 0)
    }

    function Feed(input: seq<byte>): Parser {
      this.(pending := pending + input)
    }

    /** Drops `n` bytes that have been understood. */
    function Take(n: nat): Parser
      requires n <= |pending|
    {
      this.(pending := pending[n..])
    }
  }

  function Fresh(controller: Controller): (p: Parser)
    ensures p.Valid()
  {
    Parser(controller, [], Scan, seq(FRAMEBUFFER_SIZE, i => 0), NO_MARKS)
  }

  /** The framebuffer after writing `data`, row by row, into the rectangle `r`. */
  function Blit(framebuffer: seq<byte>, r: Rect, data: seq<byte>): (result: seq<byte>)
    requires |framebuffer| == FRAMEBUFFER_SIZE && r.Valid() && |data| == r.width * r.pages
    ensures |result| == FRAMEBUFFER_SIZE
  {
    seq(FRAMEBUFFER_SIZE, i requires 0 <= i < FRAMEBUFFER_SIZE =>
      if r.Covers(i / WIDTH, i % WIDTH) then
        DataIndexInRange(r, i / WIDTH, i % WIDTH);
        data[(i / WIDTH - r.page) * r.width + (i % WIDTH - r.x)]
      else
        framebuffer[i])
  }

  lemma DataIndexInRange(r: Rect, row: nat, column: nat)
    requires r.Valid() && r.Covers(row, column)
    ensures 0 <= (row - r.page) * r.width + (column - r.x) < r.width * r.pages
  {
    MulNext(row - r.page, r.pages, r.width);
  }

  function DecodeColumn(low: byte, high: byte): Option<nat> {
    if low <= 0x0f && 0x10 <= high <= 0x1f then Some((high as nat - 0x10) * 16 + low as nat) else None
  }

  /** `1 << page` */
  function PageBit(page: nat): bv8
    requires page < PAGES
  {
    match page
    case 0 => 0x01
    case 1 => 0x02
    case 2 => 0x04
    case 3 => 0x08
    case 4 => 0x10
    case 5 => 0x20
    case 6 => 0x40
    case _ => 0x80
  }

  /** What the pending bytes mean to a scanning parser. */
  datatype Reading =
    | NeedMore
    | Known(length: nat)
    | Window(rect: Rect)
    | PageWrite(length: nat, page: nat, x: nat, width: nat)
    | WrapBack
    | Junk
  {
    function Length(): nat {
      match this
      case NeedMore => 0
      case Known(length) => length
      case Window(_) => 7
      case PageWrite(length, _, _, _) => length
      case WrapBack => 0
      case Junk => 1
    }

    predicate Valid() {
      && (Known? ==> length > 0)
      && (Window? ==> rect.Valid())
      && (PageWrite? ==> length > 0 && Rect(x, width, page, 1).Valid())
    }
  }

  function ReadScan(p: Parser): (reading: Reading)
    ensures reading.Valid() && reading.Length() <= |p.pending|
    ensures reading.WrapBack? ==> p.sh1106.lastPage.Some?
  {
    if p.controller.Ssd1306? then ReadSsd1306(p.pending) else ReadSh1106(p.pending, p.sh1106.lastPage)
  }

  function ReadSsd1306(s: seq<byte>): (reading: Reading)
    ensures reading.Valid() && reading.Length() <= |s| && !reading.WrapBack?
  {
    if SSD1306_INIT <= s then
      Known(|SSD1306_INIT|)
    else if SSD1306_WINDOW <= s && |s| < 7 then
      NeedMore
    else if SSD1306_WINDOW <= s && Ssd1306Window(s).Some? then
      Window(Ssd1306Window(s).value)
    else if s <= SSD1306_INIT || s <= SSD1306_WINDOW then
      NeedMore
    else
      Junk
  }

  /** The rectangle set by a column address command followed by a page address command. */
  function Ssd1306Window(s: seq<byte>): (r: Option<Rect>)
    requires |s| >= 7
    ensures r.Some? ==> r.value.Valid()
  {
    var (x, endX, page, endPage) := (s[2] as nat, s[3] as nat, s[5] as nat, s[6] as nat);
    if s[4] == 0x22 && x <= endX < WIDTH && page <= endPage < PAGES then
      Some(Rect(x, endX - x + 1, page, endPage - page + 1))
    else
      None
  }

  function ReadSh1106(s: seq<byte>, lastPage: Option<nat>): (reading: Reading)
    ensures reading.Valid() && reading.Length() <= |s|
    ensures reading.WrapBack? ==> lastPage.Some?
  {
    if SH1106_INIT <= s then
      Known(|SH1106_INIT|)
    else if SH1106_DISPLAY_ON <= s then
      Known(|SH1106_DISPLAY_ON|)
    else if [0x00] <= s && |s| < 2 then
      NeedMore
    else if [0x00] <= s && 0xb0 <= s[1] <= 0xb7 then
      ReadSh1106Page(s, lastPage)
    else if s <= SH1106_INIT || s <= SH1106_DISPLAY_ON then
      NeedMore
    else
      Junk
  }

  /** A page command; it begins neither the init sequence nor display-on, so what is invalid is junk. */
  function ReadSh1106Page(s: seq<byte>, lastPage: Option<nat>): (reading: Reading)
    requires |s| >= 2 && 0xb0 <= s[1] <= 0xb7
    ensures reading.Valid() && reading.Length() <= |s|
    ensures reading.WrapBack? ==> lastPage.Some?
  {
    var page := s[1] as nat - 0xb0;
    if |s| >= 4 && DecodeColumn(s[2], s[3]).Some? && lastPage.Some? && page < lastPage.value then
      WrapBack
    else if |s| < 5 || (s[4] != 0x40 && |s| < 6) then
      NeedMore
    else
      match Sh1106Range(s)
      case None => Junk
      case Some((length, x, width)) => PageWrite(length, page, x, width)
  }

  /** Command length, first column and width; a legacy write (0x40 next) is a complete visible page. */
  function Sh1106Range(s: seq<byte>): (r: Option<(nat, nat, nat)>)
    requires |s| >= 5 && (s[4] != 0x40 ==> |s| >= 6)
    ensures r.Some? ==> 4 <= r.value.0 <= |s| && 1 <= r.value.2 && r.value.1 + r.value.2 <= WIDTH
  {
    var end := DecodeColumn(s[2], s[3]);
    if s[4] == 0x40 then
      if end == Some(2) then Some((4, 0, WIDTH)) else None
    else
      var start := DecodeColumn(s[4], s[5]);
      if end.Some? && start.Some? && 2 <= start.value <= end.value < WIDTH + 2 then
        Some((6, start.value - 2, end.value - start.value + 1))
      else
        None
  }

  datatype Outcome = Stuck | Moved(next: Parser, token: Token)

  function Step(p: Parser): (o: Outcome)
    requires p.Valid()
    ensures o.Moved? ==> o.next.Valid() && o.token.Valid() && o.next.Measure() < p.Measure()
  {
    if p.state.Scan? then Act(p, ReadScan(p)) else ReadData(p)
  }

  function Act(p: Parser, reading: Reading): (o: Outcome)
    requires p.Valid() && p.state.Scan?
    requires reading.Valid() && reading.Length() <= |p.pending|
    requires reading.WrapBack? ==> p.sh1106.lastPage.Some?
    ensures o.Moved? ==> o.next.Valid() && o.token.Valid() && o.next.Measure() < p.Measure()
  {
    var rest := p.Take(reading.Length());
    var bytes := p.pending[..reading.Length()];
    match reading
    case NeedMore => Stuck
    case Known(_) => Moved(rest, Pattern(bytes))
    case Window(r) => Moved(rest.(state := Ssd1306Data(r.x, r.width, r.page, r.pages)), Address(bytes))
    case PageWrite(_, page, x, width) =>
      Moved(rest.(state := Sh1106PageData(page, x, width), sh1106 := EnterPage(p.sh1106, page)), Address(bytes))
    case WrapBack => Moved(p.(sh1106 := NO_MARKS), Wrap)
    case Junk => Moved(rest, Discard(p.pending[0]))
  }

  function EnterPage(marks: Marks, page: nat): Marks {
    if page == 0 then Marks(0, true, Some(page)) else marks.(lastPage := Some(page))
  }

  function ReadData(p: Parser): (o: Outcome)
    requires p.Valid() && !p.state.Scan?
    ensures o.Moved? ==> o.next.Valid() && o.token.Valid() && o.next.Measure() < p.Measure()
  {
    var r := p.Target();
    var size := r.width * r.pages + 1;
    if p.pending == [] then
      Stuck
    else if p.pending[0] != 0x40 then
      Moved(p.(state := Scan), Abandon)
    else if |p.pending| < size then
      Stuck
    else
      var data := p.pending[1..size];
      var (marks, event) := Finish(p.state, p.sh1106, r);
      Moved(p.Take(size).(state := Scan, framebuffer := Blit(p.framebuffer, r, data), sh1106 := marks),
            Payload(r, data, event))
  }

  /** Bookkeeping and frame event after the payload of `r` has been written. */
  function Finish(state: ParseState, marks: Marks, r: Rect): (result: (Marks, Event))
    requires r.Valid()
    ensures result.0.lastPage.Some? ==> marks.lastPage.Some?
  {
    if state.Ssd1306Data? then
      (marks, if r.WholeFrame() then CompletedFrame else PartialBoundary)
    else
      var pages := if r.x == 0 && r.width == WIDTH then marks.pages | PageBit(r.page) else marks.pages;
      if r.page == 7 then
        (NO_MARKS, if marks.frameStarted && pages == 0xff then CompletedFrame else PartialBoundary)
      else
        (marks.(pages := pages), NoEvent)
  }

  /** A parser and the tokens it has consumed to get there. */
  datatype Run = Run(parser: Parser, tokens: seq<Token>)

  /** Steps until more input is needed. */
  function Drain(p: Parser): (r: Run)
    requires p.Valid()
    ensures r.parser.Valid() && Step(r.parser).Stuck?
    decreases p.Measure()
  {
    match Step(p)
    case Stuck => Run(p, [])
    case Moved(next, token) => var rest := Drain(next); Run(rest.parser, [token] + rest.tokens)
  }

  /** Steps until more input is needed or a frame event has been reported: one `push` of the parser. */
  function Burst(p: Parser): (r: Run)
    requires p.Valid()
    ensures r.parser.Valid()
    decreases p.Measure()
  {
    match Step(p)
    case Stuck => Run(p, [])
    case Moved(next, token) =>
      if token.IsEvent() then Run(next, [token])
      else var rest := Burst(next); Run(rest.parser, [token] + rest.tokens)
  }
}
