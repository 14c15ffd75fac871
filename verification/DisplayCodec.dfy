/** Encoding and its round trip. */
module DisplayCodec {
  // Whatever is interleaved, exactly the encoded updates come out, in order, and exactly the noise is discarded.

  import opened Bytes
  import opened DisplaySpec
  import opened DisplayFragments
  import opened DisplayFrames
  import opened DisplayGrammar

  datatype Message =
    | Init
    | DisplayOn
    | Update(rect: Rect, data: seq<byte>)
    | LegacyPage(page: nat, data: seq<byte>)
    | Noise(bytes: seq<byte>)

  datatype Write = Write(rect: Rect, data: seq<byte>)

  /** A message a controller of this kind may send; noise is any bytes. */
  ghost predicate Sendable(controller: Controller, m: Message) {
    match m
    case Init => true
    case DisplayOn => controller.Sh1106?
    case Update(r, data) => r.Valid() && |data| == r.width * r.pages && (controller.Sh1106? ==> r.pages == 1)
    case LegacyPage(page, data) => controller.Sh1106? && page < PAGES && |data| == WIDTH
    case Noise(bytes) => true
  }

  /** Native SH1106 columns start at 2; the high nibble travels in a second command. */
  function ColumnAddress(x: nat): (bytes: seq<byte>)
    requires x < WIDTH
    ensures |bytes| == 2 && DecodeColumn(bytes[0], bytes[1]) == Some(x + 2)
  {
    [((x + 2) % 16) as byte, (0x10 + (x + 2) / 16) as byte]
  }

  function Command(controller: Controller, r: Rect): (bytes: seq<byte>)
    requires r.Valid()
    ensures |bytes| == if controller.Ssd1306? then 7 else 6
  {
    if controller.Ssd1306? then
      [0x00, 0x21, r.x as byte, (r.x + r.width - 1) as byte, 0x22, r.page as byte, (r.page + r.pages - 1) as byte]
    else
      [0x00, (0xb0 + r.page) as byte] + ColumnAddress(r.x + r.width - 1) + ColumnAddress(r.x)
  }

  ghost function Encode(controller: Controller, m: Message): seq<byte>
    requires Sendable(controller, m)
  {
    match m
    case Init => if controller.Ssd1306? then SSD1306_INIT else SH1106_INIT
    case DisplayOn => SH1106_DISPLAY_ON
    case Update(r, data) => Command(controller, r) + ([0x40] + data)
    case LegacyPage(page, data) => [0x00, (0xb0 + page) as byte, 0x02, 0x10] + ([0x40] + data)
    case Noise(bytes) => bytes
  }

  function Declared(m: Message): seq<Write> {
    match m
    case Update(r, data) => [Write(r, data)]
    case LegacyPage(page, data) => [Write(Rect(0, WIDTH, page, 1), data)]
    case _ => []
  }

  function NoiseIn(m: Message): nat {
    if m.Noise? then |m.bytes| else 0
  }

  /** Noise may be anything in which, with what follows it, no command begins: malformed commands, for example. */
  ghost predicate AllSendable(controller: Controller, ms: seq<Message>)
    decreases |ms|, 0
  {
    ms != [] ==>
      && AllSendable(controller, ms[1..]) && Sendable(controller, ms[0])
      && (ms[0].Noise? ==> NoiseBefore(controller, ms[0].bytes, EncodeAll(controller, ms[1..])))
  }

  ghost function EncodeAll(controller: Controller, ms: seq<Message>): seq<byte>
    requires AllSendable(controller, ms)
    decreases |ms|, 1
  {
    if ms == [] then [] else Encode(controller, ms[0]) + EncodeAll(controller, ms[1..])
  }

  function DeclaredAll(ms: seq<Message>): seq<Write> {
    if ms == [] then [] else Declared(ms[0]) + DeclaredAll(ms[1..])
  }

  function NoiseInAll(ms: seq<Message>): nat {
    if ms == [] then 0 else NoiseIn(ms[0]) + NoiseInAll(ms[1..])
  }

  /** The rectangle writes among the tokens, in order. */
  function Writes(tokens: seq<Token>): seq<Write> {
    if tokens == [] then
      []
    else
      (if tokens[0].Payload? then [Write(tokens[0].rect, tokens[0].data)] else []) + Writes(tokens[1..])
  }

  function Discarded(tokens: seq<Token>): nat {
    if tokens == [] then 0 else (if tokens[0].Discard? then 1 else 0) + Discarded(tokens[1..])
  }

  /** From `p` the parser gets to `q`, making exactly these writes and discarding `noise` bytes on the way. */
  ghost predicate Decodes(p: Parser, q: Parser, writes: seq<Write>, noise: nat)
    requires p.Valid() && q.Valid()
  {
    && Drain(p).parser == Drain(q).parser
    && Writes(Drain(p).tokens) == writes + Writes(Drain(q).tokens)
    && Discarded(Drain(p).tokens) == noise + Discarded(Drain(q).tokens)
  }

  lemma OneStep(p: Parser)
    requires p.Valid() && Step(p).Moved?
    ensures var (q, token) := (Step(p).next, Step(p).token);
            Decodes(p, q, Writes([token]), if token.Discard? then 1 else 0)
  {
    hide Step;
    var token, rest := Step(p).token, Drain(Step(p).next).tokens;
    assert Drain(p).tokens == [token] + rest;
    assert ([token] + rest)[1..] == rest && [token][1..] == [];
  }

  ghost predicate Scanning(p: Parser, controller: Controller, pending: seq<byte>) {
    p.Valid() && p.state.Scan? && p.controller == controller && p.pending == pending
  }

  lemma {:induction false} DecodeNoise(p: Parser, noise: seq<byte>, rest: seq<byte>) returns (q: Parser)
    requires Scanning(p, p.controller, noise + rest) && NoiseBefore(p.controller, noise, rest)
    ensures Scanning(q, p.controller, rest) && Decodes(p, q, [], |noise|)
    decreases p.Measure()
  {
    if noise == [] {
      q := p;
      assert noise + rest == rest;
    } else {
      hide Step, BeginsNothing, NoiseBefore, Decodes;
      FirstIsNoise(p.controller, noise, rest);
      DiscardOrWrap(p);
      var next := Step(p).next;
      if Step(p).token.Wrap? {
        q := DecodeNoise(next, noise, rest);
      } else {
        assert p.pending[1..] == noise[1..] + rest;
        ShorterNoise(p.controller, noise, rest);
        q := DecodeNoise(next, noise[1..], rest);
      }
      NoiseChains(p, q, if Step(p).token.Wrap? then |noise| else |noise| - 1);
    }
  }

  lemma NoiseChains(p: Parser, q: Parser, noise: nat)
    requires p.Valid() && Step(p).Moved? && (Step(p).token.Wrap? || Step(p).token.Discard?)
    requires Step(p).next.Valid() && q.Valid() && Decodes(Step(p).next, q, [], noise)
    ensures Decodes(p, q, [], noise + if Step(p).token.Wrap? then 0 else 1)
  {
    hide Step, Decodes;
    OneStep(p);
    assert [Step(p).token][1..] == [] && Writes([Step(p).token]) == [];
    DecodesChain(p, Step(p).next, q, [], if Step(p).token.Wrap? then 0 else 1, [], noise);
  }

  lemma FirstIsNoise(c: Controller, noise: seq<byte>, rest: seq<byte>)
    requires NoiseBefore(c, noise, rest) && noise != []
    ensures BeginsNothing(c, noise + rest)
  {
    hide BeginsNothing;
    assert BeginsNothing(c, noise[0..] + rest) && noise[0..] == noise;
  }

  lemma ShorterNoise(c: Controller, noise: seq<byte>, rest: seq<byte>)
    requires NoiseBefore(c, noise, rest) && noise != []
    ensures NoiseBefore(c, noise[1..], rest)
  {
    hide BeginsNothing;
    forall i | 0 <= i < |noise| - 1 ensures BeginsNothing(c, noise[1..][i..] + rest) {
      assert BeginsNothing(c, noise[i + 1..] + rest) && noise[1..][i..] == noise[i + 1..];
    }
  }

  /** At a byte that begins no command, one byte is discarded, perhaps after a frame boundary has been reported. */
  lemma DiscardOrWrap(p: Parser)
    requires p.Valid() && p.state.Scan? && BeginsNothing(p.controller, p.pending) && p.pending != []
    ensures Step(p) == Moved(p.(sh1106 := Marks(0, false, None)), Wrap)
         || Step(p) == Moved(p.(pending := p.pending[1..]), Discard(p.pending[0]))
  {
    ScanIsExact(p);
    hide Step, CommandAt, Undecided, WrapsAt;
  }

  lemma DecodesChain(p: Parser, q: Parser, r: Parser, first: seq<Write>, noise: nat, second: seq<Write>, more: nat)
    requires p.Valid() && q.Valid() && r.Valid() && Decodes(p, q, first, noise) && Decodes(q, r, second, more)
    ensures Decodes(p, r, first + second, noise + more)
  {
    hide Drain;
  }

  lemma DecodePattern(p: Parser, pattern: seq<byte>, rest: seq<byte>) returns (q: Parser)
    requires Scanning(p, p.controller, pattern + rest)
    requires if p.controller.Ssd1306? then pattern == SSD1306_INIT else pattern == SH1106_INIT || pattern == SH1106_DISPLAY_ON
    ensures Scanning(q, p.controller, rest) && Decodes(p, q, [], 0)
  {
    assert pattern <= p.pending;
    assert p.pending[1] == pattern[1];
    assert ReadScan(p) == Known(|pattern|);
    OneStep(p);
    assert p.pending[|pattern|..] == rest;
    q := Step(p).next;
  }

  lemma DecodePayload(p: Parser, data: seq<byte>, rest: seq<byte>) returns (q: Parser)
    requires p.Valid() && !p.state.Scan? && p.pending == [0x40] + data + rest
    requires |data| == p.Target().width * p.Target().pages
    ensures Scanning(q, p.controller, rest) && Decodes(p, q, [Write(p.Target(), data)], 0)
  {
    hide Blit, Finish;
    assert p.pending[1..|data| + 1] == data;
    assert p.pending[|data| + 1..] == rest;
    OneStep(p);
    q := Step(p).next;
    assert Writes([Step(p).token]) == [Write(p.Target(), data)];
  }

  lemma WindowCommandReads(p: Parser, r: Rect)
    requires r.Valid() && p.controller.Ssd1306? && Command(Ssd1306, r) <= p.pending
    ensures ReadScan(p) == Window(r)
  {
    var command := Command(Ssd1306, r);
    assert forall i | 0 <= i < 7 :: p.pending[i] == command[i];
    assert SSD1306_INIT[1] == 0xae;
  }

  lemma DecodeSsd1306Update(p: Parser, r: Rect, data: seq<byte>, rest: seq<byte>) returns (q: Parser)
    requires r.Valid() && |data| == r.width * r.pages
    requires Scanning(p, Ssd1306, Command(Ssd1306, r) + ([0x40] + data) + rest)
    ensures Scanning(q, Ssd1306, rest) && Decodes(p, q, [Write(r, data)], 0)
  {
    var command := Command(Ssd1306, r);
    hide ReadScan, Decodes;
    assert p.pending[..7] == command;
    assert p.pending[7..] == [0x40] + data + rest;
    WindowCommandReads(p, r);
    OneStep(p);
    q := DecodePayload(Step(p).next, data, rest);
  }

  /** `s` starts with a page command, which is read after the frame boundary it may first report. */
  ghost predicate ReadsAsPageWrite(s: seq<byte>, length: nat, page: nat, x: nat, width: nat) {
    forall last :: ReadSh1106(s, last) ==
                   if last.Some? && page < last.value then WrapBack else PageWrite(length, page, x, width)
  }

  lemma RangeCommandReads(page: nat, x: nat, width: nat, rest: seq<byte>)
    requires Rect(x, width, page, 1).Valid()
    ensures ReadsAsPageWrite(Command(Sh1106, Rect(x, width, page, 1)) + rest, 6, page, x, width)
  {
    var s := Command(Sh1106, Rect(x, width, page, 1)) + rest;
    var (end, start) := (ColumnAddress(x + width - 1), ColumnAddress(x));
    assert s[0] == 0x00 && s[1] == (0xb0 + page) as byte;
    assert s[2] == end[0] && s[3] == end[1] && s[4] == start[0] && s[5] == start[1];
    assert start[0] != 0x40;
    assert SH1106_INIT[1] == 0xae && SH1106_DISPLAY_ON[1] == 0xaf;
    hide ColumnAddress;
  }

  lemma LegacyCommandReads(page: nat, rest: seq<byte>)
    requires page < PAGES && rest != [] && rest[0] == 0x40
    ensures ReadsAsPageWrite([0x00, (0xb0 + page) as byte, 0x02, 0x10] + rest, 4, page, 0, WIDTH)
  {
    var s := [0x00, (0xb0 + page) as byte, 0x02, 0x10] + rest;
    assert s[1] == (0xb0 + page) as byte && s[4] == 0x40;
    assert SH1106_INIT[1] == 0xae && SH1106_DISPLAY_ON[1] == 0xaf;
  }

  lemma DecodeAfterCommand(p: Parser, command: seq<byte>, r: Rect, data: seq<byte>, rest: seq<byte>) returns (q: Parser)
    requires r.Valid() && r.pages == 1 && |data| == r.width
    requires Scanning(p, Sh1106, command + ([0x40] + data) + rest)
    requires ReadScan(p) == PageWrite(|command|, r.page, r.x, r.width)
    ensures Scanning(q, Sh1106, rest) && Decodes(p, q, [Write(r, data)], 0)
  {
    hide ReadSh1106, Drain, Blit, Finish;
    OneStep(p);
    assert p.pending[|command|..] == [0x40] + data + rest;
    q := DecodePayload(Step(p).next, data, rest);
  }

  lemma DecodePageWrite(p: Parser, command: seq<byte>, r: Rect, data: seq<byte>, rest: seq<byte>) returns (q: Parser)
    requires r.Valid() && r.pages == 1 && |data| == r.width
    requires Scanning(p, Sh1106, command + ([0x40] + data) + rest)
    requires ReadsAsPageWrite(p.pending, |command|, r.page, r.x, r.width)
    ensures Scanning(q, Sh1106, rest) && Decodes(p, q, [Write(r, data)], 0)
  {
    if ReadScan(p).WrapBack? {
      OneStep(p);
      hide ReadSh1106;
      q := DecodeAfterCommand(Step(p).next, command, r, data, rest);
    } else {
      q := DecodeAfterCommand(p, command, r, data, rest);
    }
  }

  lemma DecodeSh1106Update(p: Parser, r: Rect, data: seq<byte>, rest: seq<byte>) returns (q: Parser)
    requires r.Valid() && r.pages == 1 && |data| == r.width
    requires Scanning(p, Sh1106, Command(Sh1106, r) + ([0x40] + data) + rest)
    ensures Scanning(q, Sh1106, rest) && Decodes(p, q, [Write(r, data)], 0)
  {
    hide ReadsAsPageWrite, Command, Decodes;
    RangeCommandReads(r.page, r.x, r.width, [0x40] + data + rest);
    assert p.pending == Command(Sh1106, r) + ([0x40] + data + rest);
    assert |Command(Sh1106, r)| == 6;
    q := DecodePageWrite(p, Command(Sh1106, r), r, data, rest);
  }

  lemma DecodeLegacyPage(p: Parser, page: nat, data: seq<byte>, rest: seq<byte>) returns (q: Parser)
    requires page < PAGES && |data| == WIDTH
    requires Scanning(p, Sh1106, [0x00, (0xb0 + page) as byte, 0x02, 0x10] + ([0x40] + data) + rest)
    ensures Scanning(q, Sh1106, rest) && Decodes(p, q, [Write(Rect(0, WIDTH, page, 1), data)], 0)
  {
    var command := [0x00, (0xb0 + page) as byte, 0x02, 0x10];
    assert p.pending == command + ([0x40] + data + rest);
    LegacyCommandReads(page, [0x40] + data + rest);
    hide ReadsAsPageWrite;
    q := DecodePageWrite(p, command, Rect(0, WIDTH, page, 1), data, rest);
  }

  lemma DecodeMessage(p: Parser, m: Message, rest: seq<byte>) returns (q: Parser)
    requires Sendable(p.controller, m) && (m.Noise? ==> NoiseBefore(p.controller, m.bytes, rest))
    requires Scanning(p, p.controller, Encode(p.controller, m) + rest)
    ensures Scanning(q, p.controller, rest) && Decodes(p, q, Declared(m), NoiseIn(m))
  {
    hide Command, Decodes;
    match m
    case Init => q := DecodePattern(p, Encode(p.controller, m), rest);
    case DisplayOn => q := DecodePattern(p, SH1106_DISPLAY_ON, rest);
    case Noise(bytes) => q := DecodeNoise(p, bytes, rest);
    case LegacyPage(page, data) => q := DecodeLegacyPage(p, page, data, rest);
    case Update(r, data) =>
      if p.controller.Ssd1306? {
        q := DecodeSsd1306Update(p, r, data, rest);
      } else {
        q := DecodeSh1106Update(p, r, data, rest);
      }
  }

  /** Decoding inverts encoding, from any scanning parser that has nothing pending. */
  lemma {:induction false} RoundTrip(p: Parser, ms: seq<Message>)
    requires AllSendable(p.controller, ms)
    requires Scanning(p, p.controller, EncodeAll(p.controller, ms))
    ensures Writes(Drain(p).tokens) == DeclaredAll(ms)
    ensures Discarded(Drain(p).tokens) == NoiseInAll(ms)
    ensures Scanning(Drain(p).parser, p.controller, [])
    decreases |ms|
  {
    if ms == [] {
      assert Step(p).Stuck?;
    } else {
      hide Encode, Declared, NoiseIn, Step;
      var q := DecodeMessage(p, ms[0], EncodeAll(p.controller, ms[1..]));
      RoundTrip(q, ms[1..]);
    }
  }

  /** No command begins inside these bytes, whose first two look like one; a further command follows them. */
  predicate QuietInside(c: Controller, g: seq<byte>) {
    forall i | 2 <= i < |g| && g[i] == 0x00 :: i + 1 == |g| || !Begins(c, g[i + 1])
  }

  /**
   After a malformed command of full length the parser finds the next message: each byte of the malformed command is
   discarded, and the update that follows is made.
   */
  lemma MalformedCommandIsSkipped(c: Controller, g: seq<byte>, r: Rect, data: seq<byte>)
    requires if c.Ssd1306? then |g| == 7 && [0x00, 0x21] <= g && !WindowAt(g)
             else |g| == 6 && PageAt(g) && g[4] != 0x40 && !RangeAt(g)
    requires QuietInside(c, g) && Sendable(c, Update(r, data))
    ensures var run := Drain(Fresh(c).Feed(g + Encode(c, Update(r, data))));
            && Writes(run.tokens) == [Write(r, data)] && Discarded(run.tokens) == |g|
            && Scanning(run.parser, c, [])
  {
    var m := Update(r, data);
    var (rest, ms) := (Encode(c, m), [Noise(g), m]);
    assert ms[1..] == [m] && [m][1..] == [];
    assert AllSendable(c, []) && AllSendable(c, [m]);
    assert EncodeAll(c, [m]) == rest + EncodeAll(c, []) == rest;
    SkippedBefore(c, g, rest);
    hide NoiseBefore, Encode, WindowAt, RangeAt, PageAt, QuietInside;
    assert Sendable(c, Noise(g)) && AllSendable(c, ms);
    NoiseIsSent(c, g, ms);
    assert [] + (g + rest) == g + rest;
    RoundTrip(Fresh(c).Feed(g + rest), ms);
    OneUpdate(g, m, ms);
  }

  lemma NoiseIsSent(c: Controller, g: seq<byte>, ms: seq<Message>)
    requires AllSendable(c, ms) && ms != [] && ms[0] == Noise(g)
    ensures EncodeAll(c, ms) == g + EncodeAll(c, ms[1..])
  {
  }

  lemma OneUpdate(g: seq<byte>, m: Message, ms: seq<Message>)
    requires m.Update? && ms == [Noise(g), m]
    ensures DeclaredAll(ms) == [Write(m.rect, m.data)] && NoiseInAll(ms) == |g|
  {
    assert ms[1..] == [m] && [m][1..] == [];
    assert DeclaredAll([m]) == Declared(m) + [] && NoiseInAll([m]) == 0;
  }

  lemma SkippedBefore(c: Controller, g: seq<byte>, rest: seq<byte>)
    requires if c.Ssd1306? then |g| == 7 && [0x00, 0x21] <= g && !WindowAt(g)
             else |g| == 6 && PageAt(g) && g[4] != 0x40 && !RangeAt(g)
    requires QuietInside(c, g) && rest != [] && rest[0] == 0x00
    ensures NoiseBefore(c, g, rest)
  {
    forall i | 2 <= i < |g| && g[i] == 0x00
      ensures |g[i + 1..] + rest| > 0 && !Begins(c, (g[i + 1..] + rest)[0])
    {
      assert if i + 1 == |g| then (g[i + 1..] + rest)[0] == rest[0] else (g[i + 1..] + rest)[0] == g[i + 1];
    }
    if c.Ssd1306? {
      assert g[0] == 0x00 && g[1] == 0x21;
      MalformedWindow(g, rest);
    } else {
      MalformedPage(g, rest);
    }
  }

  /** The display RAM of a display that has shown nothing. */
  function Blank(): seq<byte> {
    seq(1024, i => 0)
  }

  /** The display RAM after these writes. */
  ghost function PaintWrites(framebuffer: seq<byte>, writes: seq<Write>): seq<byte>
    requires |framebuffer| == FRAMEBUFFER_SIZE
    requires forall w | w in writes :: w.rect.Valid() && |w.data| == w.rect.width * w.rect.pages
    decreases |writes|
  {
    if writes == [] then framebuffer
    else PaintWrites(Blit(framebuffer, writes[0].rect, writes[0].data), writes[1..])
  }

  lemma {:induction false} OnlyWritesPaint(framebuffer: seq<byte>, tokens: seq<Token>)
    requires |framebuffer| == FRAMEBUFFER_SIZE && AllValid(tokens)
    ensures forall w | w in Writes(tokens) :: w.rect.Valid() && |w.data| == w.rect.width * w.rect.pages
    ensures Painted(framebuffer, tokens) == PaintWrites(framebuffer, Writes(tokens))
    decreases |tokens|
  {
    hide Blit;
    if tokens != [] {
      OnlyWritesPaint(Paint(framebuffer, tokens[0]), tokens[1..]);
      if tokens[0].Payload? {
        assert Writes(tokens)[1..] == Writes(tokens[1..]);
      } else {
        assert Writes(tokens) == Writes(tokens[1..]);
      }
    }
  }

  /**
   End to end: however the encoded traffic is cut up on its way to a fresh display, exactly the noise is
   discarded, nothing stays pending, and the display shows the declared updates over a blank screen.
   */
  lemma DisplayShowsWhatWasSent(controller: Controller, ms: seq<Message>, fragments: seq<seq<byte>>)
    requires AllSendable(controller, ms) && Flatten(fragments) == EncodeAll(controller, ms)
    ensures var r := DrainAll(Fresh(controller), fragments);
            && Scanning(r.parser, controller, [])
            && Writes(r.tokens) == DeclaredAll(ms)
            && Discarded(r.tokens) == NoiseInAll(ms)
            && (forall w | w in DeclaredAll(ms) :: w.rect.Valid() && |w.data| == w.rect.width * w.rect.pages)
            && r.parser.framebuffer == PaintWrites(Blank(), DeclaredAll(ms))
  {
    var p := Fresh(controller);
    assert p.framebuffer == Blank();
    FragmentationIndependence(p, fragments);
    var q := p.Feed(EncodeAll(controller, ms));
    RoundTrip(q, ms);
    FramebufferIsFold(q);
    OnlyWritesPaint(q.framebuffer, Drain(q).tokens);
  }
}
