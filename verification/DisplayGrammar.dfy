/** The grammar on bytes. */
module DisplayGrammar {
  // What a parser does, spelled out on the bytes it has pending: which commands it understands, when it waits, and
  // that everything else costs exactly one byte.

  import opened Bytes
  import opened DisplaySpec

  /** The fixed command sequences that are skipped. */
  predicate SkippedAt(c: Controller, s: seq<byte>, length: nat) {
    if c.Ssd1306? then
      length == 26 &&
      [0x00, 0xae, 0xd5, 0x80, 0xa8, 0x3f, 0xd3, 0x00, 0x40, 0x8d, 0x14, 0x20, 0x00, 0xa1, 0xc8, 0xda,
       0x12, 0x81, 0xcf, 0xd9, 0xf1, 0xdb, 0x40, 0xa4, 0xa6, 0xaf] <= s
    else
      || (length == 2 && [0x00, 0xaf] <= s)
      || (length == 26 &&
          [0x00, 0xae, 0x02, 0x10, 0x40, 0x81, 0xa0, 0xa1, 0xc8, 0xa6, 0xa8, 0x3f, 0xd3, 0x00, 0xd5, 0x80,
           0xd9, 0xf1, 0xda, 0x12, 0xdb, 0x40, 0x20, 0x02, 0xa4, 0xa6] <= s)
  }

  /** An SSD1306 column and page address. */
  predicate WindowAt(s: seq<byte>) {
    |s| >= 7 && s[0] == 0x00 && s[1] == 0x21 && s[2] <= s[3] <= 127 && s[4] == 0x22 && s[5] <= s[6] <= 7
  }

  predicate PageAt(s: seq<byte>) {
    |s| >= 2 && s[0] == 0x00 && 0xb0 <= s[1] <= 0xb7
  }

  predicate ColumnAt(s: seq<byte>, i: nat) {
    |s| >= i + 2 && s[i] <= 0x0f && 0x10 <= s[i + 1] <= 0x1f
  }

  function Column(s: seq<byte>, i: nat): nat
    requires ColumnAt(s, i)
  {
    s[i] as nat + 16 * (s[i + 1] as nat - 0x10)
  }

  /** An SH1106 page command for the whole visible page, data following at once. */
  predicate LegacyAt(s: seq<byte>) {
    PageAt(s) && |s| >= 5 && s[2] == 0x02 && s[3] == 0x10 && s[4] == 0x40
  }

  /** An SH1106 page command with an ending and a starting column; native columns 2 to 129 are visible. */
  predicate RangeAt(s: seq<byte>) {
    PageAt(s) && ColumnAt(s, 2) && ColumnAt(s, 4) && 2 <= Column(s, 4) <= Column(s, 2) <= 129
  }

  /** A page command, well formed so far, for a lower page than the last one. */
  predicate WrapsAt(s: seq<byte>, last: Option<nat>) {
    PageAt(s) && ColumnAt(s, 2) && last.Some? && s[1] as nat - 0xb0 < last.value
  }

  predicate AddressAt(c: Controller, s: seq<byte>) {
    if c.Ssd1306? then WindowAt(s) else LegacyAt(s) || RangeAt(s)
  }

  /** A command that is understood. */
  predicate CommandAt(c: Controller, s: seq<byte>) {
    SkippedAt(c, s, 2) || SkippedAt(c, s, 26) || AddressAt(c, s)
  }

  /** Too few bytes to tell. */
  predicate Undecided(c: Controller, s: seq<byte>) {
    if c.Ssd1306? then
      || s <= [0x00, 0xae, 0xd5, 0x80, 0xa8, 0x3f, 0xd3, 0x00, 0x40, 0x8d, 0x14, 0x20, 0x00, 0xa1, 0xc8, 0xda,
               0x12, 0x81, 0xcf, 0xd9, 0xf1, 0xdb, 0x40, 0xa4, 0xa6, 0xaf]
      || s <= [0x00, 0x21] || (|s| < 7 && [0x00, 0x21] <= s)
    else
      || s <= [0x00, 0xae, 0x02, 0x10, 0x40, 0x81, 0xa0, 0xa1, 0xc8, 0xa6, 0xa8, 0x3f, 0xd3, 0x00, 0xd5, 0x80,
               0xd9, 0xf1, 0xda, 0x12, 0xdb, 0x40, 0x20, 0x02, 0xa4, 0xa6]
      || s <= [0x00, 0xaf] || (PageAt(s) && (|s| < 5 || (|s| < 6 && s[4] != 0x40)))
  }

  /** The data state that an address command sets up. */
  function AddressedBy(c: Controller, s: seq<byte>): ParseState
    requires AddressAt(c, s)
  {
    if c.Ssd1306? then Ssd1306Data(s[2] as nat, (s[3] - s[2]) as nat + 1, s[5] as nat, (s[6] - s[5]) as nat + 1)
    else if s[4] == 0x40 then Sh1106PageData(s[1] as nat - 0xb0, 0, 128)
    else Sh1106PageData(s[1] as nat - 0xb0, Column(s, 4) - 2, Column(s, 2) - Column(s, 4) + 1)
  }

  function AddressLength(c: Controller, s: seq<byte>): nat
    requires AddressAt(c, s)
  {
    if c.Ssd1306? then 7 else if s[4] == 0x40 then 4 else 6
  }

  /** The marks after an address command: page 0 begins a frame. */
  function MarksAfter(c: Controller, s: seq<byte>, marks: Marks): Marks
    requires AddressAt(c, s)
  {
    if c.Ssd1306? then marks
    else if s[1] == 0xb0 then Marks(0, true, Some(0))
    else Marks(marks.pages, marks.frameStarted, Some(s[1] as nat - 0xb0))
  }

  lemma Ssd1306Reads(s: seq<byte>)
    ensures var reading := ReadSsd1306(s);
            && (SkippedAt(Ssd1306, s, 26) ==> reading == Known(26))
            && (WindowAt(s) ==>
                  reading == Window(Rect(s[2] as nat, (s[3] - s[2]) as nat + 1, s[5] as nat, (s[6] - s[5]) as nat + 1)))
            && (!SkippedAt(Ssd1306, s, 26) && Undecided(Ssd1306, s) ==> reading == NeedMore)
            && (!CommandAt(Ssd1306, s) && !Undecided(Ssd1306, s) ==> reading == Junk)
  {
    if WindowAt(s) {
      assert s[1] != SSD1306_INIT[1];
    }
  }

  lemma Sh1106Reads(s: seq<byte>, last: Option<nat>)
    ensures var reading := ReadSh1106(s, last);
            && (SkippedAt(Sh1106, s, 26) ==> reading == Known(26))
            && (SkippedAt(Sh1106, s, 2) ==> reading == Known(2))
            && (WrapsAt(s, last) ==> reading == WrapBack)
            && (!WrapsAt(s, last) && LegacyAt(s) ==> reading == PageWrite(4, s[1] as nat - 0xb0, 0, 128))
            && (!WrapsAt(s, last) && RangeAt(s) ==>
                  reading == PageWrite(6, s[1] as nat - 0xb0, Column(s, 4) - 2, Column(s, 2) - Column(s, 4) + 1))
            && (!SkippedAt(Sh1106, s, 2) && !SkippedAt(Sh1106, s, 26) && !WrapsAt(s, last) && Undecided(Sh1106, s) ==>
                  reading == NeedMore)
            && (!CommandAt(Sh1106, s) && !WrapsAt(s, last) && !Undecided(Sh1106, s) ==> reading == Junk)
  {
    if PageAt(s) {
      Sh1106PageReads(s, last);
      assert s[1] != SH1106_INIT[1] && s[1] != SH1106_DISPLAY_ON[1];
    }
    hide ReadSh1106Page;
  }

  lemma Sh1106PageReads(s: seq<byte>, last: Option<nat>)
    requires PageAt(s)
    ensures var reading := ReadSh1106Page(s, last);
            && (WrapsAt(s, last) ==> reading == WrapBack)
            && (!WrapsAt(s, last) && LegacyAt(s) ==> reading == PageWrite(4, s[1] as nat - 0xb0, 0, 128))
            && (!WrapsAt(s, last) && RangeAt(s) ==>
                  reading == PageWrite(6, s[1] as nat - 0xb0, Column(s, 4) - 2, Column(s, 2) - Column(s, 4) + 1))
            && (!WrapsAt(s, last) && (|s| < 5 || (|s| < 6 && s[4] != 0x40)) ==> reading == NeedMore)
            && (!LegacyAt(s) && !RangeAt(s) && !WrapsAt(s, last) && |s| >= 5 && (|s| >= 6 || s[4] == 0x40) ==> reading == Junk)
  {
  }

  /** What a scanning parser does, case by case. */
  ghost predicate ScansExactly(p: Parser)
    requires p.Valid() && p.state.Scan?
  {
    var (c, s) := (p.controller, p.pending);
    var wraps := c.Sh1106? && WrapsAt(s, p.sh1106.lastPage);
    && (SkippedAt(c, s, 2) ==> Step(p) == Moved(p.Take(2), Pattern(s[..2])))
    && (SkippedAt(c, s, 26) ==> Step(p) == Moved(p.Take(26), Pattern(s[..26])))
    && (wraps ==> Step(p) == Moved(p.(sh1106 := Marks(0, false, None)), Wrap))
    && (!wraps && AddressAt(c, s) ==>
          var length := AddressLength(c, s);
          Step(p) == Moved(p.Take(length).(state := AddressedBy(c, s), sh1106 := MarksAfter(c, s, p.sh1106)),
                           Address(s[..length])))
    && (Step(p).Stuck? <==> Undecided(c, s) && !wraps && !CommandAt(c, s))
    && (!CommandAt(c, s) && !wraps && !Undecided(c, s) ==> Step(p) == Moved(p.Take(1), Discard(s[0])))
  }

  lemma Ssd1306Scans(p: Parser)
    requires p.Valid() && p.state.Scan? && p.controller.Ssd1306?
    ensures ScansExactly(p)
  {
    hide ReadSsd1306;
    Ssd1306Reads(p.pending);
  }

  lemma Sh1106Scans(p: Parser)
    requires p.Valid() && p.state.Scan? && p.controller.Sh1106?
    ensures ScansExactly(p)
  {
    hide ReadSh1106;
    Sh1106Reads(p.pending, p.sh1106.lastPage);
  }

  lemma ScanIsExact(p: Parser)
    requires p.Valid() && p.state.Scan?
    ensures ScansExactly(p)
  {
    hide ScansExactly;
    if p.controller.Ssd1306? {
      Ssd1306Scans(p);
    } else {
      Sh1106Scans(p);
    }
  }

  /** A scan that goes on without having understood a command has discarded exactly one byte. */
  lemma JunkCostsOneByte(p: Parser)
    requires p.Valid() && p.state.Scan? && Step(p).Moved? && !CommandAt(p.controller, p.pending)
    requires p.controller.Sh1106? ==> !WrapsAt(p.pending, p.sh1106.lastPage)
    ensures p.pending != [] && Step(p) == Moved(p.(pending := p.pending[1..]), Discard(p.pending[0]))
  {
    ScanIsExact(p);
    hide Step, CommandAt, WrapsAt;
  }

  /** A data state takes its payload whole, and gives up at once, taking nothing, when no data byte introduces it. */
  lemma DataIsExact(p: Parser)
    requires p.Valid() && !p.state.Scan?
    ensures var (s, r) := (p.pending, p.Target());
            && (Step(p).Stuck? <==> s == [] || (s[0] == 0x40 && |s| < 1 + r.width * r.pages))
            && (s != [] && s[0] != 0x40 ==> Step(p) == Moved(p.(state := Scan), Abandon))
            && (Step(p).Moved? && s[0] == 0x40 ==>
                  && Step(p).next.pending == s[1 + r.width * r.pages..] && Step(p).next.state.Scan?
                  && Step(p).token.Payload? && Step(p).token.rect == r && Step(p).token.data == s[1..1 + r.width * r.pages])
  {
    hide Blit, Finish;
  }

  // ---- Bytes that begin no command ----

  /** Whatever was read before, the first of these bytes will be discarded. */
  predicate BeginsNothing(c: Controller, s: seq<byte>) {
    !CommandAt(c, s) && !Undecided(c, s)
  }

  /** Followed by `rest`, no byte of `noise` begins a command. */
  ghost predicate NoiseBefore(c: Controller, noise: seq<byte>, rest: seq<byte>) {
    forall i | 0 <= i < |noise| :: BeginsNothing(c, noise[i..] + rest)
  }

  lemma WithoutControlByte(c: Controller, noise: seq<byte>, rest: seq<byte>)
    requires 0x00 !in noise
    ensures NoiseBefore(c, noise, rest)
  {
    forall i | 0 <= i < |noise| ensures BeginsNothing(c, noise[i..] + rest) {
      var s := noise[i..] + rest;
      assert s[0] == noise[i] && noise[i] in noise;
    }
  }

  /** The second bytes of the commands. */
  predicate Begins(c: Controller, b: byte) {
    if c.Ssd1306? then b == 0xae || b == 0x21 else b == 0xae || b == 0xaf || 0xb0 <= b <= 0xb7
  }

  lemma NoSecondByte(c: Controller, s: seq<byte>)
    requires |s| >= 2 && (s[0] == 0x00 ==> !Begins(c, s[1]))
    ensures BeginsNothing(c, s)
  {
  }

  /** A window command of full length with impossible addresses is noise, as long as no other command begins in it. */
  lemma MalformedWindow(g: seq<byte>, rest: seq<byte>)
    requires |g| == 7 && g[0] == 0x00 && g[1] == 0x21 && !WindowAt(g)
    requires forall i | 2 <= i < 7 && g[i] == 0x00 :: |g[i + 1..] + rest| > 0 && !Begins(Ssd1306, (g[i + 1..] + rest)[0])
    ensures NoiseBefore(Ssd1306, g, rest)
  {
    forall i | 0 <= i < 7 ensures BeginsNothing(Ssd1306, g[i..] + rest) {
      var s := g[i..] + rest;
      assert s[0] == g[i];
      if i == 0 {
        assert s[..7] == g && forall k | 0 <= k < 7 :: s[k] == g[k];
        assert !WindowAt(s);
      } else if g[i] == 0x00 {
        assert s[1..] == g[i + 1..] + rest;
        NoSecondByte(Ssd1306, s);
      }
    }
  }

  /** A page command of full length with impossible columns is noise in the same way. */
  lemma MalformedPage(g: seq<byte>, rest: seq<byte>)
    requires |g| == 6 && PageAt(g) && g[4] != 0x40 && !RangeAt(g)
    requires forall i | 2 <= i < 6 && g[i] == 0x00 :: |g[i + 1..] + rest| > 0 && !Begins(Sh1106, (g[i + 1..] + rest)[0])
    ensures NoiseBefore(Sh1106, g, rest)
  {
    forall i | 0 <= i < 6 ensures BeginsNothing(Sh1106, g[i..] + rest) {
      var s := g[i..] + rest;
      assert s[0] == g[i];
      if i == 0 {
        assert s[..6] == g && forall k | 0 <= k < 6 :: s[k] == g[k];
        assert !RangeAt(s) && !LegacyAt(s);
      } else if g[i] == 0x00 {
        assert s[1..] == g[i + 1..] + rest;
        NoSecondByte(Sh1106, s);
      }
    }
  }
}
