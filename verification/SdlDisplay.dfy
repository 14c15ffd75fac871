/** The rotated texture and its inverse. */
module SdlDisplays {
  import opened Bytes
  import opened DisplaySpec

  newtype uint32 = x: int | 0 <= x < 0x1_0000_0000

  const PIXEL_OFF: uint32 := 0xff00_0000
  const PIXEL_ON: uint32 := 0xfff2_f2f2
  const HEIGHT: nat := 64

  /** `n >> bits` */
  function Shift(n: nat, bits: nat): nat {
    if bits == 0 then n else Shift(n, bits - 1) / 2
  }

  /** `b & (1 << bit) != 0` */
  predicate BitSet(b: byte, bit: nat)
    requires bit < 8
  {
    Shift(b as nat, bit) % 2 == 1
  }

  /** The display shows the RAM turned by 180 degrees; each RAM byte holds eight rows of one column. */
  function Pixel(framebuffer: seq<byte>, y: nat, x: nat): uint32
    requires |framebuffer| == FRAMEBUFFER_SIZE && y < HEIGHT && x < WIDTH
  {
    var (sourceY, sourceX) := (HEIGHT - 1 - y, WIDTH - 1 - x);
    if BitSet(framebuffer[sourceY / 8 * WIDTH + sourceX], sourceY % 8) then PIXEL_ON else PIXEL_OFF
  }

  class SdlDisplay {
    const texture: array2<uint32>
    /** The framebuffer that was rendered last. */
    ghost var shown: seq<byte>

    ghost predicate Valid()
      reads this, texture
    {
      && texture.Length0 == HEIGHT && texture.Length1 == WIDTH
      && |shown| == FRAMEBUFFER_SIZE
      && forall y, x | 0 <= y < HEIGHT && 0 <= x < WIDTH :: texture[y, x] == Pixel(shown, y, x)
    }

    constructor ()
      ensures Valid() && fresh(texture)
      ensures shown == seq(FRAMEBUFFER_SIZE, i => 0 as byte)
    {
      texture := new uint32[HEIGHT, WIDTH];
      shown := seq(FRAMEBUFFER_SIZE, i => 0 as byte);
      new;
      Render(seq(FRAMEBUFFER_SIZE, i => 0 as byte));
    }

    method Render(framebuffer: seq<byte>)
      requires texture.Length0 == HEIGHT && texture.Length1 == WIDTH && |framebuffer| == FRAMEBUFFER_SIZE
      modifies this, texture
      ensures Valid() && shown == framebuffer
      ensures forall y, x | 0 <= y < 64 && 0 <= x < 128 ::
                texture[y, x] ==
                if BitSet(framebuffer[(63 - y) / 8 * 128 + (127 - x)], (63 - y) % 8) then 0xfff2_f2f2 else 0xff00_0000
    {
      for outputY := 0 to HEIGHT
        invariant forall y, x | 0 <= y < outputY && 0 <= x < WIDTH :: texture[y, x] == Pixel(framebuffer, y, x)
      {
        var sourceY := HEIGHT - 1 - outputY;
        var page := sourceY / 8;
        var bit := sourceY % 8;
        for outputX := 0 to WIDTH
          invariant forall y, x | 0 <= y < outputY && 0 <= x < WIDTH :: texture[y, x] == Pixel(framebuffer, y, x)
          invariant forall x | 0 <= x < outputX :: texture[outputY, x] == Pixel(framebuffer, outputY, x)
        {
          var sourceX := WIDTH - 1 - outputX;
          var b := framebuffer[page * WIDTH + sourceX];
          texture[outputY, outputX] := if BitSet(b, bit) then PIXEL_ON else PIXEL_OFF;
        }
      }
      shown := framebuffer;
    }

    /** The window pixel (row, column) when every texture pixel fills `scale` by `scale` of them. */
    ghost function Sample(scale: nat, row: nat, column: nat): uint32
      requires Valid() && scale > 0 && row / scale < HEIGHT && column / scale < WIDTH
      reads this, texture
    {
      texture[row / scale, column / scale]
    }

    /**
     What the read-back finds at the centre of the pixel for a bit of the frame rendered last: one colour for a set bit,
     the other for a clear one, and never a third.
     */
    lemma WindowShowsBits(scale: nat, index: nat, bit: nat)
      requires Valid() && scale > 0 && index < FRAMEBUFFER_SIZE && bit < 8
      ensures var (y, x) := (63 - (index / 128 * 8 + bit), 127 - index % 128);
              && Centre(y, scale) / scale < HEIGHT && Centre(x, scale) / scale < WIDTH
              && Sample(scale, Centre(y, scale), Centre(x, scale))
                 == if BitSet(shown[index], bit) then 0xfff2_f2f2 else 0xff00_0000
    {
      hide Centre, BitSet;
      var (y, x) := (63 - (index / 128 * 8 + bit), 127 - index % 128);
      CentreIsInCell(y, scale);
      CentreIsInCell(x, scale);
      SourceRow(index / 128, bit);
      assert (63 - y) / 8 * 128 + (127 - x) == index;
    }
  }

  /** The colour of window pixel (row, column) when every texture pixel fills `scale` by `scale` of them. */
  function Scaled(framebuffer: seq<byte>, scale: nat, row: nat, column: nat): uint32
    requires |framebuffer| == FRAMEBUFFER_SIZE && scale > 0
    requires row / scale < HEIGHT && column / scale < WIDTH
  {
    Pixel(framebuffer, row / scale, column / scale)
  }

  /** Where the read-back samples texture row `y` of a window of `64 * scale` rows; columns are alike. */
  function Centre(y: nat, scale: nat): nat {
    (2 * y + 1) * (64 * scale) / 128
  }

  lemma CentreIsInCell(y: nat, scale: nat)
    requires scale > 0
    ensures Centre(y, scale) / scale == y
    ensures (2 * y + 1) * (128 * scale) / 256 == Centre(y, scale)
  {
    var product := y * scale;
    assert (2 * y + 1) * (64 * scale) == 128 * product + 64 * scale;
    assert (2 * y + 1) * (128 * scale) == 256 * product + 128 * scale;
    QuotientOf(product + scale / 2, y, scale);
  }

  lemma QuotientOf(n: nat, quotient: nat, divisor: nat)
    requires divisor > 0 && quotient * divisor <= n < quotient * divisor + divisor
    ensures n / divisor == quotient
  {
    var q := n / divisor;
    assert q * divisor <= n < q * divisor + divisor;
    MulNext(q, quotient, divisor);
    MulNext(quotient, q, divisor);
  }

  /** One bit of the frame that the read-back builds from the window. */
  ghost predicate CapturedBit(framebuffer: seq<byte>, scale: nat, index: nat, bit: nat)
    requires |framebuffer| == FRAMEBUFFER_SIZE && scale > 0 && index < FRAMEBUFFER_SIZE && bit < 8
  {
    var (y, x) := (HEIGHT - 1 - (index / WIDTH * 8 + bit), WIDTH - 1 - index % WIDTH);
    CentreIsInCell(y, scale);
    CentreIsInCell(x, scale);
    Scaled(framebuffer, scale, Centre(y, scale), Centre(x, scale)) == 0xfff2_f2f2
  }

  function Digit(on: bool): nat {
    if on then 1 else 0
  }

  /** Bits `bit` to 7 of a byte, read as a binary number. */
  ghost function BitsFrom(b: byte, bit: nat): nat
    requires bit <= 8
    decreases 8 - bit
  {
    if bit == 8 then 0 else Digit(BitSet(b, bit)) + 2 * BitsFrom(b, bit + 1)
  }

  lemma {:induction false} BitsAreShift(b: byte, bit: nat)
    requires bit <= 8
    ensures BitsFrom(b, bit) == Shift(b as nat, bit)
    decreases 8 - bit
  {
    if bit == 8 {
      ByteShiftsOut(b as nat, 8);
    } else {
      BitsAreShift(b, bit + 1);
    }
  }

  lemma {:induction false} ByteShiftsOut(n: nat, bits: nat)
    requires n < 0x100 && bits <= 8
    ensures Shift(n, bits) < [0x100, 0x80, 0x40, 0x20, 0x10, 8, 4, 2, 1][bits]
  {
    if bits > 0 {
      ByteShiftsOut(n, bits - 1);
    }
  }

  /** The byte at `index` of the frame rebuilt from the window, from its samples for bits `bit` to 7. */
  ghost function CapturedBits(framebuffer: seq<byte>, scale: nat, index: nat, bit: nat): nat
    requires |framebuffer| == FRAMEBUFFER_SIZE && scale > 0 && index < FRAMEBUFFER_SIZE && bit <= 8
    decreases 8 - bit
  {
    if bit == 8 then
      0
    else
      Digit(CapturedBit(framebuffer, scale, index, bit)) + 2 * CapturedBits(framebuffer, scale, index, bit + 1)
  }

  ghost function CapturedByte(framebuffer: seq<byte>, scale: nat, index: nat): nat
    requires |framebuffer| == FRAMEBUFFER_SIZE && scale > 0 && index < FRAMEBUFFER_SIZE
  {
    CapturedBits(framebuffer, scale, index, 0)
  }

  lemma CapturedBitIsSource(framebuffer: seq<byte>, scale: nat, index: nat, bit: nat)
    requires |framebuffer| == FRAMEBUFFER_SIZE && scale > 0 && index < FRAMEBUFFER_SIZE && bit < 8
    ensures CapturedBit(framebuffer, scale, index, bit) == BitSet(framebuffer[index], bit)
  {
    hide Centre, BitSet;
    var (y, x) := (HEIGHT - 1 - (index / WIDTH * 8 + bit), WIDTH - 1 - index % WIDTH);
    CentreIsInCell(y, scale);
    CentreIsInCell(x, scale);
    SourceRow(index / WIDTH, bit);
    assert (HEIGHT - 1 - y) / 8 * WIDTH + (WIDTH - 1 - x) == index;
  }

  lemma SourceRow(page: nat, bit: nat)
    requires bit < 8
    ensures (page * 8 + bit) / 8 == page && (page * 8 + bit) % 8 == bit
  {
  }

  lemma {:induction false} CapturedBitsAreSource(framebuffer: seq<byte>, scale: nat, index: nat, bit: nat)
    requires |framebuffer| == FRAMEBUFFER_SIZE && scale > 0 && index < FRAMEBUFFER_SIZE && bit <= 8
    ensures CapturedBits(framebuffer, scale, index, bit) == BitsFrom(framebuffer[index], bit)
    decreases 8 - bit
  {
    if bit < 8 {
      CapturedBitIsSource(framebuffer, scale, index, bit);
      CapturedBitsAreSource(framebuffer, scale, index, bit + 1);
    }
    hide CapturedBit, BitSet;
  }

  /** Reading the window back by centre sampling, at any integer scale, rebuilds the framebuffer. */
  lemma PixelRoundTrip(framebuffer: seq<byte>, scale: nat, index: nat)
    requires |framebuffer| == FRAMEBUFFER_SIZE && scale > 0 && index < FRAMEBUFFER_SIZE
    ensures CapturedByte(framebuffer, scale, index) == framebuffer[index] as nat
  {
    CapturedBitsAreSource(framebuffer, scale, index, 0);
    BitsAreShift(framebuffer[index], 0);
  }
}
