/** The frame buffer of the Windows video driver (src/Windows/WinVid.cpp), a bitmap whose
    rows are stored bottom-up as a device-independent bitmap expects. `Init` builds one of two
    bitmaps: the colour one, a byte per pixel, and the monochrome one, a bit per pixel with
    the leftmost pixel of a byte in its top bit and each row padded to a multiple of 4 bytes.
    The source's `SetPixel` and `InvertPixel` address the bitmap the monochrome way whichever
    was built; the driver here does so for the monochrome bitmap and writes the pixel's own
    byte in the colour one. */
module WinVid {

  /** The screen size the driver's constructor fixes. */
  const SCREEN_WIDTH: nat := 640
  const SCREEN_HEIGHT: nat := 480

  /** Bytes per row of a 1-bit-per-pixel bitmap `width` pixels wide: enough bytes for the
      pixels, rounded up to the next multiple of 4. */
  function Pitch(width: nat): (pitch: nat)
    ensures pitch % 4 == 0
    ensures (width + 7) / 8 <= pitch < (width + 7) / 8 + 4
    ensures 8 * pitch >= width
  {
    var pitch := (width + 7) / 8;
    if pitch % 4 != 0 then pitch + (4 - pitch % 4) else pitch
  }

  /** The bottom-up line table: line `y` starts at buffer row `height - 1 - y`. */
  method LineTable(height: nat, pitch: nat) returns (lines: array<int>)
    ensures fresh(lines) && lines.Length == height
    ensures forall y :: 0 <= y < height ==> lines[y] == (height - 1 - y) * pitch
  {
    lines := new int[height];
    var y := 0;
    while y < height
      invariant 0 <= y <= height
      invariant forall j :: 0 <= j < y ==> lines[j] == (height - 1 - j) * pitch
    {
      var bufferY := height - 1 - y;
      lines[y] := bufferY * pitch;
      y := y + 1;
    }
  }

  predicate InBounds(width: nat, height: nat, x: int, y: int)
  {
    0 <= x < width && 0 <= y < height
  }

  /** The byte `SetPixel` and `InvertPixel` address: row `height - y - 1`, `width / 8` bytes
      per row. */
  function PixelIndex(width: nat, height: nat, x: int, y: int): (i: int)
    ensures InBounds(width, height, x, y) ==> 0 <= i < Pitch(width) * height
  {
    ByteInBuffer(width, height, height - y - 1, x);
    (height - y - 1) * (width / 8) + x / 8
  }

  /** The bit within that byte, `0x80 >> (x & 7)`, column by column. */
  function Mask(x: int): bv8
  {
    match x % 8
    case 0 => 0x80
    case 1 => 0x40
    case 2 => 0x20
    case 3 => 0x10
    case 4 => 0x08
    case 5 => 0x04
    case 6 => 0x02
    case _ => 0x01
  }

  lemma MaskIsShift(x: int)
    ensures Mask(x) == (0x80 as bv8) >> (x % 8)
  {
  }

  /** The buffer after `SetPixel` as written: the pixel's bit set for a nonzero colour,
      cleared for zero; nothing at all outside the screen. The buffer may be longer than the
      monochrome bitmap (see `MonochromeWriteInColourBitmap`). */
  function WithPixel(buffer: seq<bv8>, width: nat, height: nat, x: int, y: int, colour: int): (r: seq<bv8>)
    requires |buffer| >= Pitch(width) * height
    ensures |r| == |buffer|
  {
    if InBounds(width, height, x, y) then
      var i := PixelIndex(width, height, x, y);
      buffer[i := Painted(buffer[i], Mask(x), colour)]
    else buffer
  }

  /** A byte with the mask's bit set for a non-zero colour, cleared for colour 0. */
  function Painted(b: bv8, mask: bv8, colour: int): bv8
  {
    if colour != 0 then b | mask else b & !mask
  }

  /** The buffer after `InvertPixel` as written: the pixel's bit flipped; nothing outside
      the screen. */
  function WithInverted(buffer: seq<bv8>, width: nat, height: nat, x: int, y: int): (r: seq<bv8>)
    requires |buffer| >= Pitch(width) * height
    ensures |r| == |buffer|
  {
    if InBounds(width, height, x, y) then
      var i := PixelIndex(width, height, x, y);
      buffer[i := buffer[i] ^ Mask(x)]
    else buffer
  }

  /** Whether a pixel on the screen is set. */
  function Pixel(buffer: seq<bv8>, width: nat, height: nat, x: int, y: int): bool
    requires |buffer| == Pitch(width) * height && InBounds(width, height, x, y)
  {
    buffer[PixelIndex(width, height, x, y)] & Mask(x) != 0
  }

  // ---------------------------------------------------------------- the colour bitmap

  /** Bytes per row of each bitmap: the width itself for the colour one, `Pitch` for the
      monochrome one. */
  function RowPitch(useColour: bool, width: nat): nat
  {
    if useColour then width else Pitch(width)
  }

  /** The byte of pixel (x, y) in the colour bitmap: row `height - 1 - y`, column `x`. */
  function ColourIndex(width: nat, height: nat, x: int, y: int): (i: int)
    ensures InBounds(width, height, x, y) ==> 0 <= i < width * height
  {
    ColourByteInBuffer(width, height, x, y);
    (height - 1 - y) * width + x
  }

  lemma ColourByteInBuffer(width: nat, height: nat, x: int, y: int)
    ensures InBounds(width, height, x, y) ==> 0 <= (height - 1 - y) * width + x < width * height
  {
    if InBounds(width, height, x, y) {
      RowsFit(height - 1 - y, height, width, x, width);
    }
  }

  /** A `uint32_t` colour stored into a `uint8_t`: its low byte. */
  function Low8(colour: nat): bv8
  {
    (colour % 0x100) as bv8
  }

  /** A pixel written into the colour bitmap: its byte becomes the colour; nothing outside the
      screen. */
  function WithColourPixel(buffer: seq<bv8>, width: nat, height: nat, x: int, y: int, colour: nat): (r: seq<bv8>)
    requires |buffer| == width * height
    ensures |r| == |buffer|
  {
    if InBounds(width, height, x, y) then buffer[ColourIndex(width, height, x, y) := Low8(colour)] else buffer
  }

  /** A pixel inverted in the colour bitmap: its byte exclusive-or the colour. */
  function WithColourInverted(buffer: seq<bv8>, width: nat, height: nat, x: int, y: int, colour: nat): (r: seq<bv8>)
    requires |buffer| == width * height
    ensures |r| == |buffer|
  {
    if InBounds(width, height, x, y) then
      var i := ColourIndex(width, height, x, y);
      buffer[i := buffer[i] ^ Low8(colour)]
    else buffer
  }

  /** In the colour bitmap every pixel owns its byte: writing one gives it the colour and
      leaves every other pixel of the screen as it was. */
  lemma ColourPixelOwnsByte(buffer: seq<bv8>, width: nat, height: nat, x: int, y: int, colour: nat, x2: int, y2: int)
    requires |buffer| == width * height
    requires InBounds(width, height, x, y) && InBounds(width, height, x2, y2)
    ensures var r := WithColourPixel(buffer, width, height, x, y, colour);
      && r[ColourIndex(width, height, x, y)] == Low8(colour)
      && ((x2, y2) != (x, y) ==> r[ColourIndex(width, height, x2, y2)] == buffer[ColourIndex(width, height, x2, y2)])
  {
    if (x2, y2) != (x, y) && ColourIndex(width, height, x, y) == ColourIndex(width, height, x2, y2) {
      RowsApart(width, height - 1 - y, height - 1 - y2, x, x2);
    }
  }

  /** Inverting a colour pixel twice with the same colour restores the bitmap. */
  lemma ColourInvertTwiceRestores(buffer: seq<bv8>, width: nat, height: nat, x: int, y: int, colour: nat)
    requires |buffer| == width * height
    ensures var once := WithColourInverted(buffer, width, height, x, y, colour);
      WithColourInverted(once, width, height, x, y, colour) == buffer
  {
    if InBounds(width, height, x, y) {
      var i := ColourIndex(width, height, x, y);
      assert (buffer[i] ^ Low8(colour)) ^ Low8(colour) == buffer[i];
    }
  }

  /** The monochrome arithmetic of `SetPixel` and `InvertPixel` applied to the colour bitmap
      that `Init` builds: on the 640 by 480 screen, setting pixel (8, 0) changes the byte of
      pixel (561, 420) and nothing else, and inverting pixel (8, 0) leaves its byte alone. */
  lemma MonochromeWriteInColourBitmap(buffer: seq<bv8>)
    requires |buffer| == SCREEN_WIDTH * SCREEN_HEIGHT
    ensures var set1 := WithPixel(buffer, SCREEN_WIDTH, SCREEN_HEIGHT, 8, 0, 1);
      var own := ColourIndex(SCREEN_WIDTH, SCREEN_HEIGHT, 8, 0);
      var other := ColourIndex(SCREEN_WIDTH, SCREEN_HEIGHT, 561, 420);
      && set1[own] == buffer[own]
      && set1[other] == buffer[other] | 0x80
      && (forall j :: 0 <= j < |buffer| && j != other ==> set1[j] == buffer[j])
      && WithInverted(buffer, SCREEN_WIDTH, SCREEN_HEIGHT, 8, 0)[own] == buffer[own]
  {
    assert PixelIndex(SCREEN_WIDTH, SCREEN_HEIGHT, 8, 0) == 38321 == ColourIndex(SCREEN_WIDTH, SCREEN_HEIGHT, 561, 420);
    assert ColourIndex(SCREEN_WIDTH, SCREEN_HEIGHT, 8, 0) == 306568;
  }

  // ---------------------------------------------------------------- properties

  /** Every pixel on the screen addresses a byte of the bitmap. */
  lemma ByteInBuffer(width: nat, height: nat, row: int, x: int)
    ensures 0 <= row < height && 0 <= x < width ==> 0 <= row * (width / 8) + x / 8 < Pitch(width) * height
  {
    if 0 <= row < height && 0 <= x < width {
      RowByteInBuffer(width, height, row, x);
    }
  }

  lemma RowByteInBuffer(width: nat, height: nat, row: int, x: int)
    requires 0 <= row < height && 0 <= x < width
    ensures 0 <= row * (width / 8) + x / 8 < Pitch(width) * height
  {
    ColumnByteInRow(width, x);
    RowsFit(row, height, width / 8, x / 8, Pitch(width));
  }

  /** A row's bytes, and the byte of any of its columns, fit in the pitch. */
  lemma ColumnByteInRow(width: nat, x: int)
    requires 0 <= x < width
    ensures width / 8 <= Pitch(width) && 0 <= x / 8 < Pitch(width)
  {
    assert (width + 7) / 8 == (width - 1) / 8 + 1;
    assert x / 8 <= (width - 1) / 8;
  }

  lemma RowsFit(row: int, height: int, stride: nat, column: nat, pitch: nat)
    requires 0 <= row < height && stride <= pitch && column < pitch
    ensures 0 <= row * stride + column < pitch * height
  {
    MulLeq(row, stride, pitch);
    MulLeq(pitch, row, height - 1);
    assert (height - 1) * pitch + pitch == height * pitch;
  }

  lemma MulLeq(a: nat, b: nat, c: nat)
    requires b <= c
    ensures a * b <= a * c
  {
  }

  /** The masks of different columns share no bit. */
  lemma MasksDisjoint(x: int, x2: int)
    requires x % 8 != x2 % 8
    ensures Mask(x) & Mask(x2) == 0
  {
  }

  /** `SetPixel` off the screen changes nothing; on it, it sets or clears exactly the
      pixel's bit and leaves every other bit of every byte as it was. */
  lemma WithPixelChangesOneBit(buffer: seq<bv8>, width: nat, height: nat, x: int, y: int, colour: int)
    requires |buffer| == Pitch(width) * height
    ensures var r := WithPixel(buffer, width, height, x, y, colour);
      && |r| == |buffer|
      && (!InBounds(width, height, x, y) ==> r == buffer)
      && (InBounds(width, height, x, y) ==>
            var i := PixelIndex(width, height, x, y);
            && (forall j :: 0 <= j < |r| && j != i ==> r[j] == buffer[j])
            && r[i] & !Mask(x) == buffer[i] & !Mask(x)
            && (Pixel(r, width, height, x, y) <==> colour != 0))
  {
  }

  /** `InvertPixel` flips exactly the pixel's bit, so doing it twice restores the buffer. */
  lemma InvertTwiceRestores(buffer: seq<bv8>, width: nat, height: nat, x: int, y: int)
    requires |buffer| == Pitch(width) * height
    ensures var once := WithInverted(buffer, width, height, x, y);
      && |once| == |buffer|
      && WithInverted(once, width, height, x, y) == buffer
      && (InBounds(width, height, x, y) ==>
            Pixel(once, width, height, x, y) == !Pixel(buffer, width, height, x, y))
  {
    if InBounds(width, height, x, y) {
      var i := PixelIndex(width, height, x, y);
      assert (buffer[i] ^ Mask(x)) ^ Mask(x) == buffer[i];
    }
  }

  /** When the width is a whole number of bytes, distinct pixels own distinct bits: setting
      one never changes another. */
  lemma OtherPixelsUnchanged(buffer: seq<bv8>, width: nat, height: nat, x: int, y: int, colour: int, x2: int, y2: int)
    requires |buffer| == Pitch(width) * height && width % 8 == 0
    requires InBounds(width, height, x, y) && InBounds(width, height, x2, y2) && (x, y) != (x2, y2)
    ensures Pixel(WithPixel(buffer, width, height, x, y, colour), width, height, x2, y2)
            == Pixel(buffer, width, height, x2, y2)
  {
    var i := PixelIndex(width, height, x, y);
    var i2 := PixelIndex(width, height, x2, y2);
    WithPixelChangesOneBit(buffer, width, height, x, y, colour);
    if i == i2 {
      SameByteSameRow(width, height, x, y, x2, y2);
      assert x / 8 == x2 / 8 && x % 8 != x2 % 8;
      MasksDisjoint(x, x2);
    }
  }

  /** With a byte-aligned width, a byte belongs to one row and one group of eight columns. */
  lemma SameByteSameRow(width: nat, height: nat, x: int, y: int, x2: int, y2: int)
    requires width % 8 == 0 && InBounds(width, height, x, y) && InBounds(width, height, x2, y2)
    requires PixelIndex(width, height, x, y) == PixelIndex(width, height, x2, y2)
    ensures y == y2 && x / 8 == x2 / 8
  {
    RowsApart(width / 8, height - y - 1, height - y2 - 1, x / 8, x2 / 8);
  }

  /** `r * s + a` with `a < s` determines `r` and `a`. */
  lemma RowsApart(s: nat, r: nat, r2: nat, a: nat, b: nat)
    requires a < s && b < s && r * s + a == r2 * s + b
    ensures r == r2 && a == b
  {
    if r < r2 {
      MulLeq(s, r + 1, r2);
    } else if r2 < r {
      MulLeq(s, r2 + 1, r);
    }
  }

  /** At the driver's width the row stride `SetPixel` uses is the bitmap's pitch, so the
      pixel addressed is the one the line table shows. */
  lemma StrideIsPitchAtScreenWidth()
    ensures SCREEN_WIDTH / 8 == Pitch(SCREEN_WIDTH) == 80
    ensures SCREEN_WIDTH % 8 == 0
    ensures SCREEN_WIDTH * SCREEN_HEIGHT / 8 == Pitch(SCREEN_WIDTH) * SCREEN_HEIGHT
  {
  }

  /** At a width that is not a whole number of bytes, `width / 8` falls short of the pitch
      and the last pixels of a row land in the next row's first byte: on a 10 by 2 screen,
      pixel (8, 1) and pixel (0, 0) share a bit. */
  lemma NarrowStrideCollides()
    ensures InBounds(10, 2, 8, 1) && InBounds(10, 2, 0, 0)
    ensures PixelIndex(10, 2, 8, 1) == PixelIndex(10, 2, 0, 0) && Mask(8) == Mask(0)
    ensures 10 / 8 < Pitch(10)
  {
  }

  /** The driver: the screen size, which bitmap `Init` built, the bitmap and its line table. */
  class WindowsVideoDriver {
    const screenWidth: nat
    const screenHeight: nat
    const useColour: bool
    const buffer: array<bv8>
    const lines: array<int>

    predicate Valid()
    {
      buffer.Length == RowPitch(useColour, screenWidth) * screenHeight && lines.Length == screenHeight
    }

    /** The constructor and `Init`. The colour branch builds a byte per pixel, every byte
        colour 0xf; the monochrome branch a padded bit per pixel, the first
        `width * height / 8` bytes set to white. Both tables list the rows bottom-up. */
    constructor (width: nat, height: nat, useColour: bool)
      ensures screenWidth == width && screenHeight == height && this.useColour == useColour && Valid()
      ensures fresh(buffer) && fresh(lines)
      ensures forall y :: 0 <= y < height ==> lines[y] == (height - 1 - y) * RowPitch(useColour, width)
      ensures useColour ==> forall n :: 0 <= n < buffer.Length ==> buffer[n] == 0x0f
      ensures !useColour ==> width * height / 8 <= buffer.Length
      ensures !useColour ==> forall n :: 0 <= n < width * height / 8 ==> buffer[n] == 0xff
    {
      screenWidth := width;
      screenHeight := height;
      this.useColour := useColour;
      var pitch, fill, white;
      if useColour {
        pitch, fill, white := width, width * height, 0x0f;
      } else {
        pitch := (width + 7) / 8;
        if pitch % 4 != 0 {
          pitch := pitch + (4 - pitch % 4);
        }
        assert pitch == Pitch(width);
        fill, white := width * height / 8, 0xff;
        FillFits(width, height);
      }
      var b := new bv8[pitch * height];
      var n := 0;
      while n < fill
        invariant 0 <= n <= fill <= b.Length
        invariant forall k :: 0 <= k < n ==> b[k] == white
      {
        b[n] := white;
        n := n + 1;
      }
      var table := LineTable(height, pitch);
      buffer := b;
      lines := table;
    }

    /** `SetPixel`: the monochrome bit, or in the colour bitmap the pixel's byte. */
    method SetPixel(x: int, y: int, colour: nat)
      requires Valid()
      modifies buffer
      ensures useColour ==>
        buffer[..] == WithColourPixel(old(buffer[..]), screenWidth, screenHeight, x, y, colour)
      ensures !useColour ==>
        buffer[..] == WithPixel(old(buffer[..]), screenWidth, screenHeight, x, y, colour)
    {
      if x >= 0 && y >= 0 && x < screenWidth && y < screenHeight {
        ghost var before := buffer[..];
        if useColour {
          var index := ColourIndex(screenWidth, screenHeight, x, y);
          var b := Low8(colour);
          buffer[index] := b;
          assert buffer[..] == before[index := b];
        } else {
          // `0x80 >> (x & 7)`, which is `Mask(x)` (MaskIsShift).
          var mask := Mask(x);
          var index := PixelIndex(screenWidth, screenHeight, x, y);
          var b := Painted(buffer[index], mask, colour);
          buffer[index] := b;
          assert buffer[..] == before[index := b];
        }
      }
    }

    /** `InvertPixel`: the monochrome bit flipped, or in the colour bitmap the pixel's byte
        exclusive-or the colour. */
    method InvertPixel(x: int, y: int, colour: nat)
      requires Valid()
      modifies buffer
      ensures useColour ==>
        buffer[..] == WithColourInverted(old(buffer[..]), screenWidth, screenHeight, x, y, colour)
      ensures !useColour ==>
        buffer[..] == WithInverted(old(buffer[..]), screenWidth, screenHeight, x, y)
    {
      if x >= 0 && y >= 0 && x < screenWidth && y < screenHeight {
        ghost var before := buffer[..];
        if useColour {
          var index := ColourIndex(screenWidth, screenHeight, x, y);
          var b := buffer[index] ^ Low8(colour);
          buffer[index] := b;
          assert buffer[..] == before[index := b];
        } else {
          var mask := Mask(x);
          var index := PixelIndex(screenWidth, screenHeight, x, y);
          var b := buffer[index] ^ mask;
          buffer[index] := b;
          assert buffer[..] == before[index := b];
        }
      }
    }
  }

  /** The white fill stays inside the bitmap. */
  lemma FillFits(width: nat, height: nat)
    ensures width * height / 8 <= Pitch(width) * height
  {
    var p := Pitch(width);
    assert 8 * p >= width;
    assert 8 * (p * height) >= width * height by {
      MulLeq(height, width, 8 * p);
      assert height * (8 * p) == 8 * (p * height);
    }
  }
}
