/**
 The per-pixel colour of the animated square.

 Every channel of a pixel is a `Uint8`. The demo computes each channel in `int`
 and converts it back to `Uint8`, which in C++ keeps the value modulo 2^8 (also
 for negative values). Dafny's `%` with a positive divisor is Euclidean, so
 `v % 256` is exactly that conversion.
 */
module Colour {

  /** An unsigned 8-bit channel value. */
  type Byte = v: int | 0 <= v < 256

  /** A pixel as its three colour channels; the alpha channel is always opaque. */
  datatype Rgb = Rgb(r: Byte, g: Byte, b: Byte)

  /** Conversion of an `int` to `Uint8`: the one byte congruent to `v` modulo 256. */
  function ToByte(v: int): (b: Byte)
    ensures (v - b) % 256 == 0
    ensures 0 <= v < 256 ==> b == v
  {
    v % 256
  }

  /** Adding a multiple of 256 does not change the converted byte. */
  lemma ToByteOfMultiple(v: int, k: int)
    ensures ToByte(v + 256 * k) == ToByte(v)
  {
  }

  /** Converting twice is converting once: the inner conversion can be skipped. */
  lemma ToByteAbsorbs(a: int, b: int)
    ensures ToByte(ToByte(a) + b) == ToByte(a + b)
  {
  }

  /**
   Colour of pixel (x, y) for the animation offset `shift`, computed the way the
   square is rendered: a base gradient (y, x, 255 - y), each channel already
   truncated to a byte, then rotated by shift, -3 * shift and 2 * shift and
   truncated again.
   */
  function PixelColour(x: int, y: int, shift: int): (c: Rgb)
    ensures c.r == (y + shift) % 256
    ensures c.g == (x - 3 * shift) % 256
    ensures c.b == (255 - y + 2 * shift) % 256
  {
    ToByteAbsorbs(y, shift);
    ToByteAbsorbs(x, -(shift * 3));
    ToByteAbsorbs(255 - y, shift * 2);
    var r := ToByte(y);
    var g := ToByte(x);
    var b := ToByte(255 - y);
    Rgb(ToByte(r + shift), ToByte(g - shift * 3), ToByte(b + shift * 2))
  }

  /** With no offset, a pixel of the square shows the base gradient (y, x, 255 - y). */
  lemma BaseGradient(x: int, y: int)
    requires 0 <= x < 256 && 0 <= y < 256
    ensures PixelColour(x, y, 0) == Rgb(y, x, 255 - y)
  {
  }

  /** The colour depends on the offset only modulo 256: offset 256 paints the same square as 0. */
  lemma {:induction false} ShiftPeriod(x: int, y: int, shift: int)
    ensures PixelColour(x, y, shift + 256) == PixelColour(x, y, shift)
  {
    ToByteOfMultiple(y + shift, 1);
    ToByteOfMultiple(x - 3 * shift, -3);
    ToByteOfMultiple(255 - y + 2 * shift, 2);
  }

  /**
   One step of the offset rotates the channels by +1, -3 and +2 modulo 256,
   which is what makes the colours drift from one frame to the next.
   */
  lemma {:induction false} ShiftRotates(x: int, y: int, shift: int)
    ensures var c, d := PixelColour(x, y, shift), PixelColour(x, y, shift + 1);
      && d.r == ToByte(c.r + 1)
      && d.g == ToByte(c.g - 3)
      && d.b == ToByte(c.b + 2)
  {
    ToByteAbsorbs(y + shift, 1);
    ToByteAbsorbs(x - 3 * shift, -3);
    ToByteAbsorbs(255 - y + 2 * shift, 2);
  }
}
