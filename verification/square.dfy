/**
 Rendering the 256 x 256 square into a locked texture.

 The texture is a row-major buffer of `Width * Height` pixels; pixel (x, y) is
 stored at index `y * Width + x`. The renderer walks the rows top to bottom and
 each row left to right, writing one pixel per visit.
 */
module Square {
  import opened Colour

  const Width: int := 256
  const Height: int := 256
  /** Number of pixels in the texture: 65536. */
  const PixelCount: int := Width * Height

  /** A pixel position in the square. */
  datatype Coord = Coord(x: int, y: int)

  predicate InSquare(c: Coord) {
    0 <= c.x < Width && 0 <= c.y < Height
  }

  /** Buffer index of a position, as written by the pixel callback. */
  function Index(c: Coord): int {
    c.y * Width + c.x
  }

  /** Position stored at a buffer index. */
  function CoordAt(i: int): Coord {
    Coord(i % Width, i / Width)
  }

  /** Every position of the square has an index inside the buffer, and that index leads back to it. */
  lemma IndexInBuffer(c: Coord)
    requires InSquare(c)
    ensures 0 <= Index(c) < PixelCount
    ensures CoordAt(Index(c)) == c
  {
  }

  /** Every buffer index is the index of exactly one position of the square. */
  lemma CoordAtIndex(i: int)
    requires 0 <= i < PixelCount
    ensures InSquare(CoordAt(i))
    ensures Index(CoordAt(i)) == i
  {
  }

  /** The whole square for one offset, as a buffer: each cell holds the colour of its own position. */
  function Frame(shift: int): (f: seq<Rgb>)
    ensures |f| == PixelCount
    ensures forall c :: InSquare(c) ==> f[Index(c)] == PixelColour(c.x, c.y, shift)
  {
    var f := seq(PixelCount, i requires 0 <= i < PixelCount => PixelColour(CoordAt(i).x, CoordAt(i).y, shift));
    assert forall c :: InSquare(c) ==> f[Index(c)] == PixelColour(c.x, c.y, shift) by {
      forall c | InSquare(c)
        ensures f[Index(c)] == PixelColour(c.x, c.y, shift)
      {
        IndexInBuffer(c);
      }
    }
    f
  }

  /**
   The double loop of the renderer. `buffer` is the locked texture with whatever it
   held before. Returns the buffer after rendering and, in order, the positions
   the pixel callback was called with.
   */
  method RenderSquare(shift: int, buffer: seq<Rgb>) returns (pixels: seq<Rgb>, trace: seq<Coord>)
    requires |buffer| == PixelCount
    ensures pixels == Frame(shift)
    ensures |trace| == PixelCount
    ensures forall k :: 0 <= k < |trace| ==> InSquare(trace[k]) && Index(trace[k]) == k
  {
    pixels := buffer;
    trace := [];
    var y := 0;
    while y < Height
      invariant 0 <= y <= Height
      invariant |pixels| == PixelCount
      invariant |trace| == y * Width
      invariant forall k :: 0 <= k < |trace| ==> InSquare(trace[k]) && Index(trace[k]) == k
      invariant forall i :: 0 <= i < y * Width ==> pixels[i] == Frame(shift)[i]
    {
      var x := 0;
      while x < Width
        invariant 0 <= x <= Width
        invariant |pixels| == PixelCount
        invariant |trace| == y * Width + x
        invariant forall k :: 0 <= k < |trace| ==> InSquare(trace[k]) && Index(trace[k]) == k
        invariant forall i :: 0 <= i < y * Width + x ==> pixels[i] == Frame(shift)[i]
      {
        var c := Coord(x, y);
        IndexInBuffer(c);
        pixels := pixels[Index(c) := PixelColour(x, y, shift)];
        trace := trace + [c];
        x := x + 1;
      }
      y := y + 1;
    }
  }

  /**
   What the trace of the renderer means: every position of the square is visited,
   no position is visited twice, and the visits go row by row, left to right.
   */
  lemma TraceIsRowMajor(trace: seq<Coord>)
    requires |trace| == PixelCount
    requires forall k :: 0 <= k < |trace| ==> InSquare(trace[k]) && Index(trace[k]) == k
    ensures forall c :: InSquare(c) ==> 0 <= Index(c) < |trace| && trace[Index(c)] == c
    ensures forall i, j :: 0 <= i < j < |trace| ==> trace[i] != trace[j]
    ensures forall i, j :: 0 <= i < j < |trace| ==>
              trace[i].y < trace[j].y || (trace[i].y == trace[j].y && trace[i].x < trace[j].x)
  {
  }
}
