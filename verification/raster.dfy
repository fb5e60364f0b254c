/**
 * The single-channel ('L' mode) mask image and the one drawing primitive the
 * generator uses on it: ImageDraw.rectangle with a fill value.
 *
 * A raster value is a sequence of columns: g[x][y] is the pixel at column x,
 * row y, the pixel `getpixel((x, y))` reads.
 */
module Raster {
  import opened BoxPadding

  /** A grey level of an 'L' mode image. */
  type Byte = x: int | 0 <= x < 256

  const Black: Byte := 0
  const White: Byte := 255

  /** g is width columns of height pixels each. */
  predicate IsGrid(g: seq<seq<Byte>>, width: nat, height: nat) {
    |g| == width && forall x :: 0 <= x < width ==> |g[x]| == height
  }

  /** Every pixel is black or white. */
  predicate Binary(g: seq<seq<Byte>>) {
    forall x, y :: 0 <= x < |g| && 0 <= y < |g[x]| ==> g[x][y] == Black || g[x][y] == White
  }

  /**
   * The pixels ImageDraw.rectangle fills for the corners r: both corners are
   * inclusive. Pixels outside the image are never touched, so the rectangle
   * is clipped to the image.
   */
  predicate Covers(r: Box, x: int, y: int) {
    r.x1 <= x <= r.x2 && r.y1 <= y <= r.y2
  }

  /** `Image.new('L', (width, height), 0)`. */
  function Blank(width: nat, height: nat): (g: seq<seq<Byte>>)
    ensures IsGrid(g, width, height)
    ensures forall x, y :: 0 <= x < width && 0 <= y < height ==> g[x][y] == Black
  {
    seq(width, x => seq(height, y => Black))
  }

  /** The raster after filling the inclusive rectangle r with `fill`. */
  function Paint(g: seq<seq<Byte>>, r: Box, fill: Byte): (g': seq<seq<Byte>>)
    ensures |g'| == |g|
    ensures forall x :: 0 <= x < |g| ==> |g'[x]| == |g[x]|
  {
    seq(|g|, x requires 0 <= x < |g| =>
      seq(|g[x]|, y requires 0 <= y < |g[x]| => if Covers(r, x, y) then fill else g[x][y]))
  }

  /**
   * The mask `create_face_mask` produces: black, with r painted white. It
   * has the image's size, holds only 0 and 255, and a pixel is 255 exactly
   * when the inclusive rectangle covers it.
   */
  function MaskImage(width: nat, height: nat, r: Box): (g: seq<seq<Byte>>)
    ensures IsGrid(g, width, height)
    ensures Binary(g)
    ensures forall x, y :: 0 <= x < width && 0 <= y < height ==> (g[x][y] == White <==> Covers(r, x, y))
  {
    Paint(Blank(width, height), r, White)
  }

  /** Painting changes the covered pixels to `fill` and nothing else. */
  lemma PaintAt(g: seq<seq<Byte>>, r: Box, fill: Byte, x: int, y: int)
    requires 0 <= x < |g| && 0 <= y < |g[x]|
    ensures Paint(g, r, fill)[x][y] == if Covers(r, x, y) then fill else g[x][y]
  {
  }

  /** Painting keeps the size of the image. */
  lemma PaintKeepsGrid(g: seq<seq<Byte>>, r: Box, fill: Byte, width: nat, height: nat)
    requires IsGrid(g, width, height)
    ensures IsGrid(Paint(g, r, fill), width, height)
  {
  }

  /** Painting a black-and-white raster black or white keeps it black-and-white. */
  lemma PaintKeepsBinary(g: seq<seq<Byte>>, r: Box, fill: Byte)
    requires Binary(g) && (fill == Black || fill == White)
    ensures Binary(Paint(g, r, fill))
  {
  }

  /** Painting black onto a blank raster leaves it blank. */
  lemma PaintBlackOnBlank(width: nat, height: nat, r: Box)
    ensures Paint(Blank(width, height), r, Black) == Blank(width, height)
  {
    var g, g' := Blank(width, height), Paint(Blank(width, height), r, Black);
    forall x | 0 <= x < width
      ensures g'[x] == g[x]
    {
    }
  }

  /** A mask buffer: the 'L' image that `create_face_mask` allocates and draws on. */
  class Mask {
    const width: nat
    const height: nat
    const pixels: array2<Byte>

    ghost predicate Valid()
      reads this
    {
      pixels.Length0 == width && pixels.Length1 == height
    }

    /** The pixels as a raster value. */
    ghost function Contents(): (g: seq<seq<Byte>>)
      reads this, pixels
      requires Valid()
      ensures IsGrid(g, width, height)
      ensures forall x, y :: 0 <= x < width && 0 <= y < height ==> g[x][y] == pixels[x, y]
    {
      seq(width, x reads pixels requires 0 <= x < width =>
        seq(height, y reads pixels requires 0 <= y < height => pixels[x, y]))
    }

    /** `Image.new('L', (width, height), 0)`. */
    constructor (width: nat, height: nat)
      ensures Valid() && fresh(pixels)
      ensures this.width == width && this.height == height
      ensures Contents() == Blank(width, height)
    {
      this.width := width;
      this.height := height;
      pixels := new Byte[width, height]((x, y) => Black);
      new;
      assert forall x :: 0 <= x < width ==> Contents()[x] == Blank(width, height)[x];
    }

    /**
     * `ImageDraw.rectangle([r.x1, r.y1, r.x2, r.y2], fill=fill)`: every pixel of
     * the image inside the inclusive rectangle gets `fill`; no other pixel
     * changes.
     */
    method FillRect(r: Box, fill: Byte)
      requires Valid()
      modifies pixels
      ensures Valid()
      ensures Contents() == Paint(old(Contents()), r, fill)
    {
      ghost var before := Contents();
      var xs, xe := Max(r.x1, 0), Min(r.x2 + 1, width);
      var ys, ye := Max(r.y1, 0), Min(r.y2 + 1, height);
      var x := xs;
      while x < xe
        invariant xs <= x && (x <= xe || x == xs)
        invariant forall a, b :: 0 <= a < width && 0 <= b < height ==>
          pixels[a, b] == if a < x && Covers(r, a, b) then fill else before[a][b]
      {
        var y := ys;
        while y < ye
          invariant ys <= y && (y <= ye || y == ys)
          invariant forall a, b :: 0 <= a < width && 0 <= b < height ==>
            pixels[a, b] == if (a < x || (a == x && b < y)) && Covers(r, a, b) then fill else before[a][b]
        {
          pixels[x, y] := fill;
          y := y + 1;
        }
        x := x + 1;
      }
      ghost var after := Paint(before, r, fill);
      forall a | 0 <= a < width
        ensures Contents()[a] == after[a]
      {
      }
    }
  }
}
