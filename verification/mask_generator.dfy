/**
 * `create_face_mask` as the web app and the command-line tool both define it
 * (the two copies draw the same mask; they differ only in saving the file).
 */
module MaskGenerator {
  import opened BoxPadding
  import opened Raster

  /**
   * Allocates a black mask of the image's size, pads and clamps the box when
   * the padding factor is positive, and paints the resulting inclusive
   * rectangle white. The image is given by its size only.
   */
  method CreateFaceMask(width: nat, height: nat, bbox: Box, padding: Fraction) returns (mask: Mask)
    requires ValidFraction(padding) && WellFormed(bbox)
    ensures mask.Valid() && fresh(mask.pixels)
    ensures mask.width == width && mask.height == height
    ensures mask.Contents() == MaskImage(width, height, PaddedBox(bbox, padding, width, height))
  {
    mask := new Mask(width, height);
    var x1, y1, x2, y2 := bbox.x1, bbox.y1, bbox.x2, bbox.y2;
    if padding.num > 0 {
      var w := x2 - x1;
      var h := y2 - y1;
      var padX := w * padding.num / padding.den;
      var padY := h * padding.num / padding.den;
      x1 := if 0 >= x1 - padX then 0 else x1 - padX;
      y1 := if 0 >= y1 - padY then 0 else y1 - padY;
      x2 := if width <= x2 + padX then width else x2 + padX;
      y2 := if height <= y2 + padY then height else y2 + padY;
    }
    mask.FillRect(Box(x1, y1, x2, y2), White);
  }

  /**
   * For a box on the image and a positive padding factor, every pixel of the
   * original box is white in the mask: padding never uncovers the face.
   */
  lemma MaskCoversBox(width: nat, height: nat, bbox: Box, padding: Fraction, x: int, y: int)
    requires ValidFraction(padding) && Positive(padding) && Inside(bbox, width, height)
    requires 0 <= x < width && 0 <= y < height && Covers(bbox, x, y)
    ensures MaskImage(width, height, PaddedBox(bbox, padding, width, height))[x][y] == White
  {
    PaddedBoxGrowsInside(bbox, padding, width, height);
  }
}
