/**
 * Bounding boxes and the padding step of `create_face_mask`: each side of the
 * box moves out by a fraction of the box's width or height, truncated to a
 * whole pixel, and the result is clamped to the image.
 */
module BoxPadding {

  /** Opposite corners (x1, y1) and (x2, y2) of an axis-aligned box. */
  datatype Box = Box(x1: int, y1: int, x2: int, y2: int)

  /** The padding factor num/den, kept exact (the source multiplies by a float). */
  datatype Fraction = Fraction(num: int, den: int)

  /** The default padding of `create_face_mask`: 0.1. */
  const DefaultPadding: Fraction := Fraction(1, 10)

  predicate ValidFraction(p: Fraction) { p.den > 0 }

  /** The padding branch is taken exactly when the factor is positive. */
  predicate Positive(p: Fraction) requires ValidFraction(p) { p.num > 0 }

  /** Corners in order: the only boxes the drawing call is given a meaning for. */
  predicate WellFormed(b: Box) { b.x1 <= b.x2 && b.y1 <= b.y2 }

  /** The box lies on the image [0, width] x [0, height]. */
  predicate Inside(b: Box, width: int, height: int) {
    0 <= b.x1 <= b.x2 <= width && 0 <= b.y1 <= b.y2 <= height
  }

  /** `outer` contains `inner`. */
  predicate Contains(outer: Box, inner: Box) {
    outer.x1 <= inner.x1 && outer.y1 <= inner.y1 && inner.x2 <= outer.x2 && inner.y2 <= outer.y2
  }

  function Max(a: int, b: int): int { if a >= b then a else b }

  function Min(a: int, b: int): int { if a <= b then a else b }

  /**
   * `int(extent * padding)` for a non-negative extent and a positive factor:
   * the product is non-negative, so truncation toward zero is floor division.
   */
  function Pad(extent: int, p: Fraction): (pad: int)
    requires ValidFraction(p) && Positive(p) && extent >= 0
    ensures 0 <= pad
    ensures pad * p.den <= extent * p.num < (pad + 1) * p.den
  {
    extent * p.num / p.den
  }

  /**
   * The box handed to the drawing call for image size width x height: with
   * a factor of zero or less the box passes through untouched; otherwise
   * its corners end up clamped to the image.
   */
  function PaddedBox(b: Box, p: Fraction, width: int, height: int): (r: Box)
    requires ValidFraction(p) && WellFormed(b)
    ensures !Positive(p) ==> r == b
    ensures Positive(p) ==> 0 <= r.x1 && 0 <= r.y1 && r.x2 <= width && r.y2 <= height
  {
    if Positive(p) then
      var padX := Pad(b.x2 - b.x1, p);
      var padY := Pad(b.y2 - b.y1, p);
      Box(Max(0, b.x1 - padX), Max(0, b.y1 - padY),
          Min(width, b.x2 + padX), Min(height, b.y2 + padY))
    else
      b
  }

  /**
   * For a box on the image, padding keeps it on the image, keeps it
   * well-formed, and only ever grows it.
   */
  lemma PaddedBoxGrowsInside(b: Box, p: Fraction, width: int, height: int)
    requires ValidFraction(p) && Inside(b, width, height)
    ensures var r := PaddedBox(b, p, width, height);
      Inside(r, width, height) && (Positive(p) ==> Contains(r, b))
  {
  }

  /**
   * Each side moves by exactly the truncated pad unless the image edge stops
   * it first: a side is never pushed past its padded position, and it falls
   * short of that position only by sitting on the edge.
   */
  lemma PaddedBoxExact(b: Box, p: Fraction, width: int, height: int)
    requires ValidFraction(p) && Positive(p) && WellFormed(b)
    ensures var r := PaddedBox(b, p, width, height);
      var padX := Pad(b.x2 - b.x1, p);
      var padY := Pad(b.y2 - b.y1, p);
      && b.x1 - padX <= r.x1 && b.y1 - padY <= r.y1
      && r.x2 <= b.x2 + padX && r.y2 <= b.y2 + padY
      && (r.x1 == b.x1 - padX || r.x1 == 0)
      && (r.y1 == b.y1 - padY || r.y1 == 0)
      && (r.x2 == b.x2 + padX || r.x2 == width)
      && (r.y2 == b.y2 + padY || r.y2 == height)
  {
  }

  /** Truncated padding grows with the factor. */
  lemma PadMonotone(extent: int, p: Fraction, q: Fraction)
    requires ValidFraction(p) && Positive(p) && ValidFraction(q) && Positive(q) && extent >= 0
    requires p.num * q.den <= q.num * p.den
    ensures Pad(extent, p) <= Pad(extent, q)
  {
    FloorChain(Pad(extent, p), p.den, q.den, p.num, q.num, extent, Pad(extent, q));
  }

  /**
   * If a * P <= e * m, m * Q <= n * P and e * n < (c + 1) * Q with P, Q > 0,
   * then a <= c: the step behind the monotonicity of truncated padding.
   */
  lemma FloorChain(a: int, pd: int, qd: int, m: int, n: int, e: int, c: int)
    requires pd > 0 && qd > 0 && e >= 0
    requires a * pd <= e * m
    requires m * qd <= n * pd
    requires e * n < (c + 1) * qd
    ensures a <= c
  {
    var s1, s2 := a * pd, e * m;
    MulLeMono(s1, s2, qd);
    var t, u := m * qd, n * pd;
    MulLeMono(t, u, e);
    assert s2 * qd == t * e by { Assoc3(e, m, qd); }
    var v, w := e * n, (c + 1) * qd;
    MulLtMono(v, w, pd);
    assert u * e == v * pd by { Assoc3(e, n, pd); }
    assert a * (pd * qd) == s1 * qd;
    assert (c + 1) * (pd * qd) == w * pd by { Assoc3(c + 1, qd, pd); }
    if a > c {
      MulLeMono(c + 1, a, pd * qd);
    }
  }

  lemma Assoc3(x: int, y: int, z: int)
    ensures (x * y) * z == (y * z) * x == (x * z) * y == x * (z * y)
  {
  }

  lemma MulLeMono(x: int, y: int, k: int)
    requires x <= y && k >= 0
    ensures x * k <= y * k
  {
  }

  lemma MulLtMono(x: int, y: int, k: int)
    requires x < y && k > 0
    ensures x * k < y * k
  {
  }

  /**
   * A larger padding factor gives a padded box that contains the one a
   * smaller factor gives.
   */
  lemma PaddedBoxMonotone(b: Box, p: Fraction, q: Fraction, width: int, height: int)
    requires ValidFraction(p) && ValidFraction(q) && WellFormed(b)
    requires Positive(p) ==> Positive(q)
    requires Positive(p) ==> p.num * q.den <= q.num * p.den
    requires Inside(b, width, height)
    ensures Contains(PaddedBox(b, q, width, height), PaddedBox(b, p, width, height))
  {
    if Positive(p) {
      PadMonotone(b.x2 - b.x1, p, q);
      PadMonotone(b.y2 - b.y1, p, q);
    } else {
      PaddedBoxGrowsInside(b, q, width, height);
    }
  }

  /**
   * A 1000 x 800 image with the box [313, 203, 762, 830] and padding 0.1:
   * the truncated pads are 44 and 62, and the bottom edge is clamped to the
   * image height.
   */
  lemma DefaultPaddingExample()
    ensures PaddedBox(Box(313, 203, 762, 830), DefaultPadding, 1000, 800) == Box(269, 141, 806, 800)
  {
  }
}
