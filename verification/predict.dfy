/**
 * The batch predictor: it selects the box from the JSON argument, turns the
 * integer padding percentage into a factor, draws a rectangle or an ellipse,
 * and saves the mask under a name and format chosen from the output format.
 *
 * The predictor framework checks the inputs before `predict` runs (padding
 * in 0..50, the shape and the output format from their lists of choices);
 * here those checks are preconditions.
 */
module Predict {
  import opened Wrappers
  import opened Json
  import opened BoxPadding
  import opened Raster
  import opened BBoxInput

  const ErrorPrefix := "Error parsing bbox JSON: "
  const InvalidFormat := "Invalid bbox format. Expected {\"bbox\": [x1, y1, x2, y2]} or [x1, y1, x2, y2]"

  /**
   * The box selection of `predict`. The ValueError raised for a wrong shape
   * is caught by the surrounding handler and raised again with its prefix,
   * so both failures carry "Error parsing bbox JSON: " (the text of a JSON
   * decode error is not modelled).
   */
  function PredictBBox(parsed: Option<JValue>): (r: Result<JValue, string>)
    ensures r.Ok? <==> parsed.Some? && SelectBBox(parsed.value).Some?
    ensures r.Ok? ==> r.value == SelectBBox(parsed.value).value
    ensures parsed.Some? && r.Err? ==> r.error == ErrorPrefix + InvalidFormat
    ensures parsed.None? ==> r.error == ErrorPrefix
  {
    match parsed
    case None => Err(ErrorPrefix)
    case Some(v) =>
      match SelectBBox(v)
      case Some(bbox) => Ok(bbox)
      case None => Err(ErrorPrefix + InvalidFormat)
  }

  /** How `predict` fails before a mask is drawn. */
  datatype PredictFailure =
    | Rejected(message: string)  // the ValueError raised by the selection handler
    | Raised                     // an exception from `create_face_mask`, not re-wrapped

  /**
   * The box `create_face_mask` draws: the selected value must unpack to four
   * numbers, and when it does not, the exception comes from outside the
   * handler and carries no "Error parsing bbox JSON: " prefix.
   */
  function PredictMaskBox(parsed: Option<JValue>): (r: Result<Box, PredictFailure>)
    ensures r.Ok? <==> PredictBBox(parsed).Ok? && UnpackBox(PredictBBox(parsed).value).Some?
    ensures r.Ok? ==> BoxToJson(r.value) == PredictBBox(parsed).value
    ensures PredictBBox(parsed).Err? ==> r == Err(Rejected(PredictBBox(parsed).error))
    ensures PredictBBox(parsed).Ok? && r.Err? ==> r == Err(Raised)
  {
    match PredictBBox(parsed)
    case Err(message) => Err(Rejected(message))
    case Ok(bbox) =>
      match UnpackBox(bbox)
      case Some(b) => UnpackBoxToJson(b, bbox); Ok(b)
      case None => Err(Raised)
  }

  /** `padding/100`: the percentage as an exact factor. */
  function PercentPadding(percent: int): (p: Fraction)
    requires 0 <= percent <= 50
    ensures ValidFraction(p) && p.num * 100 == percent * p.den
    ensures Positive(p) <==> percent > 0
  {
    Fraction(percent, 100)
  }

  /** A percentage of 0 leaves the box as given. */
  lemma ZeroPercentUnpadded(b: Box, width: int, height: int)
    requires WellFormed(b)
    ensures PaddedBox(b, PercentPadding(0), width, height) == b
  {
  }

  /** A larger percentage gives a padded box containing the smaller one's. */
  lemma PercentMonotone(b: Box, p: int, q: int, width: int, height: int)
    requires 0 <= p <= q <= 50 && Inside(b, width, height)
    ensures Contains(PaddedBox(b, PercentPadding(q), width, height), PaddedBox(b, PercentPadding(p), width, height))
  {
    PaddedBoxMonotone(b, PercentPadding(p), PercentPadding(q), width, height);
  }

  /** The corners handed to `draw.ellipse`: centre minus and plus the radii. */
  datatype EllipseBox = EllipseBox(left: real, top: real, right: real, bottom: real)

  /**
   * The ellipse's bounding box as `create_face_mask` computes it, from the
   * centre and the radii of the padded box (exact here; the source divides
   * in floating point). It gives back the padded box's own corners.
   */
  function EllipseArgs(b: Box): (e: EllipseBox)
    ensures e == EllipseBox(b.x1 as real, b.y1 as real, b.x2 as real, b.y2 as real)
  {
    var cx, cy := (b.x1 + b.x2) as real / 2.0, (b.y1 + b.y2) as real / 2.0;
    var rx, ry := (b.x2 - b.x1) as real / 2.0, (b.y2 - b.y1) as real / 2.0;
    EllipseBox(cx - rx, cy - ry, cx + rx, cy + ry)
  }

  /**
   * `Predictor.create_face_mask`: a black mask of the image's size, the box
   * padded and clamped when the factor is positive, the padded rectangle
   * painted black (which changes nothing), and then either the rectangle
   * painted white or, for "circle", an ellipse with fill 255 drawn in the
   * padded box. The ellipse's pixels are not modelled: for "circle" the
   * mask is returned as it stands before that call, with the ellipse's
   * bounding box beside it.
   */
  method CreateShapedMask(width: nat, height: nat, bbox: Box, padding: Fraction, maskShape: string)
    returns (mask: Mask, ellipse: Option<EllipseBox>)
    requires ValidFraction(padding) && WellFormed(bbox)
    ensures mask.Valid() && fresh(mask.pixels)
    ensures mask.width == width && mask.height == height
    ensures var padded := PaddedBox(bbox, padding, width, height);
      if maskShape == "circle" then
        mask.Contents() == Blank(width, height) && ellipse == Some(EllipseArgs(padded))
      else
        mask.Contents() == MaskImage(width, height, padded) && ellipse == None
  {
    mask := new Mask(width, height);
    var x1, y1, x2, y2 := bbox.x1, bbox.y1, bbox.x2, bbox.y2;
    if padding.num > 0 {
      var w := x2 - x1;
      var h := y2 - y1;
      var padX := w * padding.num / padding.den;
      var padY := h * padding.num / padding.den;
      x1 := if 0 >= x1 - padX then 0 else x1 - padX;
      y1 := if 0 >= y1 - padY then 0 else y1 - padY;
      x2 := if width <= x2 + padX then width else x2 + padX;
      y2 := if height <= y2 + padY then height else y2 + padY;
    }
    var box := Box(x1, y1, x2, y2);
    mask.FillRect(box, Black);
    PaintBlackOnBlank(width, height, box);
    if maskShape == "circle" {
      ellipse := Some(EllipseArgs(box));
    } else {
      mask.FillRect(box, White);
      ellipse := None;
    }
  }

  /** `ext.upper()` and `output_format.lower()`, on ASCII letters. */
  function UpperChar(c: char): char {
    if 'a' <= c <= 'z' then (c as int - 32) as char else c
  }

  function LowerChar(c: char): char {
    if 'A' <= c <= 'Z' then (c as int + 32) as char else c
  }

  function Upper(s: string): (r: string)
    ensures |r| == |s| && forall i :: 0 <= i < |s| ==> r[i] == UpperChar(s[i])
  {
    seq(|s|, i requires 0 <= i < |s| => UpperChar(s[i]))
  }

  function Lower(s: string): (r: string)
    ensures |r| == |s| && forall i :: 0 <= i < |s| ==> r[i] == LowerChar(s[i])
  {
    seq(|s|, i requires 0 <= i < |s| => LowerChar(s[i]))
  }

  /**
   * The format name the mask is saved with: "jpg" (in any case) becomes
   * JPEG, any other format its upper-case spelling.
   */
  function SaveFormat(outputFormat: string): (name: string)
    ensures Lower(outputFormat) == "jpg" ==> name == "JPEG"
    ensures forall i :: 0 <= i < |name| ==> !('a' <= name[i] <= 'z')
  {
    var ext := Lower(outputFormat);
    Upper(if ext == "jpg" then "jpeg" else ext)
  }

  /** The file the mask is saved to keeps the output format as the user spelled it. */
  function OutputPath(outputFormat: string): (path: string)
    ensures |path| == |"/tmp/face_mask."| + |outputFormat|
    ensures path[..|"/tmp/face_mask."|] == "/tmp/face_mask."
    ensures path[|"/tmp/face_mask."|..] == outputFormat
  {
    "/tmp/face_mask." + outputFormat
  }

  /** The two offered formats map to PIL's format names PNG and JPEG. */
  lemma SaveFormatChoices()
    ensures SaveFormat("png") == "PNG"
    ensures SaveFormat("jpg") == "JPEG"
  {
    assert Lower("png") == "png";
    assert Lower("jpg") == "jpg";
    assert Upper("jpeg") == "JPEG";
    assert Upper("png") == "PNG";
  }

  /** The saved format ignores the case of the output format. */
  lemma SaveFormatCaseInsensitive(outputFormat: string)
    ensures SaveFormat(Lower(outputFormat)) == SaveFormat(outputFormat)
  {
    assert Lower(Lower(outputFormat)) == Lower(outputFormat);
  }

  /**
   * The format is chosen from the lower-cased output format but the file
   * name from the output format as given: two spellings that differ in case
   * save in the same format under different names.
   */
  lemma OutputPathKeepsSpelling(outputFormat: string)
    requires Lower(outputFormat) != outputFormat
    ensures SaveFormat(outputFormat) == SaveFormat(Lower(outputFormat))
    ensures OutputPath(outputFormat) != OutputPath(Lower(outputFormat))
  {
    SaveFormatCaseInsensitive(outputFormat);
    var n := |"/tmp/face_mask."|;
    assert OutputPath(Lower(outputFormat))[n..] == Lower(outputFormat);
  }
}
