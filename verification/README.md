# Face-mask generator, modelled in Dafny

The BBox-Mask-Generator takes an image and a face bounding box (usually the
output of a face detector) and draws a black-and-white inpainting mask: a
single-channel image of the same size, black everywhere except a white
rectangle (or, in the batch predictor, an ellipse) over the box, optionally
padded by a fraction of the box's size and clamped to the image.

The same drawing routine, `create_face_mask`, is copied into three entry
points, and each has its own handling of the box it is given:

- `app.py`, a web app: the JSON API endpoint picks the box from a JSON field
  or from four coordinate fields, and a parse endpoint hands the four
  coordinates back to the browser form;
- `predict.py`, a batch predictor: an integer padding percentage, a choice of
  rectangle or circle, and a choice of PNG or JPEG output;
- `generate_mask.py`, a command-line tool: argument check, box selection and
  the output file name derived from the image's name.

Modules:

- `Json` (json.dfy): the parsed JSON value the entry points inspect.
- `BBoxInput` (bbox_input.dfy): the two accepted box shapes, shared by all
  three entry points, and Python's tuple unpacking and subscripting of them.
- `BoxPadding` (box_padding.dfy): boxes, the padding factor as an exact
  fraction, and the padded, clamped box as a function with its properties.
- `Raster` (raster.dfy): the mask raster as a value, the `Mask` class holding
  the pixel buffer as an `array2`, and `FillRect`, whose loops paint a
  rectangle in place.
- `MaskGenerator` (mask_generator.dfy): `create_face_mask` of `app.py` and
  `generate_mask.py`, which are the same code, as one method.
- `App`, `Predict`, `GenerateMask`: the entry-point logic of each file.

Assumptions about the drawing library, stated here because its source is not
part of this model: `ImageDraw.rectangle([x1, y1, x2, y2], fill)` fills every
pixel (x, y) with x1 <= x <= x2 and y1 <= y <= y2 (both corners inclusive)
and never writes outside the image (the rectangle is clipped). `Image.new('L',
size, 0)` gives a black image of that size. A raster value `g` is a sequence
of columns: `g[x][y]` is the pixel that `getpixel((x, y))` reads.

Three facts of the code worth stating up front:

- the pad is `int(extent * padding)`, truncated toward zero; for a 1000 x 800
  image, box [313, 203, 762, 830] and padding 0.1 the pads are 44 and 62 and
  the box drawn is [269, 141, 806, 800] (`BoxPadding.DefaultPaddingExample`);
- the white rectangle includes its far corner (PIL's inclusive rectangle),
  so x2 and y2 themselves are painted when they lie on the image;
- the far corner is clamped to `width` and `height`, one past the last
  pixel; for a box on the image this keeps x2' >= x2 and y2' >= y2, so the
  box's own far column and row stay painted (`BoxPadding.PaddedBoxGrowsInside`).

## Model

| member | source | states |
|---|---|---|
| BoxPadding.Pad | app.py:92-95 | the pad is the truncated product: non-negative, and pad <= extent * padding < pad + 1 |
| BoxPadding.PaddedBox | app.py:91-99 | with a padding factor of zero or less the box drawn is exactly the input box; with a positive factor x1 >= 0, y1 >= 0, x2 <= image width and y2 <= image height |
| BoxPadding.PaddedBoxGrowsInside | app.py:92-99 | a box on the image stays on the image and well-formed after padding, and with a positive factor the padded box contains the original |
| BoxPadding.PaddedBoxExact | generate_mask.py:42-47 | each side moves out by exactly its truncated pad unless the image edge stops it: never past its padded position, and short of it only when sitting on the edge |
| BoxPadding.PadMonotone | app.py:94-95 | the truncated pad never decreases when the padding factor grows |
| BoxPadding.PaddedBoxMonotone | app.py:91-99 | for a box on the image, a larger padding factor gives a padded box that contains the smaller factor's |
| BoxPadding.DefaultPaddingExample | generate_mask.py:39-47 | the 1000 x 800 example with padding 0.1 draws [269, 141, 806, 800]: pads 44 and 62, bottom clamped |
| Raster.Blank | app.py:84 | the new mask has the given width and height and every pixel is 0 |
| Raster.Paint | app.py:102 | painting keeps the raster's width and every column's height |
| Raster.PaintAt | app.py:102 | after painting, a pixel holds the fill exactly when the inclusive rectangle covers it, and its old value otherwise |
| Raster.PaintKeepsGrid | predict.py:95 | painting keeps the image size |
| Raster.PaintKeepsBinary | predict.py:95-111 | painting a 0/255 raster with 0 or 255 leaves only 0 and 255 |
| Raster.PaintBlackOnBlank | predict.py:95 | the first, black rectangle on the fresh black mask changes nothing |
| Raster.MaskImage | app.py:84-102 | the mask has the image's width and height, holds only 0 and 255, and a pixel is 255 exactly when it lies in the inclusive rectangle; all others stay 0 |
| Raster.Mask.Contents | app.py:84 | the buffer read as a raster has the mask's width and height and agrees with the array pixel by pixel |
| Raster.Mask.constructor | app.py:84 | a fresh buffer of the given size, all 0 |
| Raster.Mask.FillRect | app.py:102 | the buffer afterwards is the old one with exactly the clipped inclusive rectangle set to the fill value; nothing else changes |
| MaskGenerator.CreateFaceMask | app.py:84-102 | a fresh mask of the image's size whose pixels are the white padded and clamped rectangle on black (generate_mask.py:32-50 is the same code) |
| MaskGenerator.MaskCoversBox | generate_mask.py:39-50 | for a box on the image and a positive padding, every pixel of the original box is white in the mask |
| BBoxInput.SelectBBox | app.py:122-127 | an object with a "bbox" key yields that value, a four-item list yields itself, anything else is refused, in both directions |
| BBoxInput.UnpackBox | app.py:88-95 | `create_face_mask` gets past the unpacking `x1, y1, x2, y2 = bbox` and the padding arithmetic exactly for a list of four numbers (a four-character string or four-key object unpacks but then fails at `x2 - x1` or in the drawing call) |
| BBoxInput.UnpackBoxToJson | app.py:88 | a box written as a four-number list unpacks to itself, and no other value unpacks to that box |
| BBoxInput.WrappedMatchesBare | predict.py:50-55 | a box wrapped in an object with any other fields selects the same value as the bare list |
| BBoxInput.ObjectFormNotLengthChecked | generate_mask.py:73-79 | the "bbox" value of an object is taken whatever its length, while a list of any other length than four is refused |
| BBoxInput.Subscript | app.py:210-213 | `v[i]` gives a list's item or a string's character when i is in range, and raises otherwise |
| App.FormInt | app.py:130-133 | a form field that is absent reads as 0, a present one as what `int` makes of its text (None when `int` raises) |
| App.FormBox | app.py:130-133 | the form box exists exactly when every submitted coordinate field converts, and holds the four converted values |
| App.ApiBBox | app.py:117-135 | with JSON: succeeds exactly when the value parses and has one of the two shapes, giving the selected value; a wrong shape is "Invalid bbox format", status 400; without JSON: the form box; every error is status 400 |
| App.ApiDefaultBox | app.py:128-133 | without JSON and without coordinate fields the box is [0, 0, 0, 0] |
| App.ApiMaskBox | app.py:117-161 | the handler's 400 answers are kept; a selected value that unpacks to four numbers is drawn as that box; any other selected value fails in `create_face_mask`, outside the handler, as a server error |
| App.ShortWrappedBoxIsServerError | app.py:122-153 | an object whose "bbox" list does not have four items passes the handler and ends in a server error, not a 400 |
| App.ParseBBox | app.py:195-226 | an empty string gives "No bbox data provided"; a four-item list gives its items as x1, y1, x2, y2; any other shape gives "Invalid bbox format"; every error is status 400 |
| App.ParseWrappedList | app.py:207-214 | an object's "bbox" list of four or more items gives its first four; a shorter one fails inside the handler with status 400 |
| App.ParseAgreesWithApi | app.py:119-127 | when the API endpoint would take a four-number list, the parse endpoint returns those four numbers |
| Predict.PredictBBox | predict.py:45-58 | succeeds exactly when the JSON parses and has one of the two shapes, giving the selected value; a wrong shape raises with the re-wrapped message "Error parsing bbox JSON: Invalid bbox format. ..." |
| Predict.PredictMaskBox | predict.py:47-81 | selection errors keep their "Error parsing bbox JSON: " message; a selected value that unpacks to four numbers is drawn as that box; any other raises from `create_face_mask`, without that prefix |
| Predict.PercentPadding | predict.py:61 | the percentage p (0..50, predict.py:22-27) becomes the factor p/100, positive exactly when p > 0 |
| Predict.ZeroPercentUnpadded | predict.py:84-92 | a percentage of 0 leaves the box unchanged |
| Predict.PercentMonotone | predict.py:84-92 | for a box on the image, a larger percentage gives a padded box containing the smaller one's |
| Predict.EllipseArgs | predict.py:99-106 | centre minus and plus the radii gives back exactly the padded corners, so the ellipse's bounding box is the padded box |
| Predict.CreateShapedMask | predict.py:74-113 | a fresh mask of the image's size; for "circle" it is unchanged by the black rectangle and the ellipse gets the padded box; for any other shape it is the white padded rectangle on black |
| Predict.Upper | predict.py:69 | `str.upper` maps each ASCII letter to its upper-case form and keeps every other character |
| Predict.Lower | predict.py:64 | `str.lower` maps each ASCII letter to its lower-case form and keeps every other character |
| Predict.SaveFormat | predict.py:64-69 | "jpg" in any case is saved as JPEG, and the format name never contains a lower-case letter |
| Predict.OutputPathKeepsSpelling | predict.py:64-67 | two output formats that differ only in case save in the same format under different file names: the name keeps the spelling as given |
| Predict.SaveFormatChoices | predict.py:64-69 | "png" is saved as PNG and "jpg" as JPEG |
| Predict.SaveFormatCaseInsensitive | predict.py:64-69 | the saved format does not depend on the case of the output format |
| GenerateMask.RFind | generate_mask.py:91 | the last index holding the character, or -1 when there is none |
| GenerateMask.Basename | generate_mask.py:91 | the base name has no '/', ends the path, and is preceded by a '/' unless it is the whole path |
| GenerateMask.Stem | generate_mask.py:91 | the stem is a prefix of the name; it is the whole name when there is no '.'; otherwise what is cut starts at the last '.' and the stem is not all dots |
| GenerateMask.MaskPath | generate_mask.py:91-92 | the mask path lies directly in output/ and ends in "_mask.png" |
| GenerateMask.Main | generate_mask.py:60-95 | fewer than three arguments print the usage; a decode failure prints "Invalid JSON format"; a wrong shape prints "Invalid bbox format"; a confidence that cannot be formatted or a selected value that does not unpack to four numbers raises and no mask is written; otherwise the mask for argv[1] is drawn for the unpacked box and saved at its mask path |
| GenerateMask.ShortWrappedBoxRaises | generate_mask.py:73-95 | an object whose "bbox" list has three numbers passes the selection yet no mask is drawn |
| GenerateMask.BasenameOfJoin | generate_mask.py:91 | the base name of dir/name is name whatever dir is |
| GenerateMask.StemOfExtension | generate_mask.py:91 | cutting the extension of base.ext, where ext has no '.', gives back base |
| GenerateMask.StemOfHiddenName | generate_mask.py:91 | a name whose only '.' is its first character has no extension |
| GenerateMask.MaskPathOfImage | generate_mask.py:91-92 | the mask of dir/base.ext is output/base_mask.png |
| GenerateMask.MaskPathOfHiddenImage | generate_mask.py:91-92 | the mask of dir/.name is output/.name_mask.png |

## Left out

- Loading and saving images, the URL fetch, base64 encoding, Flask routing, templates and `send_file` are I/O; the image enters the model as its width and height only.
- `json.loads` is not modelled: its outcome is a parameter of each entry point, None when it raises.
- Coordinates and the padding factor are exact integers and fractions. The source multiplies floats, so `int(100 * 0.29)` is 28 there while the model's exact truncation gives 29; float coordinates, which the source accepts (`[10.5, 20, 100, 200]` draws a mask), cannot be represented in `Json.JValue` and are outside the model; boolean coordinates, which Python reads as 0 and 1, make `UnpackBox` fail here.
- CreateShapedMask: the pixels PIL's `draw.ellipse` fills for "circle" are not modelled (its algorithm is not part of this model); the method returns the mask before that call and the ellipse's bounding box.
- Raster.Mask.FillRect: a box with x1 > x2 or y1 > y2 paints nothing here; recent Pillow releases raise an error for it instead. Such a box can reach the drawing call when the input box lies wholly off the image on any side and clamping moves one corner past the other (for example [-100, 0, -50, 10] with padding 0.1 becomes [0, 0, -45, 11]). Input boxes with x1 > x2 or y1 > y2 are excluded by the precondition `WellFormed`.
- App.ApiMaskBox: the upload checks of the endpoint, "No image provided" (app.py:113-114) and "No selected file" (app.py:144-145), are not modelled; where they answer 400 no box is drawn even when `ApiMaskBox` gives `Draw`.
- App.ApiBBox, App.ParseBBox, Predict.PredictBBox: the text of a caught exception (`str(e)`) is not modelled; such errors carry the handler's fixed prefix only.
- App.ParseBBox: the request body is taken to hold `bbox_str` as a string; a body that is not an object, or a `bbox_str` that is not a string, is not modelled.
- Predict.Upper, Predict.Lower: only ASCII letters change case; Python's case mapping of other characters is not modelled. The framework's choices limit the output format to "png" and "jpg" anyway.
- The framework's input checks (padding 0..50, the shape and format choices) are preconditions or not modelled.
- The text of the confidence line the command-line tool prints, the "Mask saved to" line and the closing lines of `main` are not modelled; only whether formatting the confidence raises is (`GenerateMask.ConfidenceRaises`), with integer confidences assumed to stay within float range once multiplied by 100 (a larger one makes the format raise OverflowError in the source).
- The fixed output file names shared by all requests matter only under concurrent requests, which are not modelled.
- `mask.convert("L")` in `predict` is the identity on an 'L' image and is not modelled.
