/**
 * The bounding-box handling of the web app: the JSON API endpoint, which
 * picks the box for `create_face_mask`, and the parse endpoint, which hands
 * the four coordinates back to the browser form.
 *
 * `json.loads` is not modelled: its outcome is a parameter, None when it
 * raises. Exception texts are not modelled either: an error caught by an
 * `except Exception` handler carries the handler's fixed message prefix.
 */
module App {
  import opened Wrappers
  import opened Json
  import opened BoxPadding
  import opened BBoxInput

  /** A JSON error response with its HTTP status. */
  datatype ApiError = ApiError(status: int, message: string)

  /** The four coordinates the parse endpoint returns, as the JSON values found. */
  datatype Coords = Coords(x1: JValue, y1: JValue, x2: JValue, y2: JValue)

  const InvalidFormat := "Invalid bbox format"
  const InvalidFormatException := "Invalid bbox format: "
  const NoBboxData := "No bbox data provided"
  const ParseException := "Error parsing bbox: "

  /**
   * `int(request.form.get(key, 0))`. The form maps each submitted field to
   * what `int` makes of its text, None when `int` raises; an absent field
   * reads as 0.
   */
  function FormInt(form: map<string, Option<int>>, key: string): (r: Option<int>)
    ensures key !in form ==> r == Some(0)
    ensures key in form ==> r == form[key]
  {
    if key in form then form[key] else Some(0)
  }

  /** The box from the form fields x1, y1, x2, y2, when all four convert. */
  function FormBox(form: map<string, Option<int>>): (r: Option<Box>)
    ensures r.Some? <==> forall k :: k in form && k in {"x1", "y1", "x2", "y2"} ==> form[k].Some?
    ensures r.Some? ==> r.value == Box(FormInt(form, "x1").value, FormInt(form, "y1").value,
                                       FormInt(form, "x2").value, FormInt(form, "y2").value)
  {
    var x1, y1, x2, y2 := FormInt(form, "x1"), FormInt(form, "y1"), FormInt(form, "x2"), FormInt(form, "y2");
    if x1.Some? && y1.Some? && x2.Some? && y2.Some? then Some(Box(x1.value, y1.value, x2.value, y2.value))
    else None
  }

  /**
   * The box `generate_mask_api` passes on: from the JSON in the "bbox" field
   * when that field is non-empty, otherwise from the coordinate fields. Every
   * failure is a 400 response.
   */
  function ApiBBox(bboxStr: string, parsed: Option<JValue>, form: map<string, Option<int>>): (r: Result<JValue, ApiError>)
    ensures r.Err? ==> r.error.status == 400
    ensures bboxStr != "" ==>
      (r.Ok? <==> parsed.Some? && SelectBBox(parsed.value).Some?)
      && (r.Ok? ==> r.value == SelectBBox(parsed.value).value)
      && (parsed.Some? && SelectBBox(parsed.value).None? ==> r == Err(ApiError(400, InvalidFormat)))
    ensures bboxStr == "" ==>
      (r.Ok? <==> FormBox(form).Some?) && (r.Ok? ==> r.value == BoxToJson(FormBox(form).value))
  {
    if bboxStr != "" then
      match parsed
      case None => Err(ApiError(400, InvalidFormatException))
      case Some(v) =>
        match SelectBBox(v)
        case Some(bbox) => Ok(bbox)
        case None => Err(ApiError(400, InvalidFormat))
    else
      match FormBox(form)
      case Some(b) => Ok(BoxToJson(b))
      case None => Err(ApiError(400, InvalidFormatException))
  }

  /** With neither JSON nor coordinate fields the API falls back to the box [0, 0, 0, 0]. */
  lemma ApiDefaultBox(parsed: Option<JValue>)
    ensures ApiBBox("", parsed, map[]) == Ok(BoxToJson(Box(0, 0, 0, 0)))
  {
  }

  /**
   * The handler of the parse endpoint, after `data.get('bbox_str', '')`: an
   * empty string is refused, a four-item list gives its items, an object's
   * "bbox" value gives its items 0 to 3 (any length of at least four is
   * accepted; a shorter one raises inside the handler), anything else is an
   * invalid format.
   */
  function ParseBBox(bboxStr: string, parsed: Option<JValue>): (r: Result<Coords, ApiError>)
    ensures r.Err? ==> r.error.status == 400
    ensures bboxStr == "" ==> r == Err(ApiError(400, NoBboxData))
    ensures bboxStr != "" && parsed.None? ==> r == Err(ApiError(400, ParseException))
    ensures bboxStr != "" && parsed.Some? && parsed.value.JList? && |parsed.value.items| == 4 ==>
      var xs := parsed.value.items; r == Ok(Coords(xs[0], xs[1], xs[2], xs[3]))
    ensures bboxStr != "" && parsed.Some? && SelectBBox(parsed.value).None? ==>
      r == Err(ApiError(400, InvalidFormat))
  {
    if bboxStr == "" then Err(ApiError(400, NoBboxData))
    else
      match parsed
      case None => Err(ApiError(400, ParseException))
      case Some(v) =>
        if v.JObject? && "bbox" in v.fields then
          var bbox := v.fields["bbox"];
          var x1, y1, x2, y2 := Subscript(bbox, 0), Subscript(bbox, 1), Subscript(bbox, 2), Subscript(bbox, 3);
          if x1.Some? && y1.Some? && x2.Some? && y2.Some? then Ok(Coords(x1.value, y1.value, x2.value, y2.value))
          else Err(ApiError(400, ParseException))
        else if v.JList? && |v.items| == 4 then
          Ok(Coords(v.items[0], v.items[1], v.items[2], v.items[3]))
        else
          Err(ApiError(400, InvalidFormat))
  }

  /**
   * The object form is not length-checked: a "bbox" list of four or more
   * items gives its first four, a shorter one is an error raised while
   * reading it.
   */
  lemma ParseWrappedList(bboxStr: string, fields: map<string, JValue>, xs: seq<JValue>)
    requires bboxStr != "" && "bbox" in fields && fields["bbox"] == JList(xs)
    ensures |xs| >= 4 ==> ParseBBox(bboxStr, Some(JObject(fields))) == Ok(Coords(xs[0], xs[1], xs[2], xs[3]))
    ensures |xs| < 4 ==> ParseBBox(bboxStr, Some(JObject(fields))) == Err(ApiError(400, ParseException))
  {
  }

  /**
   * Where the two endpoints meet: when the API would draw a box given as a
   * list of four numbers, the parse endpoint returns exactly those four
   * numbers.
   */
  lemma ParseAgreesWithApi(bboxStr: string, parsed: Option<JValue>, form: map<string, Option<int>>, b: Box)
    requires bboxStr != ""
    requires ApiBBox(bboxStr, parsed, form) == Ok(BoxToJson(b))
    ensures ParseBBox(bboxStr, parsed) == Ok(Coords(JNum(b.x1), JNum(b.y1), JNum(b.x2), JNum(b.y2)))
  {
  }

  /** How the API endpoint answers once it has a box to draw or has given up. */
  datatype ApiAnswer =
    | BadRequest(error: ApiError)  // a 400 response from the bbox handler
    | ServerError                  // an exception from `create_face_mask`, outside the handler
    | Draw(box: Box)               // `create_face_mask` draws this box

  /**
   * The box selection composed with the unpacking in `create_face_mask`,
   * which runs after the handler: a selected value that is not four numbers
   * makes the request fail with a server error, not a 400 response.
   */
  function ApiMaskBox(bboxStr: string, parsed: Option<JValue>, form: map<string, Option<int>>): (a: ApiAnswer)
    ensures ApiBBox(bboxStr, parsed, form).Err? ==> a == BadRequest(ApiBBox(bboxStr, parsed, form).error)
    ensures a.Draw? <==> ApiBBox(bboxStr, parsed, form).Ok? && UnpackBox(ApiBBox(bboxStr, parsed, form).value).Some?
    ensures a.Draw? ==> BoxToJson(a.box) == ApiBBox(bboxStr, parsed, form).value
    ensures ApiBBox(bboxStr, parsed, form).Ok? && UnpackBox(ApiBBox(bboxStr, parsed, form).value).None? ==> a == ServerError
    ensures bboxStr == "" && FormBox(form).Some? ==> a == Draw(FormBox(form).value)
  {
    match ApiBBox(bboxStr, parsed, form)
    case Err(e) => BadRequest(e)
    case Ok(bbox) =>
      match UnpackBox(bbox)
      case Some(b) => UnpackBoxToJson(b, bbox); Draw(b)
      case None => ServerError
  }

  /** A wrapped box of three numbers passes the handler and then fails as a server error. */
  lemma ShortWrappedBoxIsServerError(bboxStr: string, form: map<string, Option<int>>, xs: seq<JValue>)
    requires bboxStr != "" && |xs| != 4
    ensures ApiMaskBox(bboxStr, Some(JObject(map["bbox" := JList(xs)])), form) == ServerError
  {
  }
}
