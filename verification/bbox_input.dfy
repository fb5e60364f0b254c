/**
 * The two shapes a bounding box arrives in, as all three entry points accept
 * them: a bare list `[x1, y1, x2, y2]`, or an object whose "bbox" field holds
 * the box (the detector's output, with "label" and "confidence" beside it).
 */
module BBoxInput {
  import opened Wrappers
  import opened Json
  import opened BoxPadding

  /**
   * The choice every entry point makes on the parsed value: an object with a
   * "bbox" key gives that key's value, a list of exactly four items gives the
   * list itself, anything else gives None (the caller reports an error).
   * The object test comes first.
   */
  function SelectBBox(v: JValue): (r: Option<JValue>)
    ensures v.JObject? && "bbox" in v.fields ==> r == Some(v.fields["bbox"])
    ensures v.JList? && |v.items| == 4 ==> r == Some(v)
    ensures r.None? <==> !(v.JObject? && "bbox" in v.fields) && !(v.JList? && |v.items| == 4)
  {
    if v.JObject? && "bbox" in v.fields then Some(v.fields["bbox"])
    else if v.JList? && |v.items| == 4 then Some(v)
    else None
  }

  /** The bare list form of a box. */
  function BoxToJson(b: Box): JValue {
    JList([JNum(b.x1), JNum(b.y1), JNum(b.x2), JNum(b.y2)])
  }

  /**
   * `x1, y1, x2, y2 = bbox` and the padding arithmetic after it: only a list
   * of exactly four numbers gets through; anything else makes
   * `create_face_mask` raise (a four-character string or a four-key object
   * unpacks, then fails at `x2 - x1` or in the drawing call).
   */
  function UnpackBox(v: JValue): (r: Option<Box>)
    ensures r.Some? <==> v.JList? && |v.items| == 4 && forall i :: 0 <= i < 4 ==> v.items[i].JNum?
  {
    if v.JList? && |v.items| == 4 && v.items[0].JNum? && v.items[1].JNum?
       && v.items[2].JNum? && v.items[3].JNum?
    then Some(Box(v.items[0].n, v.items[1].n, v.items[2].n, v.items[3].n))
    else None
  }

  /** A box written as a bare list unpacks to itself, and only that list unpacks to it. */
  lemma UnpackBoxToJson(b: Box, v: JValue)
    ensures UnpackBox(BoxToJson(b)) == Some(b)
    ensures UnpackBox(v) == Some(b) ==> v == BoxToJson(b)
  {
    if UnpackBox(v) == Some(b) {
      assert v.items == [JNum(b.x1), JNum(b.y1), JNum(b.x2), JNum(b.y2)];
    }
  }

  /**
   * The detector's record form and the bare list select the same box: extra
   * fields such as "label" and "confidence" are ignored.
   */
  lemma WrappedMatchesBare(b: Box, extra: map<string, JValue>)
    ensures SelectBBox(JObject(extra["bbox" := BoxToJson(b)])) == SelectBBox(BoxToJson(b)) == Some(BoxToJson(b))
  {
  }

  /**
   * An object with a "bbox" key always yields that key's value, whatever it
   * is (its length is not checked), while a list is taken only when it has
   * four items.
   */
  lemma ObjectFormNotLengthChecked(inner: JValue)
    ensures SelectBBox(JObject(map["bbox" := inner])) == Some(inner)
    ensures inner.JList? && |inner.items| != 4 ==> SelectBBox(inner).None?
  {
  }

  /**
   * Python's `v[i]` for a non-negative integer index: a list gives its item,
   * a string gives a one-character string, and everything else (including an
   * object, whose keys are strings) raises.
   */
  function Subscript(v: JValue, i: nat): (r: Option<JValue>)
    ensures v.JList? && i < |v.items| ==> r == Some(v.items[i])
    ensures v.JStr? && i < |v.s| ==> r == Some(JStr([v.s[i]]))
    ensures r.Some? <==> (v.JList? && i < |v.items|) || (v.JStr? && i < |v.s|)
  {
    match v
    case JList(items) => if i < |items| then Some(items[i]) else None
    case JStr(s) => if i < |s| then Some(JStr([s[i]])) else None
    case _ => None
  }
}
