/**
 * The command-line tool: `generate_mask.py <image_path> '<bbox_json>'`. It
 * checks the argument count, selects the box from the JSON argument, and
 * derives the mask's path from the image's file name; the mask itself is
 * `MaskGenerator.CreateFaceMask` with the default padding of 0.1.
 *
 * The printing is modelled as the messages chosen; `json.loads` is not
 * modelled: its outcome on the second argument is a parameter, None when it
 * raises a decode error.
 */
module GenerateMask {
  import opened Wrappers
  import opened Json
  import opened BoxPadding
  import opened BBoxInput

  const UsageLines := [
    "Usage: python generate_mask.py <image_path> '<bbox_json>'",
    "Example: python generate_mask.py my_image.jpg '{\"bbox\": [313, 203, 762, 830]}'"
  ]
  const InvalidFormatLine := "Error: Invalid bbox format. Expected {\"bbox\": [x1, y1, x2, y2]} or [x1, y1, x2, y2]"
  const InvalidJsonLine := "Error: Invalid JSON format for bbox"

  /**
   * What `main` does: print and return, stop on an exception it does not
   * catch (no mask is written), or draw the mask for a box and save it at a
   * path.
   */
  datatype Outcome =
    | Printed(lines: seq<string>)
    | Raised
    | Generate(imagePath: string, bbox: Box, maskPath: string)

  /** `str.rfind(c)`: the last index holding c, or -1. */
  function RFind(s: string, c: char): (r: int)
    ensures -1 <= r < |s|
    ensures r >= 0 ==> s[r] == c
    ensures forall i :: r < i < |s| ==> s[i] != c
  {
    if |s| == 0 then -1
    else if s[|s| - 1] == c then |s| - 1
    else RFind(s[..|s| - 1], c)
  }

  /** `os.path.basename` on POSIX: the part after the last '/'. */
  function Basename(path: string): (name: string)
    ensures '/' !in name
    ensures |name| <= |path| && path[|path| - |name|..] == name
    ensures |name| < |path| ==> path[|path| - |name| - 1] == '/'
  {
    path[RFind(path, '/') + 1..]
  }

  predicate AllDots(s: string) {
    forall i :: 0 <= i < |s| ==> s[i] == '.'
  }

  /**
   * `os.path.splitext(name)[0]` for a name without '/': everything before the
   * last '.', unless only dots come before it (".bashrc" has no extension).
   */
  function Stem(name: string): (stem: string)
    ensures |stem| <= |name| && name[..|stem|] == stem
    ensures '.' !in name ==> stem == name
    ensures stem != name ==> name[|stem|] == '.' && '.' !in name[|stem| + 1..] && !AllDots(stem)
  {
    var dot := RFind(name, '.');
    if dot >= 0 && !AllDots(name[..dot]) then name[..dot] else name
  }

  const OutputDir := "output/"
  const MaskSuffix := "_mask.png"

  /**
   * `os.path.join('output', base_name + "_mask.png")`: a file directly in
   * output/ whose name ends in "_mask.png".
   */
  function MaskPath(imagePath: string): (path: string)
    ensures |path| >= |OutputDir| + |MaskSuffix|
    ensures path[..|OutputDir|] == OutputDir
    ensures path[|path| - |MaskSuffix|..] == MaskSuffix
    ensures '/' !in path[|OutputDir|..]
  {
    var stem := Stem(Basename(imagePath));
    StemHasNoSlash(Basename(imagePath));
    Join3(OutputDir, stem, MaskSuffix);
    OutputDir + stem + MaskSuffix
  }

  lemma StemHasNoSlash(name: string)
    requires '/' !in name
    ensures '/' !in Stem(name)
  {
    var stem := Stem(name);
    forall i | 0 <= i < |stem| ensures stem[i] != '/' {
      assert stem[i] == name[i];
    }
  }

  lemma Join3(a: string, b: string, c: string)
    requires '/' !in b && '/' !in c
    ensures var s := a + b + c;
      && s[..|a|] == a && s[|s| - |c|..] == c && '/' !in s[|a|..]
  {
    var s := a + b + c;
    assert s[|a|..] == b + c;
  }

  /** Python's truth value of a JSON value. */
  predicate Truthy(v: JValue) {
    match v
    case JNull => false
    case JBool(b) => b
    case JNum(n) => n != 0
    case JStr(s) => s != ""
    case JList(items) => items != []
    case JObject(fields) => fields != map[]
  }

  /**
   * `confidence * 100` formatted with ":.2f" raises for a truthy confidence
   * that is not a number (a string repeats, a list repeats, an object has no
   * product, and none of them takes a float format). An integer confidence
   * is taken to stay within float range once multiplied by 100.
   */
  predicate ConfidenceRaises(v: JValue) {
    v.JObject? && "bbox" in v.fields && "confidence" in v.fields
    && Truthy(v.fields["confidence"]) && !v.fields["confidence"].JNum? && !v.fields["confidence"].JBool?
  }

  /**
   * `main`, given the argument list (the program name first). The mask is
   * drawn only for a selected value that unpacks to four numbers; other
   * selected values, and a confidence that cannot be printed, raise outside
   * the handler for decode errors.
   */
  function Main(argv: seq<string>, parsed: Option<JValue>): (o: Outcome)
    ensures |argv| < 3 ==> o == Printed(UsageLines)
    ensures |argv| >= 3 && parsed.None? ==> o == Printed([InvalidJsonLine])
    ensures |argv| >= 3 && parsed.Some? && SelectBBox(parsed.value).None? ==> o == Printed([InvalidFormatLine])
    ensures o.Generate? <==>
      && |argv| >= 3 && parsed.Some? && SelectBBox(parsed.value).Some?
      && !ConfidenceRaises(parsed.value) && UnpackBox(SelectBBox(parsed.value).value).Some?
    ensures o.Generate? ==>
      && o.imagePath == argv[1] && o.maskPath == MaskPath(argv[1])
      && BoxToJson(o.bbox) == SelectBBox(parsed.value).value
    ensures o.Raised? <==>
      && |argv| >= 3 && parsed.Some? && SelectBBox(parsed.value).Some?
      && (ConfidenceRaises(parsed.value) || UnpackBox(SelectBBox(parsed.value).value).None?)
  {
    if |argv| < 3 then Printed(UsageLines)
    else
      match parsed
      case None => Printed([InvalidJsonLine])
      case Some(v) =>
        match SelectBBox(v)
        case None => Printed([InvalidFormatLine])
        case Some(bbox) =>
          if ConfidenceRaises(v) then Raised
          else
            match UnpackBox(bbox)
            case None => Raised
            case Some(b) => UnpackBoxToJson(b, bbox); Generate(argv[1], b, MaskPath(argv[1]))
  }

  /** A wrapped box of three numbers passes the selection, yet no mask is drawn. */
  lemma ShortWrappedBoxRaises(argv: seq<string>)
    requires |argv| >= 3
    ensures Main(argv, Some(JObject(map["bbox" := JList([JNum(1), JNum(2), JNum(3)])]))) == Raised
  {
  }

  /** The base name of a path is the last component, whatever the directories. */
  lemma BasenameOfJoin(dir: string, name: string)
    requires '/' !in name
    ensures Basename(dir + "/" + name) == name
  {
    var p := dir + "/" + name;
    var r := RFind(p, '/');
    assert p[|dir|] == '/';
    assert r == |dir|;
    assert p[r + 1..] == name;
  }

  /** Splitting off an extension without dots gives back the name before it. */
  lemma StemOfExtension(base: string, ext: string)
    requires '.' !in ext && !AllDots(base)
    ensures Stem(base + "." + ext) == base
  {
    var name := base + "." + ext;
    var r := RFind(name, '.');
    assert name[|base|] == '.';
    assert r == |base|;
    assert name[..r] == base;
  }

  /**
   * The mask of an image `dir/base.ext` goes to `output/base_mask.png`: the
   * directory is dropped and only the last extension is removed.
   */
  lemma MaskPathOfImage(dir: string, base: string, ext: string)
    requires '/' !in base && '/' !in ext && '.' !in ext && !AllDots(base)
    ensures MaskPath(dir + "/" + base + "." + ext) == "output/" + base + "_mask.png"
  {
    assert dir + "/" + base + "." + ext == dir + "/" + (base + "." + ext);
    BasenameOfJoin(dir, base + "." + ext);
    StemOfExtension(base, ext);
  }

  /** A name whose only dot is its first character has no extension. */
  lemma StemOfHiddenName(rest: string)
    requires '.' !in rest
    ensures Stem("." + rest) == "." + rest
  {
    var name := "." + rest;
    assert name[0] == '.';
    assert RFind(name, '.') == 0;
  }

  /** A hidden file `dir/.name` keeps its leading dot: its mask is `output/.name_mask.png`. */
  lemma MaskPathOfHiddenImage(dir: string, rest: string)
    requires '/' !in rest && '.' !in rest
    ensures MaskPath(dir + "/" + "." + rest) == "output/" + "." + rest + "_mask.png"
  {
    assert dir + "/" + "." + rest == dir + "/" + ("." + rest);
    BasenameOfJoin(dir, "." + rest);
    StemOfHiddenName(rest);
  }
}
