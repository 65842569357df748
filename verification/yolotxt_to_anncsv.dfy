/**
 * `yolotxt_to_anncsv.py`: a YOLO label file (`class xc yc w h`, the box as
 * fractions of the image size) becomes one `annotation.csv` row whose box is
 * in whole pixels, given by its top-left corner, and is always labelled
 * "knife". The image of the same stem supplies the image size.
 */
module YoloTxtToAnnCsv {
  import opened Wrappers
  import PyNum
  import PyStr
  import opened AnnCsv

  const RawImagesPath: string := "raw_data/images/"
  const RawLabelPath: string := "raw_data/labels/"

  /** Every row gets this label, whatever the class id of the file. */
  const LabelName: string := "knife"

  /** The class id given to a file whose first line does not hold five fields. */
  const NotTargetClass: int := 5

  /** `class xc yc w h`. */
  const FieldCount: nat := 5

  /** The Python exceptions that end the script. */
  datatype ScriptError =
    | ValueError    // `float()` or `int()` rejects a field
    | FileNotFound  // `Image.open` on an image that does not exist

  /** A box as fractions of the image size: centre, width and height. */
  datatype RelBox = RelBox(xc: real, yc: real, w: real, h: real)

  /** A box in whole pixels: top-left corner, width and height. */
  datatype PixelBox = PixelBox(x: int, y: int, w: int, h: int)

  /** `PIL.Image.size`. */
  datatype ImageSize = ImageSize(width: int, height: int)

  /** The four box cells of a label: `[x1, y1, w, h]`. */
  datatype BoxCells = BoxCells(x: Number, y: Number, w: Number, h: Number)

  /** `label_dict`. */
  datatype LabelDict = LabelDict(classId: int, bbox: BoxCells)

  // ---------------------------------------------------------------------
  // bbox_convert

  /**
   * `bbox_convert`: scale the relative box by the image size, move from the
   * centre to the top-left corner, and truncate every value toward zero.
   */
  function BboxConvert(rel: RelBox, size: ImageSize): (b: PixelBox)
    ensures b.x == PyNum.Trunc(Scale(rel.xc, size.width) - Scale(rel.w, size.width) / 2.0)
    ensures b.y == PyNum.Trunc(Scale(rel.yc, size.height) - Scale(rel.h, size.height) / 2.0)
    ensures b.w == PyNum.Trunc(Scale(rel.w, size.width))
    ensures b.h == PyNum.Trunc(Scale(rel.h, size.height))
  {
    PixelBox(Corner(rel.xc, rel.w, size.width), Corner(rel.yc, rel.h, size.height),
             Extent(rel.w, size.width), Extent(rel.h, size.height))
  }

  /** A fraction of `n` pixels, before truncation. */
  function Scale(v: real, n: int): real {
    v * n as real
  }

  /** One axis of `bbox_convert`: the start, from centre `c` and extent `e` as fractions of `n` pixels. */
  function Corner(c: real, e: real, n: int): int {
    PyNum.Trunc(Scale(c, n) - Scale(e, n) / 2.0)
  }

  /** One axis of `bbox_convert`: the extent. */
  function Extent(e: real, n: int): int {
    PyNum.Trunc(Scale(e, n))
  }

  /** The YOLO form of a pixel box: its centre and size as fractions of the image size. */
  function Normalise(b: PixelBox, size: ImageSize): RelBox
    requires size.width != 0 && size.height != 0
  {
    RelBox(Fraction(b.x, b.w, size.width), Fraction(b.y, b.h, size.height),
           b.w as real / size.width as real, b.h as real / size.height as real)
  }

  /** The centre of `[lo, lo + len]` as a fraction of `n`. */
  function Fraction(lo: int, len: int, n: int): real
    requires n != 0
  {
    (lo as real + len as real / 2.0) / n as real
  }

  /** Converting the YOLO form of a pixel box gives the box back, exactly. */
  lemma ConvertNormalised(b: PixelBox, size: ImageSize)
    requires size.width != 0 && size.height != 0
    ensures BboxConvert(Normalise(b, size), size) == b
  {
    AxisNormalised(b.x, b.w, size.width);
    AxisNormalised(b.y, b.h, size.height);
  }

  /** One axis of `ConvertNormalised`. */
  lemma AxisNormalised(lo: int, len: int, n: int)
    requires n != 0
    ensures Corner(Fraction(lo, len, n), len as real / n as real, n) == lo
    ensures Extent(len as real / n as real, n) == len
  {
    var d := n as real;
    var c, e := Fraction(lo, len, n), len as real / d;
    assert c * d == lo as real + len as real / 2.0;
    assert e * d == len as real;
    assert c * d - e * d / 2.0 == lo as real;
  }

  // ---------------------------------------------------------------------
  // read_label_txt

  /** The label of a file that is not one five-field line: class 5, box `[0.0, 0.0, 0.0, 0.0]`. */
  function Placeholder(): LabelDict {
    LabelDict(NotTargetClass, BoxCells(Float(0.0), Float(0.0), Float(0.0), Float(0.0)))
  }

  function PixelCells(b: PixelBox): BoxCells {
    BoxCells(Int(b.x), Int(b.y), Int(b.w), Int(b.h))
  }

  /** The four box fields of a five-field line are all numbers `float()` accepts. */
  predicate BoxFieldsParse(fields: seq<string>)
    requires |fields| == FieldCount
  {
    PyStr.ParseFloat(fields[1]).Some? && PyStr.ParseFloat(fields[2]).Some?
    && PyStr.ParseFloat(fields[3]).Some? && PyStr.ParseFloat(fields[4]).Some?
  }

  /** The relative box a five-field line holds. */
  function RelBoxOf(fields: seq<string>): RelBox
    requires |fields| == FieldCount && BoxFieldsParse(fields)
  {
    RelBox(PyStr.ParseFloat(fields[1]).value, PyStr.ParseFloat(fields[2]).value,
           PyStr.ParseFloat(fields[3]).value, PyStr.ParseFloat(fields[4]).value)
  }

  /**
   * The label from the fields of the first line: the four box values are
   * read with `float()` and converted, then the class with `int()`.
   */
  function LabelOfFields(fields: seq<string>, size: ImageSize): (r: Result<LabelDict, ScriptError>)
    ensures |fields| != FieldCount ==> r == Success(Placeholder())
    ensures |fields| == FieldCount ==>
      (r.Success? <==> BoxFieldsParse(fields) && PyStr.ParseInt(fields[0]).Some?)
    ensures r.Failure? ==> r.error == ValueError
    ensures |fields| == FieldCount && r.Success? ==>
      r.value == LabelDict(PyStr.ParseInt(fields[0]).value, PixelCells(BboxConvert(RelBoxOf(fields), size)))
  {
    if |fields| != FieldCount then Success(Placeholder())
    else
      var xc, yc, w, h := PyStr.ParseFloat(fields[1]), PyStr.ParseFloat(fields[2]),
                          PyStr.ParseFloat(fields[3]), PyStr.ParseFloat(fields[4]);
      if xc.None? || yc.None? || w.None? || h.None? then Failure(ValueError)
      else
        var bbox := PixelCells(BboxConvert(RelBox(xc.value, yc.value, w.value, h.value), size));
        var classId := PyStr.ParseInt(fields[0]);
        if classId.None? then Failure(ValueError)
        else Success(LabelDict(classId.value, bbox))
  }

  /** The fields `read_label_txt` looks at: those of the first line. */
  function FirstLineFields(content: string): seq<string> {
    PyStr.Split(PyStr.FirstLine(content))
  }

  /**
   * `read_label_txt`: only the first line is read, stripped and split on
   * whitespace. Stripping changes nothing about the fields.
   */
  function ReadLabelTxt(content: string, size: ImageSize): (r: Result<LabelDict, ScriptError>)
    ensures r == LabelOfFields(FirstLineFields(content), size)
  {
    var line := PyStr.Strip(PyStr.FirstLine(content));
    PyStr.SplitAfterStrip(PyStr.FirstLine(content));
    LabelOfFields(PyStr.Split(line), size)
  }

  /** What follows the first line break is never read. */
  lemma OnlyFirstLineRead(line: string, brk: char, rest: string, size: ImageSize)
    requires PyStr.NoLineBreak(line) && PyStr.IsLineBreak(brk)
    ensures ReadLabelTxt(line + [brk] + rest, size) == ReadLabelTxt(line, size)
  {
    PyStr.FirstLineOfLines(line, brk, rest);
    PyStr.FirstLineOfLines(line, brk, []);
    assert line + [brk] + [] == line + [brk];
    assert PyStr.FirstLine(line + [brk]) == line;
    assert PyStr.FirstLine(line) == line by {
      FirstLineWithoutBreak(line);
    }
  }

  lemma {:induction false} FirstLineWithoutBreak(line: string)
    requires PyStr.NoLineBreak(line)
    ensures PyStr.FirstLine(line) == line
  {
    if line != [] {
      FirstLineWithoutBreak(line[1..]);
    }
  }

  /** A label line written as fields joined by spaces reads back as those fields. */
  lemma ReadWrittenLine(fields: seq<string>, rest: string, size: ImageSize)
    requires forall i :: 0 <= i < |fields| ==> PyStr.IsToken(fields[i])
    ensures ReadLabelTxt(PyStr.Join(fields, " ") + "\n" + rest, size) == LabelOfFields(fields, size)
  {
    var line := PyStr.Join(fields, " ");
    PyStr.JoinIsOneLine(fields);
    PyStr.FirstLineOfLines(line, '\n', rest);
    assert line + "\n" + rest == line + ['\n'] + rest;
    PyStr.SplitJoinRoundTrip(fields);
  }

  /** A quarter-width, half-height box centred in a 640x480 image. */
  lemma CentredBoxExample(fields: seq<string>)
    requires fields == ["0", "0.5", "0.5", "0.25", "0.5"]
    ensures LabelOfFields(fields, ImageSize(640, 480))
         == Success(LabelDict(0, BoxCells(Int(240), Int(120), Int(160), Int(240))))
  {
    CentredFieldsParse(fields[0], fields[1], fields[2], fields[3], fields[4]);
    LabelOfParsedFields(fields, ImageSize(640, 480), 0, RelBox(0.5, 0.5, 0.25, 0.5));
    CentredBoxConverted();
  }

  /** The class and the four box fields of that example line. */
  lemma CentredFieldsParse(c: string, xc: string, yc: string, w: string, h: string)
    requires c == "0" && xc == yc == h == "0.5" && w == "0.25"
    ensures PyStr.ParseInt(c) == Some(0)
    ensures PyStr.ParseFloat(xc) == PyStr.ParseFloat(yc) == PyStr.ParseFloat(h) == Some(0.5)
    ensures PyStr.ParseFloat(w) == Some(0.25)
  {
    PyStr.ParseIntDigit(c);
    PyStr.HalfToken(xc);
    PyStr.QuarterToken(w);
  }

  /** A five-field line whose fields all parse yields the converted box of those values. */
  lemma LabelOfParsedFields(fields: seq<string>, size: ImageSize, c: int, rel: RelBox)
    requires |fields| == FieldCount && PyStr.ParseInt(fields[0]) == Some(c)
    requires PyStr.ParseFloat(fields[1]) == Some(rel.xc) && PyStr.ParseFloat(fields[2]) == Some(rel.yc)
    requires PyStr.ParseFloat(fields[3]) == Some(rel.w) && PyStr.ParseFloat(fields[4]) == Some(rel.h)
    ensures LabelOfFields(fields, size) == Success(LabelDict(c, PixelCells(BboxConvert(rel, size))))
  {
    assert RelBoxOf(fields) == rel;
  }

  lemma CentredBoxConverted()
    ensures BboxConvert(RelBox(0.5, 0.5, 0.25, 0.5), ImageSize(640, 480)) == PixelBox(240, 120, 160, 240)
  {
    assert Scale(0.5, 640) == 320.0 && Scale(0.25, 640) == 160.0;
    assert Scale(0.5, 480) == 240.0;
    assert PyNum.Trunc(240.0) == 240 && PyNum.Trunc(120.0) == 120;
    assert PyNum.Trunc(160.0) == 160 && PyNum.Trunc(240.0) == 240;
  }

  /** A first line holding four or six fields, or none, gives the placeholder label. */
  lemma WrongFieldCount(fields: seq<string>, rest: string, size: ImageSize)
    requires forall i :: 0 <= i < |fields| ==> PyStr.IsToken(fields[i])
    requires |fields| != FieldCount
    ensures ReadLabelTxt(PyStr.Join(fields, " ") + "\n" + rest, size) == Success(Placeholder())
  {
    ReadWrittenLine(fields, rest, size);
  }

  // ---------------------------------------------------------------------
  // check_matching_image and proc_a_label

  /** The image of a label file: the label's stem with `.jpg`. */
  function ImageNameOf(labelFile: string): string {
    PyStr.PathStem(labelFile) + ".jpg"
  }

  /**
   * `check_matching_image`; `images` maps each existing image path to its
   * size. A missing image makes `Image.open` raise, so the existence flag
   * returned is always true.
   */
  function CheckMatchingImage(labelFile: string, images: map<string, ImageSize>): (r: Result<(string, bool, ImageSize), ScriptError>)
    ensures r.Success? <==> RawImagesPath + ImageNameOf(labelFile) in images
    ensures r.Failure? ==> r.error == FileNotFound
    ensures r.Success? ==>
      r.value.0 == ImageNameOf(labelFile) && r.value.1 && r.value.2 == images[RawImagesPath + ImageNameOf(labelFile)]
  {
    var imageName := ImageNameOf(labelFile);
    var imageFile := RawImagesPath + imageName;
    var imageExists := imageFile in images;
    if imageFile !in images then Failure(FileNotFound)
    else Success((imageName, imageExists, images[imageFile]))
  }

  /** A label file `<stem>.txt` is matched with the image `<stem>.jpg`. */
  lemma MatchingImageName(stem: string)
    requires stem != [] && !PyStr.AllDots(stem)
    requires forall i :: 0 <= i < |stem| ==> stem[i] != '/'
    ensures ImageNameOf(RawLabelPath + stem + ".txt") == stem + ".jpg"
    ensures PyStr.Stem(ImageNameOf(RawLabelPath + stem + ".txt")) == stem
  {
    LabelFileStem(stem);
    assert ".jpg"[0] == '.' && ".jpg"[1] != '.' && ".jpg"[2] != '.' && ".jpg"[3] != '.';
    PyStr.StemOfExtension(stem, ".jpg");
  }

  lemma LabelFileStem(stem: string)
    requires stem != [] && !PyStr.AllDots(stem)
    requires forall i :: 0 <= i < |stem| ==> stem[i] != '/'
    ensures PyStr.PathStem(RawLabelPath + stem + ".txt") == stem
  {
    var name := stem + ".txt";
    assert forall i :: 0 <= i < |name| ==> name[i] != '/' by {
      forall i | 0 <= i < |name| ensures name[i] != '/' {
        if i < |stem| {
          assert name[i] == stem[i];
        } else {
          assert name[i] == ".txt"[i - |stem|];
        }
      }
    }
    PyStr.BasenameUnderDirectory(RawLabelPath, name);
    assert RawLabelPath + stem + ".txt" == RawLabelPath + name;
    assert ".txt"[0] == '.' && ".txt"[1] != '.' && ".txt"[2] != '.' && ".txt"[3] != '.';
    PyStr.StemOfExtension(stem, ".txt");
  }

  /**
   * `proc_a_label`: the row for one label file. The class id is read but not
   * used; the image is looked up before the label file is read.
   */
  function ProcALabel(labelFile: string, content: string, images: map<string, ImageSize>): (r: Result<AnnRow, ScriptError>)
    ensures var imageFile := RawImagesPath + ImageNameOf(labelFile);
      && (imageFile !in images ==> r == Failure(FileNotFound))
      && (imageFile in images ==>
            (r.Success? <==> ReadLabelTxt(content, images[imageFile]).Success?))
      && (r.Success? ==>
            var size, parsed := images[imageFile], ReadLabelTxt(content, images[imageFile]).value;
            r.value == AnnRow(LabelName, parsed.bbox.x, parsed.bbox.y, parsed.bbox.w, parsed.bbox.h,
                              ImageNameOf(labelFile), size.width, size.height))
  {
    match CheckMatchingImage(labelFile, images)
    case Failure(e) => Failure(e)
    case Success((imageName, _, imageSize)) =>
      match ReadLabelTxt(content, imageSize)
      case Failure(e) => Failure(e)
      case Success(parsed) =>
        Success(AnnRow(LabelName, parsed.bbox.x, parsed.bbox.y, parsed.bbox.w, parsed.bbox.h,
                       imageName, imageSize.width, imageSize.height))
  }

  /** The box of a label does not depend on its class field. */
  lemma LabelIgnoresClass(fa: seq<string>, fb: seq<string>, size: ImageSize)
    requires |fa| == |fb| == FieldCount && fa[1..] == fb[1..]
    requires PyStr.ParseInt(fa[0]).Some? && PyStr.ParseInt(fb[0]).Some?
    ensures LabelOfFields(fa, size).Success? == LabelOfFields(fb, size).Success?
    ensures LabelOfFields(fa, size).Success? ==> LabelOfFields(fa, size).value.bbox == LabelOfFields(fb, size).value.bbox
  {
    assert fa[1] == fb[1] && fa[2] == fb[2] && fa[3] == fb[3] && fa[4] == fb[4] by {
      assert fa[1..][0] == fb[1..][0] && fa[1..][1] == fb[1..][1];
      assert fa[1..][2] == fb[1..][2] && fa[1..][3] == fb[1..][3];
    }
  }

  /**
   * Two label files whose first lines differ only in the class field give the
   * same row, as long as both class fields are integers: the class is never
   * checked.
   */
  lemma ClassIdNotChecked(labelFile: string, ca: string, cb: string, images: map<string, ImageSize>)
    requires |FirstLineFields(ca)| == |FirstLineFields(cb)| == FieldCount
    requires FirstLineFields(ca)[1..] == FirstLineFields(cb)[1..]
    requires PyStr.ParseInt(FirstLineFields(ca)[0]).Some? && PyStr.ParseInt(FirstLineFields(cb)[0]).Some?
    ensures ProcALabel(labelFile, ca, images) == ProcALabel(labelFile, cb, images)
  {
    var imageFile := RawImagesPath + ImageNameOf(labelFile);
    if imageFile in images {
      LabelIgnoresClass(FirstLineFields(ca), FirstLineFields(cb), images[imageFile]);
    }
  }

  /**
   * A label file whose first line is not five fields still gives a "knife"
   * row, with the zero box `0.0, 0.0, 0.0, 0.0`.
   */
  lemma NonTargetRow(labelFile: string, content: string, images: map<string, ImageSize>)
    requires RawImagesPath + ImageNameOf(labelFile) in images
    requires |FirstLineFields(content)| != FieldCount
    ensures var size := images[RawImagesPath + ImageNameOf(labelFile)];
      ProcALabel(labelFile, content, images)
        == Success(AnnRow(LabelName, Float(0.0), Float(0.0), Float(0.0), Float(0.0),
                          ImageNameOf(labelFile), size.width, size.height))
  {
  }
}
