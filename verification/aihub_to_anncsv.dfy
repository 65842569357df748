/**
 * `aihub_to_anncsv.py`: one AI-Hub label file and its video become
 * annotation rows in pixels (box truncated to integers) and one PNG per
 * frame inside an event window, both named `<identifier>_<frame>.png`.
 * The video is the sequence of frame numbers it reports; image files are
 * represented by their names.
 */
module AihubToAnnCsv {
  import opened Wrappers
  import PyNum
  import PyStr
  import StableSort
  import VideoIdentifier
  import opened AihubLabel
  import opened AnnCsv

  /** The label every row carries. */
  const ClassName: string := "smokingPerson"

  /** The script stops (`exit()`) when the video cannot be opened. */
  datatype ScriptError = CannotOpenVideo

  /** `annotation_parser`: the frame and the centre-form box in pixels. */
  function AnnotationParser(a: Annotation): (fb: FrameBox)
    ensures fb.curFrame == a.curFrame
    ensures fb.bbox.xc - fb.bbox.w / 2.0 == a.corner1.x && fb.bbox.yc - fb.bbox.h / 2.0 == a.corner1.y
    ensures fb.bbox.xc + fb.bbox.w / 2.0 == a.corner2.x && fb.bbox.yc + fb.bbox.h / 2.0 == a.corner2.y
  {
    FrameBox(a.curFrame, CornersToCenter(a))
  }

  /**
   * `annotations_parser`: the smoking annotations, sorted by frame, each
   * parsed; so one box per smoking annotation, in non-decreasing frame order.
   */
  method AnnotationsParser(anns: seq<Annotation>) returns (bboxes: seq<FrameBox>)
    ensures |bboxes| == |ParsedOrder(anns)|
    ensures forall i :: 0 <= i < |bboxes| ==> bboxes[i] == AnnotationParser(ParsedOrder(anns)[i])
    ensures forall i, j :: 0 <= i < j < |bboxes| ==> bboxes[i].curFrame <= bboxes[j].curFrame
  {
    var kept := ParsedOrder(anns);
    ParsedOrderProperties(anns);
    bboxes := [];
    for i := 0 to |kept|
      invariant |bboxes| == i
      invariant forall k :: 0 <= k < i ==> bboxes[k] == AnnotationParser(kept[k])
    {
      bboxes := bboxes + [AnnotationParser(kept[i])];
    }
  }

  /** `f"{image_name_base}"`: a missing identifier is written as `None`. */
  function BaseText(base: Option<string>): string {
    match base
    case None => "None"
    case Some(b) => b
  }

  /** `f"{image_name_base}_{cur_frame}.png"`. */
  function ImageName(base: Option<string>, frame: int): string {
    BaseText(base) + "_" + PyStr.IntToString(frame) + ".png"
  }

  /**
   * `process_annotation`: one row per box, in order. The box is moved to its
   * top-left corner and every number truncated toward zero; the image name
   * is built from the video's identifier and the frame; the size is the
   * frame size.
   */
  method ProcessAnnotation(videoName: string, frameWidth: int, frameHeight: int, bboxes: seq<FrameBox>)
    returns (rows: seq<AnnRow>)
    ensures |rows| == |bboxes|
    ensures forall i :: 0 <= i < |rows| ==>
      var b := bboxes[i].bbox;
      && rows[i].labelName == ClassName
      && rows[i].bboxX == Int(PyNum.Trunc(b.xc - b.w / 2.0))
      && rows[i].bboxY == Int(PyNum.Trunc(b.yc - b.h / 2.0))
      && rows[i].bboxWidth == Int(PyNum.Trunc(b.w))
      && rows[i].bboxHeight == Int(PyNum.Trunc(b.h))
      && rows[i].imageName == ImageName(VideoIdentifier.NameBase(videoName), bboxes[i].curFrame)
      && rows[i].imageWidth == frameWidth && rows[i].imageHeight == frameHeight
  {
    var base := VideoIdentifier.NameBase(videoName);
    rows := [];
    for i := 0 to |bboxes|
      invariant |rows| == i
      invariant forall k :: 0 <= k < i ==> rows[k] == RowOf(base, frameWidth, frameHeight, bboxes[k])
    {
      rows := rows + [RowOf(base, frameWidth, frameHeight, bboxes[i])];
    }
  }

  function RowOf(base: Option<string>, frameWidth: int, frameHeight: int, fb: FrameBox): AnnRow {
    var b := fb.bbox;
    AnnRow(ClassName,
      Int(PyNum.Trunc(b.xc - b.w / 2.0)), Int(PyNum.Trunc(b.yc - b.h / 2.0)),
      Int(PyNum.Trunc(b.w)), Int(PyNum.Trunc(b.h)),
      ImageName(base, fb.curFrame), frameWidth, frameHeight)
  }

  /**
   * End to end, a row holds the annotation's first corner and its extent,
   * each truncated toward zero.
   */
  lemma RowOfAnnotation(base: Option<string>, frameWidth: int, frameHeight: int, a: Annotation)
    ensures var row := RowOf(base, frameWidth, frameHeight, AnnotationParser(a));
      && row.bboxX == Int(PyNum.Trunc(a.corner1.x)) && row.bboxY == Int(PyNum.Trunc(a.corner1.y))
      && row.bboxWidth == Int(PyNum.Trunc(a.corner2.x - a.corner1.x))
      && row.bboxHeight == Int(PyNum.Trunc(a.corner2.y - a.corner1.y))
  {
    var b := AnnotationParser(a).bbox;
    assert b.xc - b.w / 2.0 == a.corner1.x;
    assert b.yc - b.h / 2.0 == a.corner1.y;
  }

  /** For a fixed identifier (or none), different frames get different image names. */
  lemma ImageNameInjective(base: Option<string>, f: int, g: int)
    ensures ImageName(base, f) == ImageName(base, g) <==> f == g
  {
    if ImageName(base, f) == ImageName(base, g) {
      var pre := BaseText(base) + "_";
      var x, y := PyStr.IntToString(f), PyStr.IntToString(g);
      assert ImageName(base, f) == pre + x + ".png";
      assert ImageName(base, g) == pre + y + ".png";
      assert |x| == |y|;
      assert x == ImageName(base, f)[|pre|..|pre| + |x|];
      assert y == ImageName(base, g)[|pre|..|pre| + |y|];
      PyStr.IntToStringInjective(f, g);
    }
  }

  // ---------------------------------------------------------------------
  // Frame images

  /** The names of the images `save_images` writes: one per frame inside some window, in frame order. */
  function SavedImageNames(base: Option<string>, windows: seq<Window>, frames: seq<int>): seq<string> {
    if frames == [] then []
    else
      var f := frames[|frames| - 1];
      SavedImageNames(base, windows, frames[..|frames| - 1]) + (if InWindows(windows, f) then [ImageName(base, f)] else [])
  }

  /**
   * `save_images`: reads the video frame by frame and writes the frames that
   * lie in some event window. `videoOpened` is whether the video could be opened.
   */
  method SaveImages(videoName: string, windows: seq<Window>, videoOpened: bool, frames: seq<int>)
    returns (r: Result<seq<string>, ScriptError>)
    ensures !videoOpened ==> r == Failure(CannotOpenVideo)
    ensures videoOpened ==> r == Success(SavedImageNames(VideoIdentifier.NameBase(videoName), windows, frames))
  {
    if !videoOpened {
      return Failure(CannotOpenVideo);
    }
    var saved: seq<string> := [];
    var base := VideoIdentifier.NameBase(videoName);
    for i := 0 to |frames|
      invariant saved == SavedImageNames(base, windows, frames[..i])
    {
      assert frames[..i + 1][..i] == frames[..i];
      if InWindows(windows, frames[i]) {
        saved := saved + [ImageName(base, frames[i])];
      }
    }
    assert frames[..|frames|] == frames;
    return Success(saved);
  }

  /** The k-th image saved is that of the k-th in-window frame of the video. */
  lemma {:induction false} SavedImageNamesOfQualifying(base: Option<string>, windows: seq<Window>, frames: seq<int>)
    ensures |SavedImageNames(base, windows, frames)| == |Qualifying(windows, frames)|
    ensures forall k :: 0 <= k < |Qualifying(windows, frames)| ==>
      SavedImageNames(base, windows, frames)[k] == ImageName(base, Qualifying(windows, frames)[k])
  {
    if frames != [] {
      SavedImageNamesOfQualifying(base, windows, frames[..|frames| - 1]);
    }
  }

  /** An image is saved exactly for the frames that lie in some window. */
  lemma {:induction false} SavedImageNamesMembers(base: Option<string>, windows: seq<Window>, frames: seq<int>)
    ensures forall n :: n in SavedImageNames(base, windows, frames) <==>
      exists f :: f in frames && InWindows(windows, f) && n == ImageName(base, f)
  {
    if frames != [] {
      var init, last := frames[..|frames| - 1], frames[|frames| - 1];
      SavedImageNamesMembers(base, windows, init);
      assert frames == init + [last];
      forall n | exists f :: f in frames && InWindows(windows, f) && n == ImageName(base, f)
        ensures n in SavedImageNames(base, windows, frames)
      {
        var f :| f in frames && InWindows(windows, f) && n == ImageName(base, f);
        if f in init {
          assert n in SavedImageNames(base, windows, init);
        } else {
          assert f == last;
        }
      }
      forall n | n in SavedImageNames(base, windows, frames)
        ensures exists f :: f in frames && InWindows(windows, f) && n == ImageName(base, f)
      {
        if n in SavedImageNames(base, windows, init) {
          var f :| f in init && InWindows(windows, f) && n == ImageName(base, f);
          assert f in frames;
        } else {
          assert last in frames;
        }
      }
    }
  }

  // ---------------------------------------------------------------------
  // Matching checks

  /** `set(a) == set(b)`: each name of one list occurs in the other; order and repetition do not matter. */
  function NamesMatch(a: seq<string>, b: seq<string>): (r: bool)
    ensures r <==> (forall i :: 0 <= i < |a| ==> a[i] in b) && (forall j :: 0 <= j < |b| ==> b[j] in a)
  {
    var sa, sb := set n | n in a, set n | n in b;
    if sa == sb then
      assert forall i :: 0 <= i < |a| ==> a[i] in b by {
        forall i | 0 <= i < |a| ensures a[i] in b {
          assert a[i] in sa;
        }
      }
      assert forall j :: 0 <= j < |b| ==> b[j] in a by {
        forall j | 0 <= j < |b| ensures b[j] in a {
          assert b[j] in sb;
        }
      }
      true
    else
      var n :| !(n in sa <==> n in sb);
      if n in a then
        var i :| 0 <= i < |a| && a[i] == n;
        assert a[i] !in b;
        false
      else
        var j :| 0 <= j < |b| && b[j] == n;
        assert b[j] !in a;
        false
  }

  function Stems(paths: seq<string>): (r: seq<string>)
    ensures |r| == |paths| && forall i :: 0 <= i < |paths| ==> r[i] == PyStr.PathStem(paths[i])
  {
    if paths == [] then [] else [PyStr.PathStem(paths[0])] + Stems(paths[1..])
  }

  /** `check_rawfiles_matching`: every label file has a video of the same stem, and back. */
  function RawFilesMatch(labelFiles: seq<string>, videoFiles: seq<string>): (r: bool)
    ensures r <==>
      (forall i :: 0 <= i < |labelFiles| ==> PyStr.PathStem(labelFiles[i]) in Stems(videoFiles))
      && (forall j :: 0 <= j < |videoFiles| ==> PyStr.PathStem(videoFiles[j]) in Stems(labelFiles))
  {
    NamesMatch(Stems(labelFiles), Stems(videoFiles))
  }

  function RowImageNames(rows: seq<AnnRow>): (r: seq<string>)
    ensures |r| == |rows| && forall i :: 0 <= i < |rows| ==> r[i] == rows[i].imageName
  {
    if rows == [] then [] else [rows[0].imageName] + RowImageNames(rows[1..])
  }

  function Basenames(paths: seq<string>): (r: seq<string>)
    ensures |r| == |paths| && forall i :: 0 <= i < |paths| ==> r[i] == PyStr.Basename(paths[i])
  {
    if paths == [] then [] else [PyStr.Basename(paths[0])] + Basenames(paths[1..])
  }

  /** `check_savefiles_matching`: every saved image has a row naming it, and every row names a saved image. */
  function SaveFilesMatch(imageFiles: seq<string>, rows: seq<AnnRow>): (r: bool)
    ensures r <==>
      (forall i :: 0 <= i < |imageFiles| ==> PyStr.Basename(imageFiles[i]) in RowImageNames(rows))
      && (forall j :: 0 <= j < |rows| ==> rows[j].imageName in Basenames(imageFiles))
  {
    NamesMatch(Basenames(imageFiles), RowImageNames(rows))
  }

  /** Every frame inside some window carries a smoking box. */
  predicate WindowFramesBoxed(windows: seq<Window>, frames: seq<int>, bboxes: seq<FrameBox>) {
    forall f :: f in frames && InWindows(windows, f) ==> exists i :: 0 <= i < |bboxes| && bboxes[i].curFrame == f
  }

  /** Every smoking box is on a frame of the video inside some window. */
  predicate BoxedFramesInWindows(windows: seq<Window>, frames: seq<int>, bboxes: seq<FrameBox>) {
    forall i :: 0 <= i < |bboxes| ==> bboxes[i].curFrame in frames && InWindows(windows, bboxes[i].curFrame)
  }

  /** Row `i` names the image of box `i`. */
  predicate RowsNameBoxes(base: Option<string>, bboxes: seq<FrameBox>, rows: seq<AnnRow>) {
    |rows| == |bboxes| && forall i :: 0 <= i < |rows| ==> rows[i].imageName == ImageName(base, bboxes[i].curFrame)
  }

  /**
   * For one label file, the saved images and the rows name the same images
   * exactly when the frames inside some window are the frames that carry a
   * smoking box.
   */
  lemma SaveCheckIff(base: Option<string>, windows: seq<Window>, frames: seq<int>,
                     bboxes: seq<FrameBox>, rows: seq<AnnRow>)
    requires RowsNameBoxes(base, bboxes, rows)
    ensures NamesMatch(SavedImageNames(base, windows, frames), RowImageNames(rows))
      <==> WindowFramesBoxed(windows, frames, bboxes) && BoxedFramesInWindows(windows, frames, bboxes)
  {
    if NamesMatch(SavedImageNames(base, windows, frames), RowImageNames(rows)) {
      MatchedWindowFramesBoxed(base, windows, frames, bboxes, rows);
      MatchedBoxesInWindows(base, windows, frames, bboxes, rows);
    }
    if WindowFramesBoxed(windows, frames, bboxes) && BoxedFramesInWindows(windows, frames, bboxes) {
      SavedNamesInRows(base, windows, frames, bboxes, rows);
      RowNamesSaved(base, windows, frames, bboxes, rows);
    }
  }

  lemma MatchedWindowFramesBoxed(base: Option<string>, windows: seq<Window>, frames: seq<int>,
                                 bboxes: seq<FrameBox>, rows: seq<AnnRow>)
    requires RowsNameBoxes(base, bboxes, rows)
    requires NamesMatch(SavedImageNames(base, windows, frames), RowImageNames(rows))
    ensures WindowFramesBoxed(windows, frames, bboxes)
  {
    var saved, named := SavedImageNames(base, windows, frames), RowImageNames(rows);
    SavedImageNamesMembers(base, windows, frames);
    forall f | f in frames && InWindows(windows, f)
      ensures exists i :: 0 <= i < |bboxes| && bboxes[i].curFrame == f
    {
      var n := ImageName(base, f);
      assert n in saved;
      var k :| 0 <= k < |saved| && saved[k] == n;
      assert n in named;
      var j :| 0 <= j < |named| && named[j] == n;
      ImageNameInjective(base, f, bboxes[j].curFrame);
    }
  }

  lemma MatchedBoxesInWindows(base: Option<string>, windows: seq<Window>, frames: seq<int>,
                              bboxes: seq<FrameBox>, rows: seq<AnnRow>)
    requires RowsNameBoxes(base, bboxes, rows)
    requires NamesMatch(SavedImageNames(base, windows, frames), RowImageNames(rows))
    ensures BoxedFramesInWindows(windows, frames, bboxes)
  {
    var saved, named := SavedImageNames(base, windows, frames), RowImageNames(rows);
    SavedImageNamesMembers(base, windows, frames);
    forall i | 0 <= i < |bboxes|
      ensures bboxes[i].curFrame in frames && InWindows(windows, bboxes[i].curFrame)
    {
      assert named[i] in saved;
      var f :| f in frames && InWindows(windows, f) && named[i] == ImageName(base, f);
      ImageNameInjective(base, f, bboxes[i].curFrame);
    }
  }

  lemma SavedNamesInRows(base: Option<string>, windows: seq<Window>, frames: seq<int>,
                         bboxes: seq<FrameBox>, rows: seq<AnnRow>)
    requires RowsNameBoxes(base, bboxes, rows)
    requires WindowFramesBoxed(windows, frames, bboxes)
    ensures forall k :: 0 <= k < |SavedImageNames(base, windows, frames)| ==>
      SavedImageNames(base, windows, frames)[k] in RowImageNames(rows)
  {
    var saved, named := SavedImageNames(base, windows, frames), RowImageNames(rows);
    SavedImageNamesMembers(base, windows, frames);
    forall k | 0 <= k < |saved| ensures saved[k] in named {
      assert saved[k] in saved;
      var f :| f in frames && InWindows(windows, f) && saved[k] == ImageName(base, f);
      var i :| 0 <= i < |bboxes| && bboxes[i].curFrame == f;
      assert named[i] == saved[k];
    }
  }

  lemma RowNamesSaved(base: Option<string>, windows: seq<Window>, frames: seq<int>,
                      bboxes: seq<FrameBox>, rows: seq<AnnRow>)
    requires RowsNameBoxes(base, bboxes, rows)
    requires BoxedFramesInWindows(windows, frames, bboxes)
    ensures forall j :: 0 <= j < |rows| ==> RowImageNames(rows)[j] in SavedImageNames(base, windows, frames)
  {
    var saved, named := SavedImageNames(base, windows, frames), RowImageNames(rows);
    SavedImageNamesMembers(base, windows, frames);
    forall j | 0 <= j < |named| ensures named[j] in saved {
      var f := bboxes[j].curFrame;
      assert f in frames && InWindows(windows, f) && named[j] == ImageName(base, f);
    }
  }
}
