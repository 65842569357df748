/**
 * `aihub_to_yolo/aihub_to_yolov8txt.py`: an AI-Hub label file and its video
 * become YOLOv8 training pairs. `JsonLabelParser` normalises each smoking box
 * by the frame size; `DatasetMaker` walks the video, counts the frames inside
 * the event windows and keeps every `extract_step`-th of them, pairing the
 * k-th counted frame with the k-th box.
 *
 * The video is the sequence of frame numbers it reports; whether it opens and
 * which files exist are given. Written files are represented by their paths
 * and, for labels, the values written.
 */
module AihubToYolo {
  import opened Wrappers
  import PyNum
  import PyStr
  import VideoIdentifier
  import opened AihubLabel

  const RawVideoPath: string := "raw_data/video/"
  const ResultImagesPath: string := "processed_data/images/"
  const ResultLabelPath: string := "processed_data/label/"

  /** The exceptions the script can raise. */
  datatype YoloError =
    | MatchingVideoNotFound   // RuntimeError "MATCHING VIDEO NOT FOUND"
    | VideoNameMismatch       // RuntimeError "VIDEO NAME IN LABEL DOES NOT MATCHING"
    | DivisionByZero          // ZeroDivisionError
    | CannotOpenVideo         // RuntimeError "Cannot open"
    | IndexOutOfRange         // IndexError on bbox_list
    | NoIdentifier            // RuntimeError from _generate_unique_namebase

  /** `get_label_infos()`. */
  datatype LabelInfos = LabelInfos(
    videoName: string, frameWidth: int, frameHeight: int, eventFrames: seq<Window>, bboxes: seq<FrameBox>)

  // ---------------------------------------------------------------------
  // JsonLabelParser

  /**
   * `round(v, 2)` has at most two decimals and is within half a hundredth
   * of `v`; an exact tie may go either way.
   */
  predicate RoundedFrom(r: real, v: real) {
    PyNum.IsHundredths(r) && -0.005 <= r - v <= 0.005
  }

  /**
   * `_annotation_parser`: the centre-form box divided by the frame size,
   * each number rounded to two decimals; the frame passes through.
   */
  function NormalisedBox(a: Annotation, frameWidth: int, frameHeight: int): (fb: FrameBox)
    requires frameWidth != 0 && frameHeight != 0
    ensures fb.curFrame == a.curFrame
    ensures var fw, fh := frameWidth as real, frameHeight as real;
      && RoundedFrom(fb.bbox.xc, (a.corner1.x + a.corner2.x) / 2.0 / fw)
      && RoundedFrom(fb.bbox.yc, (a.corner1.y + a.corner2.y) / 2.0 / fh)
      && RoundedFrom(fb.bbox.w, (a.corner2.x - a.corner1.x) / fw)
      && RoundedFrom(fb.bbox.h, (a.corner2.y - a.corner1.y) / fh)
  {
    var c := CornersToCenter(a);
    var fw, fh := frameWidth as real, frameHeight as real;
    FrameBox(a.curFrame, CenterBox(
      PyNum.Round2(c.xc / fw), PyNum.Round2(c.yc / fh), PyNum.Round2(c.w / fw), PyNum.Round2(c.h / fh)))
  }

  /**
   * `_annotations_parser`: the smoking annotations sorted by frame, each
   * normalised. A zero frame dimension divides by zero at the first one.
   */
  method AnnotationsParser(anns: seq<Annotation>, frameWidth: int, frameHeight: int)
    returns (r: Result<seq<FrameBox>, YoloError>)
    ensures r.Failure? <==> |ParsedOrder(anns)| > 0 && (frameWidth == 0 || frameHeight == 0)
    ensures r.Failure? ==> r.error == DivisionByZero
    ensures r.Success? ==> |r.value| == |ParsedOrder(anns)|
    ensures r.Success? ==> forall i :: 0 <= i < |r.value| ==>
      r.value[i] == NormalisedBox(ParsedOrder(anns)[i], frameWidth, frameHeight)
    ensures r.Success? ==> forall i, j :: 0 <= i < j < |r.value| ==> r.value[i].curFrame <= r.value[j].curFrame
  {
    var kept := ParsedOrder(anns);
    ParsedOrderProperties(anns);
    var bboxes: seq<FrameBox> := [];
    for i := 0 to |kept|
      invariant |bboxes| == i
      invariant i > 0 ==> frameWidth != 0 && frameHeight != 0
      invariant forall k :: 0 <= k < i ==> bboxes[k] == NormalisedBox(kept[k], frameWidth, frameHeight)
    {
      if frameWidth == 0 || frameHeight == 0 {
        return Failure(DivisionByZero);
      }
      bboxes := bboxes + [NormalisedBox(kept[i], frameWidth, frameHeight)];
    }
    return Success(bboxes);
  }

  /** `_check_matching_video`: the video expected beside a label file. */
  function ExpectedVideoName(labelFile: string): string {
    PyStr.PathStem(labelFile) + ".mp4"
  }

  /**
   * `JsonLabelParser(label_file).get_label_infos()`. `existing` is the set
   * of paths that exist; `raw` is the loaded JSON.
   */
  method ParseLabel(labelFile: string, existing: set<string>, raw: RawLabel) returns (r: Result<LabelInfos, YoloError>)
    ensures RawVideoPath + ExpectedVideoName(labelFile) !in existing ==> r == Failure(MatchingVideoNotFound)
    ensures RawVideoPath + ExpectedVideoName(labelFile) in existing && raw.info.filename != ExpectedVideoName(labelFile)
      ==> r == Failure(VideoNameMismatch)
    ensures r.Success? ==>
      && RawVideoPath + ExpectedVideoName(labelFile) in existing
      && r.value.videoName == raw.info.filename == ExpectedVideoName(labelFile)
      && r.value.frameWidth == raw.info.width && r.value.frameHeight == raw.info.height
      && r.value.eventFrames == SortedWindows(EventWindows(raw.events))
      && |r.value.bboxes| == |ParsedOrder(raw.annotations)|
      && (|ParsedOrder(raw.annotations)| > 0 ==> raw.info.width != 0 && raw.info.height != 0)
      && forall i :: 0 <= i < |r.value.bboxes| ==>
        r.value.bboxes[i] == NormalisedBox(ParsedOrder(raw.annotations)[i], raw.info.width, raw.info.height)
    ensures r.Failure? && r.error == DivisionByZero <==>
      && RawVideoPath + ExpectedVideoName(labelFile) in existing
      && raw.info.filename == ExpectedVideoName(labelFile)
      && |ParsedOrder(raw.annotations)| > 0 && (raw.info.width == 0 || raw.info.height == 0)
    ensures r.Success? <==>
      && RawVideoPath + ExpectedVideoName(labelFile) in existing
      && raw.info.filename == ExpectedVideoName(labelFile)
      && !(|ParsedOrder(raw.annotations)| > 0 && (raw.info.width == 0 || raw.info.height == 0))
    ensures r.Failure? ==> r.error in {MatchingVideoNotFound, VideoNameMismatch, DivisionByZero}
  {
    var videoName := ExpectedVideoName(labelFile);
    if RawVideoPath + videoName !in existing {
      return Failure(MatchingVideoNotFound);
    }
    if videoName != raw.info.filename {
      return Failure(VideoNameMismatch);
    }
    var windows := ParseEvents(raw.events);
    var bboxes := AnnotationsParser(raw.annotations, raw.info.width, raw.info.height);
    if bboxes.Failure? {
      return Failure(bboxes.error);
    }
    return Success(LabelInfos(raw.info.filename, raw.info.width, raw.info.height, SortedWindows(windows), bboxes.value));
  }

  // ---------------------------------------------------------------------
  // Sampling parameters

  /** `extract_size` and `extract_step`. */
  datatype Sampling = Sampling(extractSize: int, extractStep: int)

  /**
   * `extract_size = int(len(bbox_list) * extract_ratio)` and
   * `extract_step = len(bbox_list) // extract_size`; a zero size divides by zero.
   */
  function SamplingOf(count: nat, ratio: real): (r: Result<Sampling, YoloError>)
    ensures r.Failure? <==> PyNum.Trunc(count as real * ratio) == 0
    ensures r.Failure? ==> r.error == DivisionByZero
    ensures r.Success? ==> r.value.extractSize == PyNum.Trunc(count as real * ratio)
    ensures r.Success? && 0 < r.value.extractSize ==>
      r.value.extractStep * r.value.extractSize <= count < (r.value.extractStep + 1) * r.value.extractSize
    ensures r.Success? && r.value.extractSize < 0 ==>
      (r.value.extractStep + 1) * r.value.extractSize < count <= r.value.extractStep * r.value.extractSize
  {
    var size := PyNum.Trunc(count as real * ratio);
    if size == 0 then Failure(DivisionByZero)
    else Success(Sampling(size, PyNum.FloorDiv(count, size)))
  }

  /** A negative ratio gives a negative size, and `//` rounds the step down: 10 boxes at -0.3 give step -4. */
  lemma NegativeRatioExample()
    ensures SamplingOf(10, -0.3) == Success(Sampling(-3, -4))
  {
    assert PyNum.Trunc(10.0 * -0.3) == -3;
    PyNum.DivUnique(10, 3, 3, 1);
  }

  /** The default ratio 1.0 keeps every box: size is the box count and step 1. */
  lemma FullRatio(count: nat)
    requires count > 0
    ensures SamplingOf(count, 1.0) == Success(Sampling(count, 1))
  {
    PyNum.DivUnique(count, count, 1, 0);
  }

  /** A ratio in (0, 1] that keeps at least one box gives a positive step and at most `count` samples. */
  lemma FractionalRatio(count: nat, ratio: real)
    requires 0.0 < ratio <= 1.0 && SamplingOf(count, ratio).Success?
    ensures var s := SamplingOf(count, ratio).value;
      0 < s.extractSize <= count && 1 <= s.extractStep
  {
    TruncOfFraction(count, ratio);
    var r := SamplingOf(count, ratio).value;
    var size, step := r.extractSize, r.extractStep;
    assert 0 < size <= count;
    assert count < (step + 1) * size;
    QuotientAtLeastOne(count, size, step);
  }

  lemma TruncOfFraction(count: nat, ratio: real)
    requires 0.0 < ratio <= 1.0
    ensures 0 <= PyNum.Trunc(count as real * ratio) <= count
  {
    FractionOfCount(count as real, ratio);
  }

  lemma QuotientAtLeastOne(count: int, size: int, step: int)
    requires 0 < size <= count < (step + 1) * size
    ensures 1 <= step
  {
    assert (step + 1) * size == step * size + size;
    assert step * size > 0;
  }

  lemma FractionOfCount(c: real, ratio: real)
    requires 0.0 <= c && 0.0 < ratio <= 1.0
    ensures 0.0 <= c * ratio <= c
  {
    assert c - c * ratio == c * (1.0 - ratio);
  }

  /** The ratio the script runs with, on 100 and on 99 boxes. */
  lemma ScriptRatioExamples()
    ensures SamplingOf(100, 0.01) == Success(Sampling(1, 100))
    ensures SamplingOf(99, 0.01) == Failure(DivisionByZero)
  {
    assert 100 as real * 0.01 == 1.0;
  }

  /** A ratio above 1 can make the step 0, which divides by zero at the first in-window frame. */
  lemma LargeRatioExample()
    ensures SamplingOf(3, 2.0) == Success(Sampling(6, 0))
  {
    assert 3 as real * 2.0 == 6.0;
  }

  // ---------------------------------------------------------------------
  // The selection loop, as a specification

  /** What `generate_dataset` reads from the maker. */
  datatype Plan = Plan(windows: seq<Window>, step: int, bboxes: seq<FrameBox>, classId: int, namebase: string)

  /** One label file: its path and `[class_id] + bbox`. */
  datatype YoloLabel = YoloLabel(path: string, classId: int, bbox: CenterBox)

  /** `saving_count` and what has been written so far; `error` is the exception that ended the loop. */
  datatype RunState = RunState(count: nat, images: seq<string>, labels: seq<YoloLabel>, error: Option<YoloError>)

  function ImageFile(namebase: string, frame: int): string {
    ResultImagesPath + namebase + "_" + PyStr.IntToString(frame) + ".jpg"
  }

  function LabelFile(namebase: string, frame: int): string {
    ResultLabelPath + namebase + "_" + PyStr.IntToString(frame) + ".txt"
  }

  /**
   * One frame of the loop body, from a state without an error. Files are
   * only ever added, at most one image and one label per frame, and the
   * counter rises by at most one, never by less than the labels written.
   */
  function Visit(p: Plan, s: RunState, f: int): (r: RunState)
    ensures s.images <= r.images && |r.images| <= |s.images| + 1
    ensures s.labels <= r.labels && |r.labels| - |s.labels| <= r.count - s.count <= 1
    ensures r.error.Some? ==> r.error == s.error || r.error == Some(DivisionByZero) || r.error == Some(IndexOutOfRange)
    ensures s.error.None? && |s.images| == |s.labels| ==>
      if r.error == Some(IndexOutOfRange) then |r.images| == |r.labels| + 1 else |r.images| == |r.labels|
  {
    if !InWindows(p.windows, f) then s
    else if p.step == 0 then s.(error := Some(DivisionByZero))
    else if PyNum.Mod(s.count, p.step) != 0 then s.(count := s.count + 1)
    else
      var images := s.images + [ImageFile(p.namebase, f)];
      if s.count >= |p.bboxes| then RunState(s.count, images, s.labels, Some(IndexOutOfRange))
      else
        var written := YoloLabel(LabelFile(p.namebase, f), p.classId, p.bboxes[s.count].bbox);
        RunState(s.count + 1, images, s.labels + [written], None)
  }

  /**
   * The loop over the frames, stopping at the first exception. Images and
   * labels are written in pairs, except the image of the frame whose box was
   * out of range, written before the `IndexError`; `RunFailure` says which
   * files those are.
   */
  function Run(p: Plan, frames: seq<int>): (r: RunState)
    ensures |r.labels| <= r.count <= |frames| && |r.images| <= |frames|
    ensures r.error.Some? ==> r.error == Some(DivisionByZero) || r.error == Some(IndexOutOfRange)
    ensures if r.error == Some(IndexOutOfRange) then |r.images| == |r.labels| + 1 else |r.images| == |r.labels|
  {
    if frames == [] then RunState(0, [], [], None)
    else
      var s := Run(p, frames[..|frames| - 1]);
      if s.error.Some? then s else Visit(p, s, frames[|frames| - 1])
  }

  /** The name of a frame's files, without directory or extension. */
  function FrameName(namebase: string, frame: int): string {
    namebase + "_" + PyStr.IntToString(frame)
  }

  /** A name base without a directory separator gives frame names without one. */
  lemma FrameNameIsFileName(namebase: string, f: int)
    requires forall i :: 0 <= i < |namebase| ==> namebase[i] != '/'
    ensures forall i :: 0 <= i < |FrameName(namebase, f)| ==> FrameName(namebase, f)[i] != '/'
    ensures !PyStr.AllDots(FrameName(namebase, f))
  {
    var n := PyStr.IntToString(f);
    var name := FrameName(namebase, f);
    PyStr.IntToStringChars(f);
    forall i | 0 <= i < |name| ensures name[i] != '/' {
      if i < |namebase| {
        assert name[i] == namebase[i];
      } else if i > |namebase| {
        assert name[i] == n[i - |namebase| - 1];
      }
    }
    assert name[|namebase|] == '_';
  }

  /** A frame's file in a directory, with a three-letter extension, has the frame name as its stem. */
  lemma FrameFileStem(dir: string, namebase: string, f: int, ext: string)
    requires dir != [] && dir[|dir| - 1] == '/'
    requires forall i :: 0 <= i < |namebase| ==> namebase[i] != '/'
    requires ext == ".jpg" || ext == ".txt"
    ensures PyStr.PathStem(dir + FrameName(namebase, f) + ext) == FrameName(namebase, f)
  {
    FrameNameIsFileName(namebase, f);
    assert ext[0] == '.' && ext[1] != '.' && ext[2] != '.' && ext[3] != '.';
    assert ext[1] != '/' && ext[2] != '/' && ext[3] != '/';
    PyStr.PathStemOf(dir, FrameName(namebase, f), ext);
  }

  /** The image and the label of a frame share their stem, which names the frame; YOLO pairs them by it. */
  lemma FramePairStem(namebase: string, f: int)
    requires forall i :: 0 <= i < |namebase| ==> namebase[i] != '/'
    ensures PyStr.PathStem(ImageFile(namebase, f)) == FrameName(namebase, f)
    ensures PyStr.PathStem(LabelFile(namebase, f)) == FrameName(namebase, f)
  {
    assert ImageFile(namebase, f) == ResultImagesPath + FrameName(namebase, f) + ".jpg";
    assert LabelFile(namebase, f) == ResultLabelPath + FrameName(namebase, f) + ".txt";
    FrameFileStem(ResultImagesPath, namebase, f, ".jpg");
    FrameFileStem(ResultLabelPath, namebase, f, ".txt");
  }

  /** Different frames get different image and label files, so no written file is overwritten. */
  lemma FrameFilesDistinct(namebase: string, f: int, g: int)
    ensures ImageFile(namebase, f) == ImageFile(namebase, g) <==> f == g
    ensures LabelFile(namebase, f) == LabelFile(namebase, g) <==> f == g
  {
    PyStr.NumberedNameInjective(ResultImagesPath + namebase + "_", f, g, ".jpg");
    PyStr.NumberedNameInjective(ResultLabelPath + namebase + "_", f, g, ".txt");
  }

  /** Once an exception is raised the remaining frames are not read. */
  lemma {:induction false} RunStopsAtError(p: Plan, frames: seq<int>, i: nat)
    requires i <= |frames| && Run(p, frames[..i]).error.Some?
    ensures Run(p, frames) == Run(p, frames[..i])
    decreases |frames| - i
  {
    if i < |frames| {
      assert frames[..i + 1][..i] == frames[..i];
      RunStopsAtError(p, frames, i + 1);
    } else {
      assert frames[..i] == frames;
    }
  }

  // ---------------------------------------------------------------------
  // The selection loop, as a reference: positions among the in-window frames

  /**
   * The loop ends without an exception on `n` in-window frames: the step is
   * not zero (unless there are none) and every sampled position `k`, those
   * with `k % step == 0`, has a box.
   */
  predicate NoFailure(p: Plan, n: nat) {
    n == 0 || (p.step != 0 && forall k :: 0 <= k < n && PyNum.Mod(k, p.step) == 0 ==> k < |p.bboxes|)
  }

  /** The images of the sampled in-window frames: position `k` is sampled iff `k % step == 0`. */
  function SampledImages(p: Plan, qs: seq<int>): seq<string>
    requires qs == [] || p.step != 0
  {
    if qs == [] then []
    else
      var k := |qs| - 1;
      SampledImages(p, qs[..k]) + (if PyNum.Mod(k, p.step) == 0 then [ImageFile(p.namebase, qs[k])] else [])
  }

  /** The labels of the sampled in-window frames: position `k` gets the `k`-th box. */
  function SampledLabels(p: Plan, qs: seq<int>): seq<YoloLabel>
    requires NoFailure(p, |qs|)
  {
    if qs == [] then []
    else
      var k := |qs| - 1;
      SampledLabels(p, qs[..k])
        + (if PyNum.Mod(k, p.step) == 0 then [YoloLabel(LabelFile(p.namebase, qs[k]), p.classId, p.bboxes[k].bbox)] else [])
  }

  lemma NoFailureShorter(p: Plan, m: nat, n: nat)
    requires m <= n && NoFailure(p, n)
    ensures NoFailure(p, m)
  {
  }

  /**
   * The loop counts every in-window frame, writes the image of the k-th one
   * when `k % step == 0` together with the label holding the k-th box, and
   * raises exactly when `NoFailure` does not hold.
   */
  lemma {:induction false} RunMatchesReference(p: Plan, frames: seq<int>)
    ensures var qs := Qualifying(p.windows, frames);
      NoFailure(p, |qs|) ==> Run(p, frames) == RunState(|qs|, SampledImages(p, qs), SampledLabels(p, qs), None)
    ensures !NoFailure(p, |Qualifying(p.windows, frames)|) <==> Run(p, frames).error.Some?
  {
    if frames != [] {
      var init, f := frames[..|frames| - 1], frames[|frames| - 1];
      RunMatchesReference(p, init);
      var qi, qs := Qualifying(p.windows, init), Qualifying(p.windows, frames);
      var s := Run(p, init);
      assert Run(p, frames) == if s.error.Some? then s else Visit(p, s, f);
      if s.error.Some? {
        var n, m := |qi|, |qs|;
        if NoFailure(p, m) {
          NoFailureShorter(p, n, m);
        }
      } else if InWindows(p.windows, f) {
        assert qs == qi + [f];
        ReferenceStep(p, qi, f, s);
      } else {
        assert qs == qi;
      }
    }
  }

  /**
   * What an exception ending the loop over the in-window frames `qs` means
   * for the state `r`. A zero step raises `ZeroDivisionError` at the first
   * in-window frame; otherwise an `IndexError` is raised exactly when a
   * sampled position has no box. The counter then stops at the failing
   * position, the files written are the reference's for the positions
   * before it, and an `IndexError` leaves one more image: that of the
   * failing frame, written before its box is read.
   */
  predicate FailureAsReference(p: Plan, qs: seq<int>, r: RunState) {
    && (r.error == Some(DivisionByZero) <==> p.step == 0 && |qs| > 0)
    && (r.error == Some(IndexOutOfRange) <==>
        p.step != 0 && exists k :: 0 <= k < |qs| && PyNum.Mod(k, p.step) == 0 && k >= |p.bboxes|)
    && (r.error.Some? ==>
        && r.count < |qs| && NoFailure(p, r.count) && !NoFailure(p, r.count + 1)
        && r.images
           == SampledImages(p, qs[..r.count]) + (if r.error == Some(IndexOutOfRange) then [ImageFile(p.namebase, qs[r.count])] else [])
        && r.labels == SampledLabels(p, qs[..r.count]))
  }

  /** Which exception ends the loop, and what it leaves behind. */
  lemma {:induction false} RunFailure(p: Plan, frames: seq<int>)
    ensures FailureAsReference(p, Qualifying(p.windows, frames), Run(p, frames))
  {
    if frames != [] {
      var init, f := frames[..|frames| - 1], frames[|frames| - 1];
      RunFailure(p, init);
      RunMatchesReference(p, init);
      var qi, qs := Qualifying(p.windows, init), Qualifying(p.windows, frames);
      var s := Run(p, init);
      assert Run(p, frames) == if s.error.Some? then s else Visit(p, s, f);
      if !InWindows(p.windows, f) {
        assert qs == qi;
      } else if s.error.Some? {
        assert qs == qi + [f];
        FailureKept(p, qi, f, s);
      } else {
        assert qs == qi + [f];
        ReferenceStep(p, qi, f, s);
        FailureAtStep(p, qi, f, Visit(p, s, f));
      }
    }
  }

  /** A failure already raised stays described as the in-window frames grow. */
  lemma FailureKept(p: Plan, qi: seq<int>, f: int, s: RunState)
    requires FailureAsReference(p, qi, s) && s.error.Some?
    requires s.error == Some(DivisionByZero) || s.error == Some(IndexOutOfRange)
    ensures FailureAsReference(p, qi + [f], s)
  {
    var qs, c := qi + [f], s.count;
    assert qs[..c] == qi[..c] && qs[c] == qi[c];
    if p.step != 0 && exists k :: 0 <= k < |qs| && PyNum.Mod(k, p.step) == 0 && k >= |p.bboxes| {
      assert s.error != Some(DivisionByZero);
    }
  }

  /** The step on which the first failure is raised is described by the reference before it. */
  lemma FailureAtStep(p: Plan, qi: seq<int>, f: int, r: RunState)
    requires NoFailure(p, |qi|) && (r.error.Some? <==> !NoFailure(p, |qi| + 1))
    requires r.error == Some(DivisionByZero) <==> p.step == 0
    requires r.error == Some(IndexOutOfRange) <==> p.step != 0 && PyNum.Mod(|qi|, p.step) == 0 && |qi| >= |p.bboxes|
    requires r.error.Some? ==>
      && r.count == |qi|
      && r.images == SampledImages(p, qi) + (if p.step != 0 then [ImageFile(p.namebase, f)] else [])
      && r.labels == SampledLabels(p, qi)
    ensures FailureAsReference(p, qi + [f], r)
  {
    var n, qs := |qi|, qi + [f];
    assert qs[..n] == qi && qs[n] == f;
    if p.step != 0 && PyNum.Mod(n, p.step) == 0 && n >= |p.bboxes| {
      assert 0 <= n < |qs| && PyNum.Mod(n, p.step) == 0 && n >= |p.bboxes|;
    }
  }

  /** One in-window frame after a run that matched the reference still matches it. */
  lemma ReferenceStep(p: Plan, qi: seq<int>, f: int, s: RunState)
    requires InWindows(p.windows, f) && NoFailure(p, |qi|)
    requires s == RunState(|qi|, SampledImages(p, qi), SampledLabels(p, qi), None)
    ensures NoFailure(p, |qi| + 1) ==>
      Visit(p, s, f) == RunState(|qi| + 1, SampledImages(p, qi + [f]), SampledLabels(p, qi + [f]), None)
    ensures !NoFailure(p, |qi| + 1) <==> Visit(p, s, f).error.Some?
    ensures Visit(p, s, f).error == Some(DivisionByZero) <==> p.step == 0
    ensures Visit(p, s, f).error == Some(IndexOutOfRange) <==>
      p.step != 0 && PyNum.Mod(|qi|, p.step) == 0 && |qi| >= |p.bboxes|
    ensures Visit(p, s, f).error.Some? ==>
      && Visit(p, s, f).count == |qi|
      && Visit(p, s, f).images
         == SampledImages(p, qi) + (if p.step != 0 then [ImageFile(p.namebase, f)] else [])
      && Visit(p, s, f).labels == SampledLabels(p, qi)
  {
    var n, qs := |qi|, qi + [f];
    assert qs[..n] == qi && qs[n] == f;
    if p.step != 0 && PyNum.Mod(n, p.step) == 0 && n < |p.bboxes| {
      assert NoFailure(p, n + 1);
    } else if p.step != 0 && PyNum.Mod(n, p.step) != 0 {
      assert NoFailure(p, n + 1);
    }
  }

  // ---------------------------------------------------------------------
  // Closed forms for a positive step

  /** How many of the positions `0 .. n-1` are multiples of `step`. */
  function SampleCount(n: nat, step: int): int
    requires step > 0
  {
    (n + step - 1) / step
  }

  lemma SampleCountStep(n: nat, step: int)
    requires step > 0
    ensures n % step == 0 ==> SampleCount(n, step) * step == n && SampleCount(n + 1, step) == SampleCount(n, step) + 1
    ensures n % step != 0 ==> SampleCount(n + 1, step) == SampleCount(n, step)
  {
    var q, r := n / step, n % step;
    assert n == q * step + r;
    if r == 0 {
      PyNum.DivUnique(n + step - 1, step, q, step - 1);
      PyNum.DivUnique(n + step, step, q + 1, 0);
    } else {
      PyNum.DivUnique(n + step - 1, step, q + 1, r - 1);
      PyNum.DivUnique(n + step, step, q + 1, r);
    }
  }

  /** The sampled positions among `0 .. n-1`: those with `k % step == 0`, in increasing order. */
  function SampledPositions(n: nat, step: int): (ps: seq<nat>)
    requires step != 0
    ensures forall j :: 0 <= j < |ps| ==> ps[j] < n && PyNum.Mod(ps[j], step) == 0
  {
    if n == 0 then []
    else SampledPositions(n - 1, step) + (if PyNum.Mod(n - 1, step) == 0 then [n - 1] else [])
  }

  /** The j-th image is that of the in-window frame at the j-th sampled position. */
  lemma {:induction false} ImagesByPosition(p: Plan, qs: seq<int>)
    requires p.step != 0
    ensures var ps := SampledPositions(|qs|, p.step);
      |SampledImages(p, qs)| == |ps|
      && forall j :: 0 <= j < |ps| ==> SampledImages(p, qs)[j] == ImageFile(p.namebase, qs[ps[j]])
  {
    if qs != [] {
      var n := |qs| - 1;
      var qi := qs[..n];
      ImagesByPosition(p, qi);
      var prev, all := SampledPositions(n, p.step), SampledPositions(|qs|, p.step);
      forall j | 0 <= j < |prev| ensures qs[prev[j]] == qi[prev[j]] {
      }
    }
  }

  /** The j-th label pairs the in-window frame at the j-th sampled position with the box at that position. */
  lemma {:induction false} LabelsByPosition(p: Plan, qs: seq<int>)
    requires p.step != 0 && NoFailure(p, |qs|)
    ensures var ps := SampledPositions(|qs|, p.step);
      |SampledLabels(p, qs)| == |ps|
      && forall j :: 0 <= j < |ps| ==>
        (ps[j] < |p.bboxes|
         && SampledLabels(p, qs)[j] == YoloLabel(LabelFile(p.namebase, qs[ps[j]]), p.classId, p.bboxes[ps[j]].bbox))
  {
    if qs != [] {
      var n := |qs| - 1;
      var qi := qs[..n];
      NoFailureShorter(p, n, |qs|);
      LabelsByPosition(p, qi);
      var prev := SampledPositions(n, p.step);
      forall j | 0 <= j < |prev| ensures qs[prev[j]] == qi[prev[j]] {
      }
    }
  }

  /** With a positive step the sampled positions are `0, step, 2 * step, ...`. */
  lemma {:induction false} PositionsClosedForm(n: nat, step: int)
    requires step > 0
    ensures |SampledPositions(n, step)| == SampleCount(n, step)
    ensures forall j :: 0 <= j < |SampledPositions(n, step)| ==> SampledPositions(n, step)[j] == j * step
  {
    if n == 0 {
      PyNum.DivUnique(step - 1, step, 0, step - 1);
    } else {
      var m := n - 1;
      PositionsClosedForm(m, step);
      SampleCountStep(m, step);
      assert PyNum.Mod(m, step) == m % step by {
        PyNum.DivUnique(m, step, PyNum.FloorDiv(m, step), PyNum.Mod(m, step));
      }
    }
  }

  /** With step 1 (the default ratio) every in-window frame is written, with the box at its own position. */
  lemma StepOneKeepsAll(p: Plan, qs: seq<int>)
    requires p.step == 1 && NoFailure(p, |qs|)
    ensures |SampledImages(p, qs)| == |SampledLabels(p, qs)| == |qs|
    ensures forall k :: 0 <= k < |qs| ==>
      (SampledImages(p, qs)[k] == ImageFile(p.namebase, qs[k]) && SampledLabels(p, qs)[k].bbox == p.bboxes[k].bbox)
  {
    var ps := SampledPositions(|qs|, 1);
    ImagesByPosition(p, qs);
    LabelsByPosition(p, qs);
    PositionsClosedForm(|qs|, 1);
    PyNum.DivUnique(|qs|, 1, |qs|, 0);
    assert |ps| == |qs|;
    forall k | 0 <= k < |qs| ensures ps[k] == k {
      assert ps[k] == k * 1;
    }
  }

  /** A label file found by `glob` in any directory is paired with the video of the same stem. */
  lemma ExpectedVideoOfLabel(dir: string, stem: string)
    requires dir == [] || dir[|dir| - 1] == '/'
    requires forall i :: 0 <= i < |stem| ==> stem[i] != '/'
    requires !PyStr.AllDots(stem)
    ensures ExpectedVideoName(dir + stem + ".json") == stem + ".mp4"
  {
    assert ".json"[0] == '.' && ".json"[1] != '.' && ".json"[2] != '.' && ".json"[3] != '.' && ".json"[4] != '.';
    PyStr.PathStemOf(dir, stem, ".json");
  }

  /** Enough boxes for every in-window frame always keeps the positional pairing in range. */
  lemma EnoughBoxes(p: Plan, n: nat)
    requires p.step != 0 && n <= |p.bboxes|
    ensures NoFailure(p, n)
  {
  }

  /**
   * With the script's ratio on 100 boxes (step 100), a 101st in-window frame
   * is sampled (position 100) and has no box: the pairing runs out of range.
   */
  lemma OneFrameTooMany(p: Plan)
    requires |p.bboxes| == 100 && p.step == 100
    ensures NoFailure(p, 100)
    ensures !NoFailure(p, 101)
  {
    assert PyNum.Mod(100, 100) == 0;
    forall k | 0 <= k < 100 && PyNum.Mod(k, 100) == 0 ensures k < 100 {
    }
  }

  // ---------------------------------------------------------------------
  // DatasetMaker

  class DatasetMaker {
    const videoName: string
    const videoFile: string
    const eventFrames: seq<Window>
    const bboxList: seq<FrameBox>
    const classId: int
    const extractSize: int
    const extractStep: int
    const resultNamebase: string

    /** `__init__` once the video is known to exist and the sampling is computed. */
    constructor (infos: LabelInfos, classId: int, sampling: Sampling)
      ensures videoName == infos.videoName && videoFile == RawVideoPath + infos.videoName
      ensures eventFrames == infos.eventFrames && bboxList == infos.bboxes && this.classId == classId
      ensures extractSize == sampling.extractSize && extractStep == sampling.extractStep
      ensures resultNamebase == PyStr.BeforeFirstDot(infos.videoName)
    {
      videoName := infos.videoName;
      videoFile := RawVideoPath + infos.videoName;
      eventFrames := infos.eventFrames;
      bboxList := infos.bboxes;
      this.classId := classId;
      extractSize := sampling.extractSize;
      extractStep := sampling.extractStep;
      resultNamebase := PyStr.BeforeFirstDot(infos.videoName);
    }

    /**
     * `DatasetMaker(label_infos, class_id, extract_ratio)`: fails when the
     * video is missing or when the sampling divides by zero.
     */
    static method Create(infos: LabelInfos, classId: int, extractRatio: real, existing: set<string>)
      returns (r: Result<DatasetMaker, YoloError>)
      ensures RawVideoPath + infos.videoName !in existing ==> r.Failure? && r.error == MatchingVideoNotFound
      ensures RawVideoPath + infos.videoName in existing ==>
        (r.Failure? <==> SamplingOf(|infos.bboxes|, extractRatio).Failure?)
      ensures RawVideoPath + infos.videoName in existing && r.Failure? ==> r.error == DivisionByZero
      ensures r.Failure? && r.error == DivisionByZero ==> PyNum.Trunc(|infos.bboxes| as real * extractRatio) == 0
      ensures r.Success? ==>
        && r.value.videoName == infos.videoName && r.value.eventFrames == infos.eventFrames
        && r.value.bboxList == infos.bboxes && r.value.classId == classId
        && Success(Sampling(r.value.extractSize, r.value.extractStep)) == SamplingOf(|infos.bboxes|, extractRatio)
        && r.value.resultNamebase == PyStr.BeforeFirstDot(infos.videoName)
    {
      if RawVideoPath + infos.videoName !in existing {
        return Failure(MatchingVideoNotFound);
      }
      var sampling := SamplingOf(|infos.bboxes|, extractRatio);
      if sampling.Failure? {
        return Failure(sampling.error);
      }
      var maker := new DatasetMaker(infos, classId, sampling.value);
      return Success(maker);
    }

    function PlanOf(): Plan {
      Plan(eventFrames, extractStep, bboxList, classId, resultNamebase)
    }

    /**
     * `generate_dataset`: the images and labels written, in order, and the
     * exception that stopped it, if any. `videoOpened` is whether the video
     * opens; `frames` the frame numbers it reports.
     */
    method GenerateDataset(videoOpened: bool, frames: seq<int>)
      returns (images: seq<string>, labels: seq<YoloLabel>, error: Option<YoloError>)
      ensures !videoOpened ==> images == [] && labels == [] && error == Some(CannotOpenVideo)
      ensures videoOpened ==> var s := Run(PlanOf(), frames);
        images == s.images && labels == s.labels && error == s.error
    {
      images, labels, error := [], [], None;
      if !videoOpened {
        error := Some(CannotOpenVideo);
        return;
      }
      var p := PlanOf();
      var savingCount: nat := 0;
      var i := 0;
      while i < |frames| && error.None?
        invariant 0 <= i <= |frames|
        invariant RunState(savingCount, images, labels, error) == Run(p, frames[..i])
      {
        assert frames[..i + 1][..i] == frames[..i];
        var curFrame := frames[i];
        if InWindows(eventFrames, curFrame) {
          if extractStep == 0 {
            error := Some(DivisionByZero);
          } else if PyNum.Mod(savingCount, extractStep) == 0 {
            images := images + [ImageFile(resultNamebase, curFrame)];
            if savingCount >= |bboxList| {
              error := Some(IndexOutOfRange);
            } else {
              labels := labels + [YoloLabel(LabelFile(resultNamebase, curFrame), classId, bboxList[savingCount].bbox)];
              savingCount := savingCount + 1;
            }
          } else {
            savingCount := savingCount + 1;
          }
        }
        i := i + 1;
      }
      if i < |frames| {
        RunStopsAtError(p, frames, i);
      } else {
        assert frames[..i] == frames;
      }
    }

    /** `_generate_unique_namebase`: the video's identifier, or an exception when it has none. */
    function GenerateUniqueNamebase(): (r: Result<string, YoloError>)
      ensures r.Failure? <==> forall i: nat :: !VideoIdentifier.MatchesAt(videoName, i)
      ensures r.Failure? ==> r.error == NoIdentifier
      ensures r.Success? ==> VideoIdentifier.IsIdentifier(r.value) && Some(r.value) == VideoIdentifier.NameBase(videoName)
    {
      match VideoIdentifier.NameBase(videoName)
      case None => Failure(NoIdentifier)
      case Some(id) => Success(id)
    }
  }

  /** The name base of a `<stem>.mp4` video is its stem when the stem has no dot. */
  lemma NamebaseOfVideo(stem: string)
    requires forall i :: 0 <= i < |stem| ==> stem[i] != '.'
    ensures PyStr.BeforeFirstDot(stem + ".mp4") == stem
  {
    var s := stem + ".mp4";
    assert s[|stem|] == '.';
    assert s[..|stem|] == stem;
  }
}
