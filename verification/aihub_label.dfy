/**
 * The AI-Hub smoking-person label file, as `json.load` returns it, and the
 * parsing steps both AI-Hub conversion scripts share: the events of object 1
 * reduced to inclusive frame windows, frame membership in those windows, the
 * "smoking" annotations sorted by frame, and the corner-pair box turned into
 * centre form.
 */
module AihubLabel {
  import StableSort

  /** `info`: the video file name and the frame size in pixels. */
  datatype Info = Info(filename: string, width: int, height: int)

  /** One entry of `events`. */
  datatype Event = Event(objectId: int, evStartFrame: int, evEndFrame: int)

  datatype Point = Point(x: real, y: real)

  /** One entry of `annotations`: `bbox` is the pair of opposite corners `[[x1, y1], [x2, y2]]`. */
  datatype Annotation = Annotation(className: string, curFrame: int, corner1: Point, corner2: Point)

  /** A whole label file. */
  datatype RawLabel = RawLabel(info: Info, events: seq<Event>, annotations: seq<Annotation>)

  /** An inclusive frame range `[start, end]`. */
  datatype Window = Window(start: int, end: int)

  /** A box by its centre, width and height. */
  datatype CenterBox = CenterBox(xc: real, yc: real, w: real, h: real)

  /** `[cur_frame, bbox]`, one parsed annotation. */
  datatype FrameBox = FrameBox(curFrame: int, bbox: CenterBox)

  /** The object whose events are kept: the smoking person. */
  const TargetObjectId: int := 1

  /** The annotation class that is kept. */
  const SmokingClass: string := "smoking"

  // ---------------------------------------------------------------------
  // Events

  function WindowOf(e: Event): Window {
    Window(e.evStartFrame, e.evEndFrame)
  }

  /** The windows of the events about object 1, in input order. */
  function EventWindows(events: seq<Event>): seq<Window> {
    if events == [] then []
    else
      var e := events[|events| - 1];
      EventWindows(events[..|events| - 1]) + (if e.objectId == TargetObjectId then [WindowOf(e)] else [])
  }

  /** `events_parser`: one append per event of object 1. */
  method ParseEvents(events: seq<Event>) returns (windows: seq<Window>)
    ensures windows == EventWindows(events)
    ensures forall w :: w in windows <==> exists e :: e in events && e.objectId == TargetObjectId && WindowOf(e) == w
  {
    windows := [];
    for i := 0 to |events|
      invariant windows == EventWindows(events[..i])
    {
      assert events[..i + 1][..i] == events[..i];
      if events[i].objectId == TargetObjectId {
        windows := windows + [WindowOf(events[i])];
      }
    }
    assert events[..|events|] == events;
    EventWindowsMembers(events);
  }

  /** Parsing a concatenation parses each part: the filter keeps the input order. */
  lemma {:induction false} EventWindowsAppend(a: seq<Event>, b: seq<Event>)
    ensures EventWindows(a + b) == EventWindows(a) + EventWindows(b)
    decreases |b|
  {
    if b == [] {
      assert a + b == a;
    } else {
      var init := b[..|b| - 1];
      EventWindowsAppend(a, init);
      assert (a + b)[..|a + b| - 1] == a + init;
      assert (a + b)[|a + b| - 1] == b[|b| - 1];
    }
  }

  /** A window is produced exactly when an event of object 1 has that range. */
  lemma {:induction false} EventWindowsMembers(events: seq<Event>)
    ensures forall w :: w in EventWindows(events) <==>
      exists e :: e in events && e.objectId == TargetObjectId && WindowOf(e) == w
  {
    if events != [] {
      var init, e := events[..|events| - 1], events[|events| - 1];
      EventWindowsMembers(init);
      assert events == init + [e];
      forall w | w in EventWindows(events)
        ensures exists x :: x in events && x.objectId == TargetObjectId && WindowOf(x) == w
      {
        if w in EventWindows(init) {
          var x :| x in init && x.objectId == TargetObjectId && WindowOf(x) == w;
          assert x in events;
        } else {
          assert e in events;
        }
      }
      forall w | exists x :: x in events && x.objectId == TargetObjectId && WindowOf(x) == w
        ensures w in EventWindows(events)
      {
        var x :| x in events && x.objectId == TargetObjectId && WindowOf(x) == w;
        if x in init {
          assert w in EventWindows(init);
        } else {
          assert x == e;
        }
      }
    }
  }

  function StartOf(w: Window): int {
    w.start
  }

  /** `sorted(event_frames, key=lambda x: x[0])`. */
  function SortedWindows(windows: seq<Window>): seq<Window> {
    StableSort.SortBy(windows, StartOf)
  }

  /** The sorted windows are ordered by start frame, hold the same windows, and keep ties in order. */
  lemma SortedWindowsProperties(windows: seq<Window>)
    ensures StableSort.SortedBy(SortedWindows(windows), StartOf)
    ensures multiset(SortedWindows(windows)) == multiset(windows)
    ensures forall k :: StableSort.KeyRun(SortedWindows(windows), StartOf, k) == StableSort.KeyRun(windows, StartOf, k)
  {
    StableSort.SortBySorted(windows, StartOf);
    StableSort.SortByPermutes(windows, StartOf);
    forall k ensures StableSort.KeyRun(SortedWindows(windows), StartOf, k) == StableSort.KeyRun(windows, StartOf, k) {
      StableSort.SortByStable(windows, StartOf, k);
    }
  }

  // ---------------------------------------------------------------------
  // Window membership

  /** `any(start <= f <= end for start, end in windows)`, evaluated left to right. */
  function InWindows(windows: seq<Window>, f: int): (r: bool)
    ensures r <==> exists i :: 0 <= i < |windows| && windows[i].start <= f <= windows[i].end
  {
    if windows == [] then false
    else if windows[0].start <= f <= windows[0].end then true
    else
      var r := InWindows(windows[1..], f);
      assert r ==> exists i :: 1 <= i < |windows| && windows[i].start <= f <= windows[i].end by {
        if r {
          var j :| 0 <= j < |windows[1..]| && windows[1..][j].start <= f <= windows[1..][j].end;
          assert windows[j + 1] == windows[1..][j];
        }
      }
      r
  }

  /** Membership depends only on which windows there are: order and grouping do not matter. */
  lemma InWindowsPermutation(a: seq<Window>, b: seq<Window>, f: int)
    requires multiset(a) == multiset(b)
    ensures InWindows(a, f) == InWindows(b, f)
  {
    if InWindows(a, f) {
      var i :| 0 <= i < |a| && a[i].start <= f <= a[i].end;
      assert a[i] in multiset(b);
      var j :| 0 <= j < |b| && b[j] == a[i];
    }
    if InWindows(b, f) {
      var j :| 0 <= j < |b| && b[j].start <= f <= b[j].end;
      assert b[j] in multiset(a);
      var i :| 0 <= i < |a| && a[i] == b[j];
    }
  }

  /** Sorting the windows by start frame selects the same frames. */
  lemma InSortedWindows(windows: seq<Window>, f: int)
    ensures InWindows(SortedWindows(windows), f) == InWindows(windows, f)
  {
    StableSort.SortByPermutes(windows, StartOf);
    InWindowsPermutation(SortedWindows(windows), windows, f);
  }

  /** The frames inside some window, in video order. */
  function Qualifying(windows: seq<Window>, frames: seq<int>): (qs: seq<int>)
    ensures |qs| <= |frames|
    ensures forall k :: 0 <= k < |qs| ==> InWindows(windows, qs[k])
  {
    if frames == [] then []
    else
      var f := frames[|frames| - 1];
      Qualifying(windows, frames[..|frames| - 1]) + (if InWindows(windows, f) then [f] else [])
  }

  /** Filtering a concatenation filters each part: the in-window frames keep their video order. */
  lemma {:induction false} QualifyingAppend(windows: seq<Window>, a: seq<int>, b: seq<int>)
    ensures Qualifying(windows, a + b) == Qualifying(windows, a) + Qualifying(windows, b)
    decreases |b|
  {
    if b == [] {
      assert a + b == a;
    } else {
      var init := b[..|b| - 1];
      QualifyingAppend(windows, a, init);
      assert (a + b)[..|a + b| - 1] == a + init;
      assert (a + b)[|a + b| - 1] == b[|b| - 1];
    }
  }

  /** A frame is kept exactly when it is a frame of the video inside some window. */
  lemma {:induction false} QualifyingMembers(windows: seq<Window>, frames: seq<int>)
    ensures forall f :: f in Qualifying(windows, frames) <==> f in frames && InWindows(windows, f)
  {
    if frames != [] {
      var init, last := frames[..|frames| - 1], frames[|frames| - 1];
      QualifyingMembers(windows, init);
      assert frames == init + [last];
    }
  }

  // ---------------------------------------------------------------------
  // Annotations

  /** `[a for a in annotations if a["class_name"] == "smoking"]`. */
  function SmokingAnnotations(anns: seq<Annotation>): seq<Annotation> {
    if anns == [] then []
    else
      var a := anns[|anns| - 1];
      SmokingAnnotations(anns[..|anns| - 1]) + (if a.className == SmokingClass then [a] else [])
  }

  /** Filtering a concatenation filters each part: the kept annotations keep their input order. */
  lemma {:induction false} SmokingAnnotationsAppend(a: seq<Annotation>, b: seq<Annotation>)
    ensures SmokingAnnotations(a + b) == SmokingAnnotations(a) + SmokingAnnotations(b)
    decreases |b|
  {
    if b == [] {
      assert a + b == a;
    } else {
      var init := b[..|b| - 1];
      SmokingAnnotationsAppend(a, init);
      assert (a + b)[..|a + b| - 1] == a + init;
      assert (a + b)[|a + b| - 1] == b[|b| - 1];
    }
  }

  /** Every smoking annotation is kept, as often as it occurs, and no other. */
  lemma {:induction false} SmokingAnnotationsCount(anns: seq<Annotation>)
    ensures forall a ::
      multiset(SmokingAnnotations(anns))[a] == if a.className == SmokingClass then multiset(anns)[a] else 0
  {
    if anns != [] {
      var init, last := anns[..|anns| - 1], anns[|anns| - 1];
      SmokingAnnotationsCount(init);
      assert anns == init + [last];
    }
  }

  function FrameOf(a: Annotation): int {
    a.curFrame
  }

  /** The order in which `annotations_parser` visits annotations: the smoking ones, sorted by frame. */
  function ParsedOrder(anns: seq<Annotation>): seq<Annotation> {
    StableSort.SortBy(SmokingAnnotations(anns), FrameOf)
  }

  /**
   * The visited annotations are exactly the smoking ones (with multiplicity),
   * in non-decreasing frame order, equal frames in input order.
   */
  lemma ParsedOrderProperties(anns: seq<Annotation>)
    ensures StableSort.SortedBy(ParsedOrder(anns), FrameOf)
    ensures forall a ::
      multiset(ParsedOrder(anns))[a] == if a.className == SmokingClass then multiset(anns)[a] else 0
    ensures forall k ::
      StableSort.KeyRun(ParsedOrder(anns), FrameOf, k) == StableSort.KeyRun(SmokingAnnotations(anns), FrameOf, k)
  {
    var kept := SmokingAnnotations(anns);
    StableSort.SortBySorted(kept, FrameOf);
    StableSort.SortByPermutes(kept, FrameOf);
    SmokingAnnotationsCount(anns);
    forall k ensures StableSort.KeyRun(ParsedOrder(anns), FrameOf, k) == StableSort.KeyRun(kept, FrameOf, k) {
      StableSort.SortByStable(kept, FrameOf, k);
    }
  }

  /**
   * The centre form of a corner pair: the midpoint and the signed extent.
   * Half the extent either side of the centre gives back the two corners.
   */
  function CornersToCenter(a: Annotation): (b: CenterBox)
    ensures b.xc - b.w / 2.0 == a.corner1.x && b.yc - b.h / 2.0 == a.corner1.y
    ensures b.xc + b.w / 2.0 == a.corner2.x && b.yc + b.h / 2.0 == a.corner2.y
  {
    var p, q := a.corner1, a.corner2;
    CenterBox((p.x + q.x) / 2.0, (p.y + q.y) / 2.0, q.x - p.x, q.y - p.y)
  }
}
