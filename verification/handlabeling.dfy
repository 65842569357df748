/**
 * `handlabeling_to_anncsv.py`: a box is picked by two left clicks on an
 * image. The mouse callback keeps the clicked points and two flags; the box
 * is complete when the end flag is set and the start flag is not, and is
 * then turned into centre form.
 */
module HandLabeling {
  import opened Wrappers

  /** `cv2.EVENT_LBUTTONDOWN`. */
  const EventLButtonDown: int := 1

  /** A pixel position as the mouse callback receives it. */
  datatype Point = Point(x: int, y: int)

  /** One call of the mouse callback: the event code and the position. */
  datatype MouseEvent = MouseEvent(code: int, x: int, y: int)

  /** `[x, y, w, h]` of `convert_bbox`: `/` on ints gives a float centre, `-` an int size. */
  datatype CenterBox = CenterBox(x: real, y: real, w: int, h: int)

  /**
   * `convert_bbox`: the midpoint of the two clicks and the signed extent
   * from the first click to the second. Half the extent either side of the
   * centre gives back the two clicks; the size is negative when the second
   * click lies left of or above the first.
   */
  function ConvertBbox(p1: Point, p2: Point): (b: CenterBox)
    ensures b.x - b.w as real / 2.0 == p1.x as real && b.x + b.w as real / 2.0 == p2.x as real
    ensures b.y - b.h as real / 2.0 == p1.y as real && b.y + b.h as real / 2.0 == p2.y as real
    ensures b.w < 0 <==> p2.x < p1.x
    ensures b.h < 0 <==> p2.y < p1.y
  {
    CenterBox((p1.x + p2.x) as real / 2.0, (p1.y + p2.y) as real / 2.0, p2.x - p1.x, p2.y - p1.y)
  }

  // ---------------------------------------------------------------------
  // The click state machine, as a specification

  /** `clicked_points` and `clicked_checker` together. */
  datatype Clicks = Clicks(startPoint: Option<Point>, endPoint: Option<Point>, clickedStart: bool, clickedEnd: bool)

  /** The state `select_bbox` starts from: no points, both flags false. */
  function Initial(): Clicks {
    Clicks(None, None, false, false)
  }

  /** `isBboxCompeleted`. */
  predicate Completed(c: Clicks) {
    c.clickedEnd && !c.clickedStart
  }

  /**
   * One call of `mouse_click_event`. Anything but a left click changes
   * nothing; a left click always leaves exactly one flag set, recording the
   * click as the new start point or, when a box was begun, as its end point.
   */
  function Step(c: Clicks, e: MouseEvent): (r: Clicks)
    ensures e.code != EventLButtonDown ==> r == c
    ensures e.code == EventLButtonDown && !(c.clickedStart && c.clickedEnd) ==>
      (r.clickedStart != r.clickedEnd)
      && (r.clickedStart ==> r.startPoint == Some(Point(e.x, e.y)) && r.endPoint == c.endPoint)
      && (r.clickedEnd ==> r.endPoint == Some(Point(e.x, e.y)) && r.startPoint == c.startPoint)
    ensures Completed(r) && e.code == EventLButtonDown && !(c.clickedStart && c.clickedEnd) ==>
      c.clickedStart && !c.clickedEnd
  {
    if e.code != EventLButtonDown then c
    else if !c.clickedStart then c.(startPoint := Some(Point(e.x, e.y)), clickedStart := true, clickedEnd := false)
    else if !c.clickedEnd then c.(endPoint := Some(Point(e.x, e.y)), clickedStart := false, clickedEnd := true)
    else c
  }

  /** The state after a sequence of callbacks from the initial state. */
  function Run(events: seq<MouseEvent>): Clicks {
    if events == [] then Initial()
    else Step(Run(events[..|events| - 1]), events[|events| - 1])
  }

  /** The positions of the left clicks, in order. */
  function LeftClicks(events: seq<MouseEvent>): (ps: seq<Point>)
    ensures |ps| <= |events|
  {
    if events == [] then []
    else
      var e := events[|events| - 1];
      LeftClicks(events[..|events| - 1]) + (if e.code == EventLButtonDown then [Point(e.x, e.y)] else [])
  }

  /** The left clicks of a concatenation are those of each part, in order. */
  lemma {:induction false} LeftClicksAppend(a: seq<MouseEvent>, b: seq<MouseEvent>)
    ensures LeftClicks(a + b) == LeftClicks(a) + LeftClicks(b)
    decreases |b|
  {
    if b == [] {
      assert a + b == a;
    } else {
      var init := b[..|b| - 1];
      LeftClicksAppend(a, init);
      assert (a + b)[..|a + b| - 1] == a + init;
      assert (a + b)[|a + b| - 1] == b[|b| - 1];
    }
  }

  /** A point is recorded exactly when some left-button event happened there. */
  lemma {:induction false} LeftClicksMembers(events: seq<MouseEvent>)
    ensures forall p :: p in LeftClicks(events) <==>
      exists e :: e in events && e.code == EventLButtonDown && Point(e.x, e.y) == p
  {
    if events != [] {
      var init, e := events[..|events| - 1], events[|events| - 1];
      LeftClicksMembers(init);
      assert events == init + [e];
      forall p | p in LeftClicks(events)
        ensures exists x :: x in events && x.code == EventLButtonDown && Point(x.x, x.y) == p
      {
        if p in LeftClicks(init) {
          var x :| x in init && x.code == EventLButtonDown && Point(x.x, x.y) == p;
          assert x in events;
        } else {
          assert e in events;
        }
      }
      forall p | exists x :: x in events && x.code == EventLButtonDown && Point(x.x, x.y) == p
        ensures p in LeftClicks(events)
      {
        var x :| x in events && x.code == EventLButtonDown && Point(x.x, x.y) == p;
        if x in init {
          assert p in LeftClicks(init);
        } else {
          assert x == e;
        }
      }
    }
  }

  /**
   * The state reached after left clicks at `ps`: after an odd number the
   * last click is a new start point (the end point, if any, is the click
   * before it); after an even, non-zero number the last two clicks are the
   * start and end points of a completed box.
   */
  function AfterClicks(ps: seq<Point>): Clicks {
    var n := |ps|;
    if n == 0 then Initial()
    else if n % 2 == 1 then Clicks(Some(ps[n - 1]), if n >= 2 then Some(ps[n - 2]) else None, true, false)
    else Clicks(Some(ps[n - 2]), Some(ps[n - 1]), false, true)
  }

  /**
   * The callbacks lead to the state `AfterClicks` gives for their left
   * clicks: other events change nothing, and the left clicks alternate
   * between starting a box and completing it.
   */
  lemma {:induction false} RunByClicks(events: seq<MouseEvent>)
    ensures Run(events) == AfterClicks(LeftClicks(events))
  {
    if events != [] {
      var init, e := events[..|events| - 1], events[|events| - 1];
      RunByClicks(init);
      var ps := LeftClicks(init);
      if e.code == EventLButtonDown {
        var qs := ps + [Point(e.x, e.y)];
        assert qs[|qs| - 1] == Point(e.x, e.y);
        if |ps| >= 1 {
          assert qs[|qs| - 2] == ps[|ps| - 1];
        }
        if |ps| >= 2 {
          assert qs[|qs| - 3] == ps[|ps| - 2];
        }
      }
    }
  }

  /** Both flags are never set at once, so the callback's fall-through case never happens. */
  lemma NeverBothFlags(events: seq<MouseEvent>)
    ensures !(Run(events).clickedStart && Run(events).clickedEnd)
  {
    RunByClicks(events);
  }

  /**
   * A box is complete exactly after a non-zero, even number of left clicks,
   * and then it spans the last two of them.
   */
  lemma CompletedAfterPairs(events: seq<MouseEvent>)
    ensures var ps := LeftClicks(events);
      Completed(Run(events)) <==> |ps| > 0 && |ps| % 2 == 0
    ensures var ps := LeftClicks(events);
      Completed(Run(events)) ==>
        Run(events).startPoint == Some(ps[|ps| - 2]) && Run(events).endPoint == Some(ps[|ps| - 1])
  {
    RunByClicks(events);
  }

  /** A left click on a completed box starts a new one: the start point is replaced, the old end point stays. */
  lemma ClickAfterCompletion(c: Clicks, e: MouseEvent)
    requires Completed(c) && e.code == EventLButtonDown
    ensures Step(c, e) == Clicks(Some(Point(e.x, e.y)), c.endPoint, true, false)
    ensures !Completed(Step(c, e))
  {
  }

  /** A completed box always has both points, so `convert_bbox` never sees `None`. */
  lemma CompletedHasPoints(events: seq<MouseEvent>)
    ensures Completed(Run(events)) ==> Run(events).startPoint.Some? && Run(events).endPoint.Some?
  {
    RunByClicks(events);
  }

  // ---------------------------------------------------------------------
  // The callback on shared, mutable state

  /** The two dictionaries the callback receives through `param`. */
  class ClickState {
    var startPoint: Option<Point>
    var endPoint: Option<Point>
    var clickedStart: bool
    var clickedEnd: bool

    function State(): Clicks
      reads this
    {
      Clicks(startPoint, endPoint, clickedStart, clickedEnd)
    }

    /** The dictionaries as `select_bbox` creates them. */
    constructor ()
      ensures State() == Initial()
    {
      startPoint, endPoint := None, None;
      clickedStart, clickedEnd := false, false;
    }

    /** `isBboxCompeleted`. */
    function IsBboxCompleted(): (r: bool)
      reads this
      ensures r <==> Completed(State())
    {
      clickedEnd && !clickedStart
    }

    /** `mouse_click_event`: updates the shared points and flags in place. */
    method MouseClickEvent(e: MouseEvent)
      modifies this
      ensures State() == Step(old(State()), e)
    {
      if e.code == EventLButtonDown {
        if !clickedStart {
          startPoint := Some(Point(e.x, e.y));
          clickedStart, clickedEnd := true, false;
        } else if !clickedEnd {
          endPoint := Some(Point(e.x, e.y));
          clickedStart, clickedEnd := false, true;
        }
      }
    }
  }
}
