/**
 * The gesture arithmetic of onTouchStart, onResizeMove and onMove: the stored
 * contact points, the pinch delta and the pan proposal.
 */
module Gestures {
  import opened Reals

  /** A contact point in page coordinates (a touch, or the mouse pointer). */
  datatype Point = Point(pageX: real, pageY: real)

  /**
   * touchObj: the first contact and the second one (0, 0 when there is none).
   * onMove treats (firstX, firstY) as the point the pan started from,
   * onResizeMove the pair as the previous two-finger spread.
   */
  datatype TouchObj = TouchObj(firstX: real, firstY: real, secondX: real, secondY: real)

  /**
   * What the handlers read of an event: the touch list of a touch event, or,
   * for a pointer or mouse event (which has no touch list), the event itself
   * as its one point.
   */
  datatype PointerInput = TouchInput(touches: seq<Point>) | PointInput(at: Point)

  /** The contacts of an event, in the browser's order. */
  function Contacts(e: PointerInput): (ps: seq<Point>)
    ensures e.PointInput? ==> ps == [e.at]
  {
    if e.TouchInput? then e.touches else [e.at]
  }

  /**
   * The record onTouchStart keeps for the contacts of a touchstart: the first
   * one always, the second one when exactly two fingers are down.
   */
  function Capture(touches: seq<Point>): (t: TouchObj)
    requires |touches| >= 1
    ensures t.firstX == touches[0].pageX && t.firstY == touches[0].pageY
    ensures |touches| == 2 ==> t.secondX == touches[1].pageX && t.secondY == touches[1].pageY
    ensures |touches| != 2 ==> t.secondX == 0.0 && t.secondY == 0.0
  {
    var t := TouchObj(touches[0].pageX, touches[0].pageY, 0.0, 0.0);
    if |touches| == 2 then t.(secondX := touches[1].pageX, secondY := touches[1].pageY) else t
  }

  /** The stored horizontal and vertical spread of the two contacts. */
  function StoredDX(t: TouchObj): real { Abs(t.firstX - t.secondX) }
  function StoredDY(t: TouchObj): real { Abs(t.firstY - t.secondY) }

  /** The current horizontal and vertical spread of two contacts. */
  function SpreadX(touch1: Point, touch2: Point): real { Abs(touch2.pageX - touch1.pageX) }
  function SpreadY(touch1: Point, touch2: Point): real { Abs(touch2.pageY - touch1.pageY) }

  /**
   * onResizeMove's sizeChanged: of the change of horizontal spread and the
   * change of vertical spread, the one larger in magnitude; the vertical one
   * when the magnitudes are equal.
   */
  function PinchDelta(t: TouchObj, touch1: Point, touch2: Point): (d: real)
    ensures var wc := SpreadX(touch1, touch2) - StoredDX(t);
            var hc := SpreadY(touch1, touch2) - StoredDY(t);
            (d == wc || d == hc) && Abs(d) >= Abs(wc) && Abs(d) >= Abs(hc)
            && (Abs(wc) == Abs(hc) ==> d == hc)
  {
    var widthChange := SpreadX(touch1, touch2) - StoredDX(t);
    var heightChange := SpreadY(touch1, touch2) - StoredDY(t);
    if Abs(widthChange) > Abs(heightChange) then widthChange else heightChange
  }

  /**
   * The record onResizeMove leaves behind: touch2 becomes the first contact
   * and touch1 the second, so the stored spread is the current one.
   */
  function Swapped(touch1: Point, touch2: Point): (t: TouchObj)
    ensures StoredDX(t) == SpreadX(touch1, touch2) && StoredDY(t) == SpreadY(touch1, touch2)
    ensures t.firstX == touch2.pageX && t.firstY == touch2.pageY
    ensures t.secondX == touch1.pageX && t.secondY == touch1.pageY
  {
    TouchObj(touch2.pageX, touch2.pageY, touch1.pageX, touch1.pageY)
  }

  /** Fingers that keep their spread on both axes do not zoom. */
  lemma StillFingersDoNotZoom(t: TouchObj, touch1: Point, touch2: Point)
    requires SpreadX(touch1, touch2) == StoredDX(t) && SpreadY(touch1, touch2) == StoredDY(t)
    ensures PinchDelta(t, touch1, touch2) == 0.0
  {
  }

  /**
   * What a touchstart leaves for the moves that follow. After a two-finger
   * touchstart the stored spread is the contacts' own, so a move that keeps
   * them does not zoom. After a one-finger touchstart the second contact is
   * (0, 0), so a later pinch is measured against the spread from the page
   * origin. A pan from the start contact proposes the committed position.
   */
  lemma CaptureStartsGesture(ts: seq<Point>, top: real, left: real)
    requires |ts| >= 1
    ensures |ts| == 2 ==> StoredDX(Capture(ts)) == SpreadX(ts[0], ts[1])
                          && StoredDY(Capture(ts)) == SpreadY(ts[0], ts[1])
                          && PinchDelta(Capture(ts), ts[0], ts[1]) == 0.0
    ensures |ts| != 2 ==> StoredDX(Capture(ts)) == Abs(ts[0].pageX) && StoredDY(Capture(ts)) == Abs(ts[0].pageY)
    ensures PanProposal(top, left, Capture(ts), ts[0]) == (top, left)
  {
    if |ts| == 2 {
      StillFingersDoNotZoom(Capture(ts), ts[0], ts[1]);
    }
  }

  /**
   * A second move event with the same two contacts zooms no further: the
   * record left by the first one already holds their spread.
   */
  lemma RepeatedMoveDoesNotZoom(touch1: Point, touch2: Point)
    ensures PinchDelta(Swapped(touch1, touch2), touch1, touch2) == 0.0
  {
    StillFingersDoNotZoom(Swapped(touch1, touch2), touch1, touch2);
  }

  /** The order in which the browser lists the two contacts does not matter. */
  lemma ContactOrderIrrelevant(t: TouchObj, touch1: Point, touch2: Point)
    ensures PinchDelta(t, touch2, touch1) == PinchDelta(t, touch1, touch2)
    ensures StoredDX(Swapped(touch2, touch1)) == StoredDX(Swapped(touch1, touch2))
    ensures StoredDY(Swapped(touch2, touch1)) == StoredDY(Swapped(touch1, touch2))
  {
  }

  /** Spreading both axes by the same amount zooms by exactly that amount. */
  lemma UniformSpreadZoomsByIt(t: TouchObj, touch1: Point, touch2: Point, k: real)
    requires SpreadX(touch1, touch2) == StoredDX(t) + k && SpreadY(touch1, touch2) == StoredDY(t) + k
    ensures PinchDelta(t, touch1, touch2) == k
  {
  }

  /** onMove's proposal: the committed position plus the displacement from the start contact. */
  function PanProposal(top: real, left: real, t: TouchObj, p: Point): (r: (real, real))
    ensures r.0 - top == p.pageY - t.firstY && r.1 - left == p.pageX - t.firstX
    ensures p == Point(t.firstX, t.firstY) ==> r == (top, left)
  {
    (top + (p.pageY - t.firstY), left + (p.pageX - t.firstX))
  }

  /**
   * The pan is measured from the touchstart contact, not from the previous
   * move: two proposals differ by exactly the difference of their contacts,
   * and a pointer back at the start contact proposes the committed position.
   */
  lemma PanIsRelativeToStart(top: real, left: real, t: TouchObj, p: Point, q: Point)
    ensures PanProposal(top, left, t, q).0 - PanProposal(top, left, t, p).0 == q.pageY - p.pageY
    ensures PanProposal(top, left, t, q).1 - PanProposal(top, left, t, p).1 == q.pageX - p.pageX
    ensures PanProposal(top, left, t, Point(t.firstX, t.firstY)) == (top, left)
  {
  }
}
