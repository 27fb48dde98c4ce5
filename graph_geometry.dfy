/**
 * The coordinate arithmetic of drawFPSGraph and drawCPUUsageGraph
 * (esp32c3/src/main.cpp): which screen points the i-th line segment of a graph joins.
 * The drawing calls themselves are left out; a graph is modelled as the list of
 * segments it would draw.
 */
module GraphGeometry {
  import opened SampleRing
  import opened Arith

  const GraphX: int := 2
  const GraphY: int := 2
  const GraphWidth: int := 155
  const GraphHeight: int := 45

  /** The leftmost x of a graph point, `GRAPH_X + 3`. */
  const Left: int := GraphX + 3
  /** The rightmost x, `GRAPH_X + 3 + (GRAPH_WIDTH - 6)`. */
  const Right: int := GraphX + 3 + (GraphWidth - 6)
  /** The smallest y a point may take, `GRAPH_Y + 3`. */
  const Top: int := GraphY + 3
  /** The largest y, `GRAPH_Y + GRAPH_HEIGHT - 3`: the baseline of a value at the bottom of the scale. */
  const Bottom: int := GraphY + GraphHeight - 3

  /** `GRAPH_X + 3 + (i * (GRAPH_WIDTH - 6)) / (count - 1)`, in C's integer division. */
  function XCoord(i: int, count: int): int
    requires count > 1 && 0 <= i < count
  {
    GraphX + 3 + (i * (GraphWidth - 6)) / (count - 1)
  }

  /** The x of the first point is 5 and that of the last is 154, whatever the count. */
  lemma XCoordEnds(count: int)
    requires count > 1
    ensures XCoord(0, count) == Left
    ensures XCoord(count - 1, count) == Right
  {
    MulDivCancel(count - 1, GraphWidth - 6);
  }

  /** x never decreases along the graph, so every x lies in [5, 154]. */
  lemma XCoordMonotone(i: int, j: int, count: int)
    requires count > 1 && 0 <= i <= j < count
    ensures XCoord(i, count) <= XCoord(j, count)
    ensures Left <= XCoord(i, count) <= Right
  {
    DivMono(i * (GraphWidth - 6), j * (GraphWidth - 6), count - 1);
    DivMono(i * (GraphWidth - 6), (count - 1) * (GraphWidth - 6), count - 1);
    XCoordEnds(count);
  }

  /** The conversion of a float to `int` in C: truncation toward zero. */
  function TruncToZero(x: real): (r: int)
    ensures 0.0 <= x ==> r as real <= x < r as real + 1.0
    ensures x < 0.0 ==> r as real - 1.0 < x <= r as real
  {
    if x >= 0.0 then x.Floor else -((-x).Floor)
  }

  lemma TruncMono(x: real, y: real)
    requires x <= y
    ensures TruncToZero(x) <= TruncToZero(y)
  {
  }

  /** Arduino's `constrain(v, lo, hi)`. */
  function Constrain(v: int, lo: int, hi: int): int
  {
    if v < lo then lo else if v > hi then hi else v
  }

  /** `GRAPH_Y + GRAPH_HEIGHT - 3 - ((v - lo) / (hi - lo)) * (GRAPH_HEIGHT - 6)`, before truncation. */
  function ExactY(v: real, sc: Scale): real
    requires sc.hi > sc.lo
  {
    Bottom as real - ((v - sc.lo) / (sc.hi - sc.lo)) * (GraphHeight - 6) as real
  }

  /** The y of a sample: the exact position truncated to an int and constrained to [5, 44]. */
  function YCoord(v: real, sc: Scale): (y: int)
    requires sc.hi > sc.lo
    ensures Top <= y <= Bottom
  {
    Constrain(TruncToZero(ExactY(v, sc)), Top, Bottom)
  }

  /** A larger value is never drawn lower: y does not increase with the value. */
  lemma YCoordMonotone(v1: real, v2: real, sc: Scale)
    requires sc.hi > sc.lo && v1 <= v2
    ensures YCoord(v2, sc) <= YCoord(v1, sc)
  {
    var d := sc.hi - sc.lo;
    assert (v1 - sc.lo) / d <= (v2 - sc.lo) / d by {
      assert (v2 - sc.lo) / d - (v1 - sc.lo) / d == (v2 - v1) / d;
    }
    assert ExactY(v2, sc) <= ExactY(v1, sc);
    TruncMono(ExactY(v2, sc), ExactY(v1, sc));
  }

  /**
   * A sample inside the scale needs no clamping: its y is the exact position rounded
   * down, so it is drawn less than one pixel above where it belongs.
   */
  lemma YCoordInScale(v: real, sc: Scale)
    requires sc.hi > sc.lo && sc.lo <= v <= sc.hi
    ensures YCoord(v, sc) as real <= ExactY(v, sc) < YCoord(v, sc) as real + 1.0
  {
    var d := sc.hi - sc.lo;
    var f := (v - sc.lo) / d;
    assert 0.0 <= f <= 1.0 by {
      assert v - sc.lo <= d;
      assert f * d == v - sc.lo;
    }
    assert Top as real <= ExactY(v, sc) <= Bottom as real;
  }

  /** One `drawLine(x1, y1, x2, y2)` of a graph. */
  datatype Segment = Segment(x1: int, y1: int, x2: int, y2: int)

  /** The segment from point k to point k + 1 of the samples `w`, oldest first. */
  function PolylineSegment(w: seq<real>, sc: Scale, k: int): Segment
    requires sc.hi > sc.lo && 0 <= k < |w| - 1
  {
    Segment(XCoord(k, |w|), YCoord(w[k], sc), XCoord(k + 1, |w|), YCoord(w[k + 1], sc))
  }

  /**
   * The segments a graph draws for the samples `w` (oldest first): the loop over
   * `i = 1 .. count - 1` joins point i - 1 to point i. One sample or none draws nothing.
   */
  function Polyline(w: seq<real>, sc: Scale): (segs: seq<Segment>)
    requires sc.hi > sc.lo
    ensures |segs| == if |w| > 1 then |w| - 1 else 0
  {
    if |w| <= 1 then []
    else seq(|w| - 1, k requires 0 <= k < |w| - 1 => PolylineSegment(w, sc, k))
  }

  /** A list of segments is the polyline when it has its length and each of its segments. */
  lemma PolylineByElements(w: seq<real>, sc: Scale, segs: seq<Segment>)
    requires sc.hi > sc.lo && |segs| == (if |w| > 1 then |w| - 1 else 0)
    requires forall k :: 0 <= k < |segs| ==> segs[k] == PolylineSegment(w, sc, k)
    ensures segs == Polyline(w, sc)
  {
  }

  /**
   * The segments form one connected line from x = 5 to x = 154, moving right or
   * staying put at each step, inside the graph's box.
   */
  lemma PolylineShape(w: seq<real>, sc: Scale)
    requires sc.hi > sc.lo && |w| > 1
    ensures var segs := Polyline(w, sc);
      segs[0].x1 == Left && segs[|segs| - 1].x2 == Right
      && (forall k :: 0 <= k < |segs| - 1 ==> segs[k].x2 == segs[k + 1].x1 && segs[k].y2 == segs[k + 1].y1)
      && (forall k :: 0 <= k < |segs| ==>
            segs[k].x1 <= segs[k].x2 && Left <= segs[k].x1 && segs[k].x2 <= Right
            && Top <= segs[k].y1 <= Bottom && Top <= segs[k].y2 <= Bottom)
  {
    var segs := Polyline(w, sc);
    XCoordEnds(|w|);
    forall k | 0 <= k < |segs|
      ensures segs[k].x1 <= segs[k].x2 && Left <= segs[k].x1 && segs[k].x2 <= Right
    {
      XCoordMonotone(k, k + 1, |w|);
      XCoordMonotone(k + 1, k + 1, |w|);
    }
  }
}
