/**
 * Scene-space points and segments, and the axis snap a guideline applies
 * (qtannotator.py:145-150). Coordinates are exact real numbers. Qt's
 * QPointF holds doubles, and the differences the snap compares, like the
 * widths a QRectF stores, are rounded there; the model does not round.
 */
module Geometry {

  datatype Point = Point(x: real, y: real)

  /** A segment from `p1` to `p2`, in that order (QLineF keeps its ends as given). */
  datatype Line = Line(p1: Point, p2: Point)

  function Abs(r: real): (a: real)
    ensures a >= 0.0 && (a == r || a == -r)
  {
    if r < 0.0 then -r else r
  }

  function Max(a: real, b: real): (m: real)
    ensures m >= a && m >= b && (m == a || m == b)
  {
    if a < b then b else a
  }

  /** A segment that is horizontal or vertical (or a single point). */
  predicate AxisAligned(l: Line) {
    l.p1.x == l.p2.x || l.p1.y == l.p2.y
  }

  /** Length of a segment measured along the axes (|dx| + |dy|). */
  function AxisLength(l: Line): (d: real)
    ensures d >= 0.0
  {
    Abs(l.p2.x - l.p1.x) + Abs(l.p2.y - l.p1.y)
  }

  /**
   * The end of a guideline dragged from `start` to `end`: the pointer
   * position projected onto the horizontal line through `start` when the
   * horizontal displacement is strictly larger, and onto the vertical line
   * through `start` otherwise, so a tie snaps vertically.
   *
   * The contract does not spell the two branches out: it says that the
   * result is one of the two projections, that the snapped segment keeps the
   * larger of the two displacements, and how a tie is broken. Together these
   * fix the result.
   */
  function SnapEnd(start: Point, end: Point): (p: Point)
    ensures (p.x == end.x && p.y == start.y) || (p.x == start.x && p.y == end.y)
    ensures AxisAligned(Line(p, start))
    ensures AxisLength(Line(p, start)) == Max(Abs(end.x - start.x), Abs(end.y - start.y))
    ensures Abs(end.x - start.x) == Abs(end.y - start.y) ==> p.x == start.x
  {
    var dx, dy := end.x - start.x, end.y - start.y;
    if Abs(dx) > Abs(dy) then Point(end.x, start.y) else Point(start.x, end.y)
  }

  /**
   * Away from the anchor itself, the snapped end is the horizontal
   * projection exactly when |dx| > |dy|. (At the anchor both projections
   * are the anchor.)
   */
  lemma SnapHorizontalIff(start: Point, end: Point)
    requires end != start
    ensures SnapEnd(start, end).y == start.y <==> Abs(end.x - start.x) > Abs(end.y - start.y)
  {
  }
}
