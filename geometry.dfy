/** Geometry kernel of the feature generation: bounding boxes, closed-segment
    intersection, the auto-closing line/polygon test and the strict
    containment test of a line in a box.

    All coordinates are integers.  The centre of a bounding box is a
    half-integer, so a line between two centres is handled in DOUBLED
    coordinates: a `Segment` given to `LinePolyIntersection` and
    `LineInBoundingBox` has coordinates scaled by 2, and polygon points are
    scaled by `Twice` before they are compared with it.  `ScaleInvariant`
    shows that this does not change any intersection outcome. */
module Geometry {

  datatype Point = Point(x: int, y: int)

  /** A coordinate list as the page collaborator delivers it; never empty. */
  type Polygon = s: seq<Point> | |s| > 0 witness [Point(0, 0)]

  /** An axis-parallel box, in the source's order (min_x, max_x, min_y, max_y). */
  datatype BBox = BBox(minX: int, maxX: int, minY: int, maxY: int)

  function Min(a: int, b: int): int { if a <= b then a else b }

  function Max(a: int, b: int): int { if a >= b then a else b }

  predicate Encloses(b: BBox, p: Point) {
    b.minX <= p.x <= b.maxX && b.minY <= p.y <= b.maxY
  }

  /** `get_bounding_box`: the min/max reduction over both coordinates. */
  function BoundingBox(ps: Polygon): BBox {
    if |ps| == 1 then BBox(ps[0].x, ps[0].x, ps[0].y, ps[0].y)
    else
      var r := BoundingBox(ps[1..]);
      BBox(Min(ps[0].x, r.minX), Max(ps[0].x, r.maxX), Min(ps[0].y, r.minY), Max(ps[0].y, r.maxY))
  }

  /** Every point lies in the bounding box and every side of the box is
      touched by a point. */
  lemma {:induction false} BoundingBoxSpec(ps: Polygon)
    ensures forall i :: 0 <= i < |ps| ==> Encloses(BoundingBox(ps), ps[i])
    ensures exists i :: 0 <= i < |ps| && ps[i].x == BoundingBox(ps).minX
    ensures exists i :: 0 <= i < |ps| && ps[i].x == BoundingBox(ps).maxX
    ensures exists i :: 0 <= i < |ps| && ps[i].y == BoundingBox(ps).minY
    ensures exists i :: 0 <= i < |ps| && ps[i].y == BoundingBox(ps).maxY
  {
    if |ps| > 1 {
      var tail := ps[1..];
      BoundingBoxSpec(tail);
      var r := BoundingBox(tail);
      assert forall i :: 1 <= i < |ps| ==> ps[i] == tail[i - 1];
      var i1 :| 0 <= i1 < |tail| && tail[i1].x == r.minX;
      var i2 :| 0 <= i2 < |tail| && tail[i2].x == r.maxX;
      var i3 :| 0 <= i3 < |tail| && tail[i3].y == r.minY;
      var i4 :| 0 <= i4 < |tail| && tail[i4].y == r.maxY;
      assert ps[i1 + 1] == tail[i1] && ps[i2 + 1] == tail[i2] && ps[i3 + 1] == tail[i3] && ps[i4 + 1] == tail[i4];
    } else {
      var b := BoundingBox(ps);
      assert ps[0].x == b.minX && ps[0].x == b.maxX && ps[0].y == b.minY && ps[0].y == b.maxY;
    }
  }

  function Translate(p: Point, dx: int, dy: int): Point { Point(p.x + dx, p.y + dy) }

  function TranslateAll(ps: Polygon, dx: int, dy: int): (r: Polygon)
    ensures |r| == |ps|
    ensures forall i :: 0 <= i < |ps| ==> r[i] == Translate(ps[i], dx, dy)
  {
    seq(|ps|, i requires 0 <= i < |ps| => Translate(ps[i], dx, dy))
  }

  /** Moving every point moves the bounding box by the same offset. */
  lemma {:induction false} BoundingBoxTranslate(ps: Polygon, dx: int, dy: int)
    ensures BoundingBox(TranslateAll(ps, dx, dy))
         == BBox(BoundingBox(ps).minX + dx, BoundingBox(ps).maxX + dx,
                 BoundingBox(ps).minY + dy, BoundingBox(ps).maxY + dy)
  {
    if |ps| > 1 {
      BoundingBoxTranslate(ps[1..], dx, dy);
      assert TranslateAll(ps, dx, dy)[1..] == TranslateAll(ps[1..], dx, dy);
    }
  }

  // ---------------------------------------------------------------------
  // Closed segments

  datatype Segment = Segment(a: Point, b: Point)

  function Reverse(s: Segment): Segment { Segment(s.b, s.a) }

  function Twice(p: Point): Point { Point(2 * p.x, 2 * p.y) }

  function TwiceSegment(s: Segment): Segment { Segment(Twice(s.a), Twice(s.b)) }

  /** Twice the signed area of the triangle (p, q, r). */
  function Orient(p: Point, q: Point, r: Point): int {
    (q.x - p.x) * (r.y - p.y) - (q.y - p.y) * (r.x - p.x)
  }

  predicate Opposite(u: int, v: int) { (u > 0 && v < 0) || (u < 0 && v > 0) }

  /** r lies in the axis-parallel box spanned by p and q. */
  predicate InSpan(p: Point, q: Point, r: Point) {
    Min(p.x, q.x) <= r.x <= Max(p.x, q.x) && Min(p.y, q.y) <= r.y <= Max(p.y, q.y)
  }

  /** r lies on the closed segment from p to q. */
  predicate OnSegment(p: Point, q: Point, r: Point) {
    Orient(p, q, r) == 0 && InSpan(p, q, r)
  }

  /** Two closed segments share a point (shapely's `intersects` on two
      two-point line strings): they cross properly, or an endpoint of one
      lies on the other.  Degenerate (one-point) segments are included. */
  predicate SegmentsIntersect(s: Segment, t: Segment) {
    || (Opposite(Orient(t.a, t.b, s.a), Orient(t.a, t.b, s.b))
        && Opposite(Orient(s.a, s.b, t.a), Orient(s.a, s.b, t.b)))
    || OnSegment(t.a, t.b, s.a) || OnSegment(t.a, t.b, s.b)
    || OnSegment(s.a, s.b, t.a) || OnSegment(s.a, s.b, t.b)
  }

  lemma OrientSwap(p: Point, q: Point, r: Point)
    ensures Orient(q, p, r) == -Orient(p, q, r)
  {
    assert Orient(q, p, r) == (p.x - q.x) * (r.y - q.y) - (p.y - q.y) * (r.x - q.x);
  }

  lemma OrientTwice(p: Point, q: Point, r: Point)
    ensures Orient(Twice(p), Twice(q), Twice(r)) == 4 * Orient(p, q, r)
  {
    var u := (q.x - p.x) * (r.y - p.y);
    var v := (q.y - p.y) * (r.x - p.x);
    assert (2 * q.x - 2 * p.x) * (2 * r.y - 2 * p.y) == 4 * u;
    assert (2 * q.y - 2 * p.y) * (2 * r.x - 2 * p.x) == 4 * v;
  }

  lemma SegmentsIntersectSymmetric(s: Segment, t: Segment)
    ensures SegmentsIntersect(s, t) == SegmentsIntersect(t, s)
  {
  }

  /** The direction of a segment does not matter. */
  lemma SegmentsIntersectReverse(s: Segment, t: Segment)
    ensures SegmentsIntersect(Reverse(s), t) == SegmentsIntersect(s, t)
    ensures SegmentsIntersect(s, Reverse(t)) == SegmentsIntersect(s, t)
  {
    OrientSwap(s.a, s.b, t.a);
    OrientSwap(s.a, s.b, t.b);
    OrientSwap(s.a, s.b, s.a);
    OrientSwap(s.a, s.b, s.b);
    OrientSwap(t.a, t.b, s.a);
    OrientSwap(t.a, t.b, s.b);
    OrientSwap(t.a, t.b, t.a);
    OrientSwap(t.a, t.b, t.b);
  }

  /** Scaling all coordinates by 2 (the doubled coordinates of the line
      strategy) changes no intersection outcome. */
  lemma ScaleInvariant(s: Segment, t: Segment)
    ensures SegmentsIntersect(TwiceSegment(s), TwiceSegment(t)) == SegmentsIntersect(s, t)
  {
    OrientTwice(t.a, t.b, s.a);
    OrientTwice(t.a, t.b, s.b);
    OrientTwice(s.a, s.b, t.a);
    OrientTwice(s.a, s.b, t.b);
  }

  /** Segments sharing an endpoint intersect. */
  lemma SharedEndpointIntersects(s: Segment, t: Segment)
    requires s.a == t.a || s.a == t.b || s.b == t.a || s.b == t.b
    ensures SegmentsIntersect(s, t)
  {
  }

  // ---------------------------------------------------------------------
  // Line against polygon

  /** The polygon after `line_poly_intersection` closed it: the first point
      is appended unless the list already ends with it. */
  function Closed(p: Polygon): (c: Polygon)
    ensures c[0] == c[|c| - 1]
    ensures |c| == (if p[0] == p[|p| - 1] then |p| else |p| + 1)
    ensures c[..|p|] == p
  {
    if p[0] != p[|p| - 1] then p + [p[0]] else p
  }

  lemma ClosedIdempotent(p: Polygon)
    ensures Closed(Closed(p)) == Closed(p)
  {
  }

  /** A box that encloses every point and whose every side is touched by a
      point is the bounding box. */
  lemma BoundingBoxUnique(ps: Polygon, b: BBox)
    requires forall i :: 0 <= i < |ps| ==> Encloses(b, ps[i])
    requires exists i :: 0 <= i < |ps| && ps[i].x == b.minX
    requires exists i :: 0 <= i < |ps| && ps[i].x == b.maxX
    requires exists i :: 0 <= i < |ps| && ps[i].y == b.minY
    requires exists i :: 0 <= i < |ps| && ps[i].y == b.maxY
    ensures b == BoundingBox(ps)
  {
    BoundingBoxSpec(ps);
    var c := BoundingBox(ps);
    var i1 :| 0 <= i1 < |ps| && ps[i1].x == b.minX;
    var i2 :| 0 <= i2 < |ps| && ps[i2].x == b.maxX;
    var i3 :| 0 <= i3 < |ps| && ps[i3].y == b.minY;
    var i4 :| 0 <= i4 < |ps| && ps[i4].y == b.maxY;
    var j1 :| 0 <= j1 < |ps| && ps[j1].x == c.minX;
    var j2 :| 0 <= j2 < |ps| && ps[j2].x == c.maxX;
    var j3 :| 0 <= j3 < |ps| && ps[j3].y == c.minY;
    var j4 :| 0 <= j4 < |ps| && ps[j4].y == c.maxY;
    assert Encloses(c, ps[i1]) && Encloses(c, ps[i2]) && Encloses(c, ps[i3]) && Encloses(c, ps[i4]);
    assert Encloses(b, ps[j1]) && Encloses(b, ps[j2]) && Encloses(b, ps[j3]) && Encloses(b, ps[j4]);
  }

  /** Closing a polygon does not change its bounding box. */
  lemma BoundingBoxClosed(p: Polygon)
    ensures BoundingBox(Closed(p)) == BoundingBox(p)
  {
    BoundingBoxSpec(p);
    var b, c := BoundingBox(p), Closed(p);
    assert forall i :: 0 <= i < |p| ==> c[i] == p[i];
    assert forall i :: 0 <= i < |c| ==> Encloses(b, c[i]) by {
      forall i | 0 <= i < |c| ensures Encloses(b, c[i]) {
        if i >= |p| { assert c[i] == p[0]; }
      }
    }
    BoundingBoxUnique(c, b);
  }

  /** Segment i of the point list (scaled to doubled coordinates) meets the line. */
  predicate EdgeHit(line: Segment, p: seq<Point>, i: int)
    requires 0 <= i < |p| - 1
  {
    SegmentsIntersect(line, Segment(Twice(p[i]), Twice(p[i + 1])))
  }

  /** Some consecutive segment of the point list meets the line. */
  predicate PolyHit(line: Segment, p: seq<Point>) {
    exists i :: 0 <= i < |p| - 1 && EdgeHit(line, p, i)
  }

  /** A mutable coordinate list (a Python list of points). */
  class PointList {
    var points: Polygon

    constructor (ps: Polygon)
      ensures points == ps
    {
      points := ps;
    }
  }

  /** `line_poly_intersection`: closes the caller's list in place, then tests
      the (doubled) line against each consecutive segment and returns on the
      first hit.  A list that is already closed is left as it is. */
  method LinePolyIntersection(line: Segment, polygon: PointList) returns (hit: bool)
    modifies polygon
    ensures polygon.points == Closed(old(polygon.points))
    ensures old(polygon.points)[0] == old(polygon.points)[|old(polygon.points)| - 1]
            ==> polygon.points == old(polygon.points)
    ensures hit == PolyHit(line, Closed(old(polygon.points)))
  {
    if polygon.points[0] != polygon.points[|polygon.points| - 1] {
      polygon.points := polygon.points + [polygon.points[0]];
    }
    var pts := polygon.points;
    var i := 0;
    while i < |pts| - 1
      invariant 0 <= i <= |pts| - 1
      invariant forall k :: 0 <= k < i ==> !EdgeHit(line, pts, k)
    {
      if SegmentsIntersect(line, Segment(Twice(pts[i]), Twice(pts[i + 1]))) {
        assert EdgeHit(line, pts, i);
        return true;
      }
      i := i + 1;
    }
    return false;
  }

  /** Calling `line_poly_intersection` again on the closed list gives the same
      answer and appends nothing. */
  lemma SecondCallUnchanged(line: Segment, p: Polygon)
    ensures Closed(Closed(p)) == Closed(p)
    ensures PolyHit(line, Closed(Closed(p))) == PolyHit(line, Closed(p))
  {
  }

  /** The line test does not depend on the direction of the line. */
  lemma PolyHitReverse(line: Segment, p: seq<Point>)
    ensures PolyHit(Reverse(line), p) == PolyHit(line, p)
  {
    forall i | 0 <= i < |p| - 1
      ensures EdgeHit(Reverse(line), p, i) == EdgeHit(line, p, i)
    {
      SegmentsIntersectReverse(line, Segment(Twice(p[i]), Twice(p[i + 1])));
    }
  }

  /** Bounds of a line string, strictly inside the box (doubled coordinates). */
  predicate StrictlyInside(b: BBox, p: Point) {
    2 * b.minX < p.x < 2 * b.maxX && 2 * b.minY < p.y < 2 * b.maxY
  }

  /** `line_in_bounding_box`: the bounds of the line string lie strictly inside
      the box, that is, both endpoints lie strictly inside it. */
  predicate LineInBoundingBox(line: Segment, b: BBox)
    ensures LineInBoundingBox(line, b) <==> StrictlyInside(b, line.a) && StrictlyInside(b, line.b)
  {
    Min(line.a.x, line.b.x) > 2 * b.minX && Max(line.a.x, line.b.x) < 2 * b.maxX
    && Min(line.a.y, line.b.y) > 2 * b.minY && Max(line.a.y, line.b.y) < 2 * b.maxY
  }

  /** The corner list [s1, s2, s3, s4] of the line strategy's prefilter. */
  function Corners(b: BBox): Polygon {
    [Point(b.minX, b.minY), Point(b.maxX, b.minY), Point(b.minX, b.maxY), Point(b.maxX, b.maxY)]
  }

  predicate SideHit(line: Segment, p: Point, q: Point) {
    SegmentsIntersect(line, Segment(Twice(p), Twice(q)))
  }

  /** The corner list is in bow-tie order: after closing it, the prefilter
      tests the top side, the bottom side and the two diagonals of the box,
      never its left and right sides. */
  lemma CornerPrefilterEdges(line: Segment, b: BBox)
    ensures PolyHit(line, Closed(Corners(b))) <==>
      || SideHit(line, Point(b.minX, b.minY), Point(b.maxX, b.minY))
      || SideHit(line, Point(b.maxX, b.minY), Point(b.minX, b.maxY))
      || SideHit(line, Point(b.minX, b.maxY), Point(b.maxX, b.maxY))
      || SideHit(line, Point(b.maxX, b.maxY), Point(b.minX, b.minY))
  {
    var c := Closed(Corners(b));
    var s1, s2, s3, s4 := Point(b.minX, b.minY), Point(b.maxX, b.minY), Point(b.minX, b.maxY), Point(b.maxX, b.maxY);
    assert c[0] == s1 && c[1] == s2 && c[2] == s3 && c[3] == s4;
    assert EdgeHit(line, c, 0) == SideHit(line, s1, s2);
    assert EdgeHit(line, c, 1) == SideHit(line, s2, s3);
    assert EdgeHit(line, c, 2) == SideHit(line, s3, s4);
    if s1 != s4 {
      assert |c| == 5 && c[4] == s1;
      assert EdgeHit(line, c, 3) == SideHit(line, s4, s1);
    } else {
      assert |c| == 4;
      assert s1 == s2 && s2 == s3 && s3 == s4;
    }
  }
}
