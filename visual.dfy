/** The optional visual regions of the graph: a polygon per node (the
    library's bounding box of the region) and per edge (the library's convex
    hull of both regions), the edge polygons padded with zeros into one
    array. */
module Visual {
  import opened Geometry
  import opened Regions
  import opened Topology

  /** The largest number of points of the polygons. */
  function MaxLen(ps: seq<seq<Point>>): (m: nat)
    requires |ps| > 0
    ensures forall i :: 0 <= i < |ps| ==> |ps[i]| <= m
    ensures exists i :: 0 <= i < |ps| && |ps[i]| == m
  {
    if |ps| == 1 then |ps[0]|
    else
      var m := MaxLen(ps[..|ps| - 1]);
      assert forall i :: 0 <= i < |ps| - 1 ==> ps[..|ps| - 1][i] == ps[i];
      if m >= |ps[|ps| - 1]| then m else |ps[|ps| - 1]|
  }

  /** The node loop: the library bounding box of each region and its number
      of points. */
  method NodeVisualRegions(regions: seq<TextRegion>, boundingBox: seq<Point> -> seq<Point>)
      returns (visual: seq<seq<Point>>, counts: seq<nat>)
    ensures |visual| == |counts| == |regions|
    ensures forall k :: 0 <= k < |regions| ==> visual[k] == boundingBox(regions[k].points) && counts[k] == |visual[k]|
  {
    visual, counts := [], [];
    var k := 0;
    while k < |regions|
      invariant 0 <= k <= |regions|
      invariant |visual| == |counts| == k
      invariant forall t :: 0 <= t < k ==> visual[t] == boundingBox(regions[t].points) && counts[t] == |visual[t]|
    {
      var v := boundingBox(regions[k].points);
      visual, counts := visual + [v], counts + [|v|];
      k := k + 1;
    }
  }

  /** The library convex hull of the points of both regions of every edge. */
  function EdgeHulls(regions: seq<TextRegion>, edges: seq<Edge>, convexHull: seq<Point> -> seq<Point>): (hs: seq<seq<Point>>)
    requires forall i :: 0 <= i < |edges| ==> 0 <= edges[i].src < |regions| && 0 <= edges[i].dst < |regions|
    ensures |hs| == |edges|
    ensures forall i :: 0 <= i < |edges| ==> hs[i] == convexHull(regions[edges[i].src].points + regions[edges[i].dst].points)
  {
    seq(|edges|, i requires 0 <= i < |edges| => convexHull(regions[edges[i].src].points + regions[edges[i].dst].points))
  }

  /** The edge loop: the library convex hull of the points of both regions
      of each edge and its number of points. */
  method EdgeVisualRegions(regions: seq<TextRegion>, edges: seq<Edge>, convexHull: seq<Point> -> seq<Point>)
      returns (visual: seq<seq<Point>>, counts: seq<nat>)
    requires forall i :: 0 <= i < |edges| ==> 0 <= edges[i].src < |regions| && 0 <= edges[i].dst < |regions|
    ensures |visual| == |counts| == |edges|
    ensures forall i :: 0 <= i < |edges| ==>
      visual[i] == convexHull(regions[edges[i].src].points + regions[edges[i].dst].points) && counts[i] == |visual[i]|
  {
    visual, counts := [], [];
    var i := 0;
    while i < |edges|
      invariant 0 <= i <= |edges|
      invariant |visual| == |counts| == i
      invariant forall t :: 0 <= t < i ==>
        visual[t] == convexHull(regions[edges[t].src].points + regions[edges[t].dst].points) && counts[t] == |visual[t]|
    {
      var a, b := regions[edges[i].src], regions[edges[i].dst];
      var v := convexHull(a.points + b.points);
      visual, counts := visual + [v], counts + [|v|];
      i := i + 1;
    }
  }

  /** The zero point the padded array is filled with. */
  const Zero := Point(0, 0)

  /** The padded array: row i holds polygon i and zeros after it; it is as
      wide as the longest polygon.  The source takes the maximum of the
      point counts, which fails for an empty list of polygons. */
  method PadVisualRegions(polygons: seq<seq<Point>>) returns (padded: array2<Point>)
    requires |polygons| > 0
    ensures fresh(padded)
    ensures padded.Length0 == |polygons| && padded.Length1 == MaxLen(polygons)
    ensures forall i, j :: 0 <= i < |polygons| && 0 <= j < |polygons[i]| ==> padded[i, j] == polygons[i][j]
    ensures forall i, j :: 0 <= i < |polygons| && |polygons[i]| <= j < padded.Length1 ==> padded[i, j] == Zero
  {
    var width := MaxLen(polygons);
    padded := new Point[|polygons|, width]((i, j) => Zero);
    var i := 0;
    while i < |polygons|
      invariant 0 <= i <= |polygons|
      invariant forall r, j :: 0 <= r < i && 0 <= j < |polygons[r]| ==> padded[r, j] == polygons[r][j]
      invariant forall r, j :: 0 <= r < |polygons| && 0 <= j < width && !(r < i && j < |polygons[r]|) ==> padded[r, j] == Zero
    {
      var row := polygons[i];
      var j := 0;
      while j < |row|
        invariant 0 <= j <= |row|
        invariant forall r, c :: 0 <= r < i && 0 <= c < |polygons[r]| ==> padded[r, c] == polygons[r][c]
        invariant forall c :: 0 <= c < j ==> padded[i, c] == row[c]
        invariant forall r, c :: 0 <= r < |polygons| && 0 <= c < width && !(r < i && c < |polygons[r]|) && !(r == i && c < j) ==> padded[r, c] == Zero
      {
        padded[i, j] := row[j];
        j := j + 1;
      }
      i := i + 1;
    }
  }
}
