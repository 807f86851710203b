/** The separator classifier of the edge features: the bounding-box strategy,
    the line strategy and the aligned-separation helpers.  A feature is the
    pair (horizontally separated, vertically separated) as the reals 0.0/1.0. */
module SeparatorFeatures {
  import opened Wrappers
  import opened Geometry
  import opened Regions

  function Flag(b: bool): real { if b then 1.0 else 0.0 }

  /** The separator feature vector built from the two flags. */
  function Feature(horizontal: bool, vertical: bool): (f: seq<real>)
    ensures |f| == 2 && (f[0] == 1.0 <==> horizontal) && (f[1] == 1.0 <==> vertical)
  {
    [Flag(horizontal), Flag(vertical)]
  }

  /** OR over a list of flags, accumulated front to back as the separator
      loops do. */
  predicate AnyTrue(bs: seq<bool>) {
    if bs == [] then false else AnyTrue(bs[..|bs| - 1]) || bs[|bs| - 1]
  }

  lemma {:induction false} AnyTrueExists(bs: seq<bool>)
    ensures AnyTrue(bs) <==> exists k :: 0 <= k < |bs| && bs[k]
  {
    if bs != [] {
      var init := bs[..|bs| - 1];
      AnyTrueExists(init);
      assert forall k :: 0 <= k < |init| ==> init[k] == bs[k];
    }
  }

  lemma AnyTrueSnoc(bs: seq<bool>, k: nat)
    requires k < |bs|
    ensures AnyTrue(bs[..k + 1]) == (AnyTrue(bs[..k]) || bs[k])
  {
    assert bs[..k + 1][..k] == bs[..k];
  }

  /** A flag set by a prefix stays set: stopping early once both flags are
      set does not change the result. */
  lemma {:induction false} AnyTruePrefix(bs: seq<bool>, k: nat)
    requires k <= |bs|
    ensures AnyTrue(bs[..k]) ==> AnyTrue(bs)
  {
    if k < |bs| {
      AnyTruePrefix(bs[..|bs| - 1], k);
      assert bs[..|bs| - 1][..k] == bs[..k];
    } else {
      assert bs[..k] == bs;
    }
  }

  // ---------------------------------------------------------------------
  // Orientation rules

  /** Width and height of a separator box, clamped to at least 1. */
  function RatioWidth(b: BBox): (w: int)
    ensures w >= 1 && w >= b.maxX - b.minX
  {
    Max(b.maxX - b.minX, 1)
  }

  function RatioHeight(b: BBox): (h: int)
    ensures h >= 1 && h >= b.maxY - b.minY
  {
    Max(b.maxY - b.minY, 1)
  }

  /** The ratio rule `height / width < 5` in integer form. */
  predicate RatioHorizontal(b: BBox) {
    RatioHeight(b) < 5 * RatioWidth(b)
  }

  /** The integer form of the ratio rule agrees with the exact quotient. */
  lemma RatioHorizontalQuotient(b: BBox)
    ensures RatioHorizontal(b) <==> (RatioHeight(b) as real) / (RatioWidth(b) as real) < 5.0
  {
    var h, w := RatioHeight(b) as real, RatioWidth(b) as real;
    var q := h / w;
    assert q * w == h;
    if q < 5.0 {
      PositiveProduct(5.0 - q, w);
    } else if q > 5.0 {
      PositiveProduct(q - 5.0, w);
    }
  }

  lemma PositiveProduct(x: real, y: real)
    requires x > 0.0 && y > 0.0
    ensures x * y > 0.0
  {
  }

  /** The orientation the bounding-box strategy and the aligned helpers use:
      the tag when present, otherwise the ratio rule. */
  function BBOrientation(s: Separator): (o: string)
    ensures s.orientation.Some? ==> o == s.orientation.value
    ensures s.orientation.None? ==> (o == "horizontal" <==> RatioHorizontal(BoundingBox(s.polygon)))
    ensures s.orientation.None? ==> (o == "vertical" <==> !RatioHorizontal(BoundingBox(s.polygon)))
  {
    match s.orientation
    case Some(tag) => tag
    case None => if RatioHorizontal(BoundingBox(s.polygon)) then "horizontal" else "vertical"
  }

  // ---------------------------------------------------------------------
  // Bounding-box strategy

  /** `is_vertically_separated`: the separator's x-centre lies between the two
      regions (A - S - B or B - S - A) and at least one region overlaps the
      separator in y.  The centre test is written in doubled coordinates. */
  predicate IsVerticallySeparated(a: BBox, b: BBox, s: BBox) {
    && ((2 * a.maxX <= s.minX + s.maxX <= 2 * b.minX) || (2 * b.maxX <= s.minX + s.maxX <= 2 * a.minX))
    && ((a.maxY >= s.minY && a.minY <= s.maxY) || (b.maxY >= s.minY && b.minY <= s.maxY))
  }

  /** `is_horizontally_separated`: A over S over B (or B over S over A), and the
      two regions are not both to the left or both to the right of S. */
  predicate IsHorizontallySeparated(a: BBox, b: BBox, s: BBox) {
    && ((a.minY <= s.minY && s.maxY <= b.maxY) || (b.minY <= s.minY && s.maxY <= a.maxY))
    && !((a.maxX <= s.minX && b.maxX <= s.minX) || (a.minX >= s.maxX && b.minX >= s.maxX))
  }

  /** A separator sets the vertical flag of the bounding-box strategy. */
  predicate BBVerticalHit(a: BBox, b: BBox, s: Separator) {
    BBOrientation(s) == "vertical" && IsVerticallySeparated(a, b, BoundingBox(s.polygon))
  }

  /** A separator sets the horizontal flag of the bounding-box strategy. */
  predicate BBHorizontalHit(a: BBox, b: BBox, s: Separator) {
    BBOrientation(s) != "vertical" && IsHorizontallySeparated(a, b, BoundingBox(s.polygon))
  }

  /** The per-separator flags of the bounding-box strategy: entry k says
      whether separator k sets the vertical (`vertical`) or the horizontal
      (`!vertical`) flag. */
  function BBFlags(a: BBox, b: BBox, seps: seq<Separator>, vertical: bool): (fs: seq<bool>)
    ensures |fs| == |seps|
    ensures forall k :: 0 <= k < |seps| ==>
      fs[k] == (if vertical then BBVerticalHit(a, b, seps[k]) else BBHorizontalHit(a, b, seps[k]))
  {
    seq(|seps|, k requires 0 <= k < |seps| =>
      if vertical then BBVerticalHit(a, b, seps[k]) else BBHorizontalHit(a, b, seps[k]))
  }

  /** The bounding-box feature: each flag is the OR over the separators. */
  function BBFeature(a: BBox, b: BBox, seps: seq<Separator>): seq<real> {
    Feature(AnyTrue(BBFlags(a, b, seps, false)), AnyTrue(BBFlags(a, b, seps, true)))
  }

  /** The body of the separator loop of the bounding-box strategy: the
      orientation (tag, else the ratio rule) selects which rule is checked. */
  method TestSeparatorBB(bbA: BBox, bbB: BBox, s: Separator) returns (horizontal: bool, vertical: bool)
    ensures horizontal == BBHorizontalHit(bbA, bbB, s)
    ensures vertical == BBVerticalHit(bbA, bbB, s)
  {
    var bbS := BoundingBox(s.polygon);
    var orientation: string;
    match s.orientation {
      case None =>
        var width := Max(bbS.maxX - bbS.minX, 1);
        var height := Max(bbS.maxY - bbS.minY, 1);
        orientation := if height < 5 * width then "horizontal" else "vertical";
      case Some(tag) =>
        orientation := tag;
    }
    horizontal, vertical := false, false;
    if orientation == "vertical" {
      vertical := IsVerticallySeparated(bbA, bbB, bbS);
    } else {
      horizontal := IsHorizontallySeparated(bbA, bbB, bbS);
    }
  }

  /** `get_edge_separator_feature_bb`: loops over the separators, setting the
      flags by the rules, and stops once both are set; the early stop does
      not change the result. */
  method SeparatorFeatureBB(a: TextRegion, b: TextRegion, seps: seq<Separator>) returns (feature: seq<real>)
    ensures feature == BBFeature(BoundingBox(a.points), BoundingBox(b.points), seps)
  {
    var bbA := BoundingBox(a.points);
    var bbB := BoundingBox(b.points);
    var horizontal, vertical := false, false;
    var k := 0;
    while k < |seps|
      invariant 0 <= k <= |seps|
      invariant horizontal == AnyTrue(BBFlags(bbA, bbB, seps, false)[..k])
      invariant vertical == AnyTrue(BBFlags(bbA, bbB, seps, true)[..k])
    {
      AnyTrueSnoc(BBFlags(bbA, bbB, seps, false), k);
      AnyTrueSnoc(BBFlags(bbA, bbB, seps, true), k);
      var h, v := TestSeparatorBB(bbA, bbB, seps[k]);
      if h {
        horizontal := true;
      }
      if v {
        vertical := true;
      }
      k := k + 1;
      if horizontal && vertical {
        AnyTruePrefix(BBFlags(bbA, bbB, seps, false), k);
        AnyTruePrefix(BBFlags(bbA, bbB, seps, true), k);
        break;
      }
    }
    assert k == |seps| ==> BBFlags(bbA, bbB, seps, false)[..k] == BBFlags(bbA, bbB, seps, false);
    assert k == |seps| ==> BBFlags(bbA, bbB, seps, true)[..k] == BBFlags(bbA, bbB, seps, true);
    feature := Feature(horizontal, vertical);
  }

  /** Both bounding-box rules are unchanged by swapping the two regions, so
      the feature of (A, B) is the feature of (B, A). */
  lemma BBFeatureSymmetric(a: BBox, b: BBox, seps: seq<Separator>)
    ensures BBFeature(a, b, seps) == BBFeature(b, a, seps)
  {
    assert BBFlags(a, b, seps, false) == BBFlags(b, a, seps, false);
    assert BBFlags(a, b, seps, true) == BBFlags(b, a, seps, true);
  }

  /** Each flag of the bounding-box feature is set iff some separator's
      rule holds. */
  lemma BBFeatureMeaning(a: BBox, b: BBox, seps: seq<Separator>)
    ensures BBFeature(a, b, seps)[0] == 1.0 <==> exists k :: 0 <= k < |seps| && BBHorizontalHit(a, b, seps[k])
    ensures BBFeature(a, b, seps)[1] == 1.0 <==> exists k :: 0 <= k < |seps| && BBVerticalHit(a, b, seps[k])
  {
    var hs, vs := BBFlags(a, b, seps, false), BBFlags(a, b, seps, true);
    AnyTrueExists(hs);
    AnyTrueExists(vs);
  }

  /** A vertical separation puts the regions on either side of the
      separator's centre, so they do not overlap in x beyond touching. */
  lemma VerticalSeparationSides(a: BBox, b: BBox, s: BBox)
    requires IsVerticallySeparated(a, b, s)
    ensures (2 * a.maxX <= s.minX + s.maxX && s.minX + s.maxX <= 2 * b.minX)
         || (2 * b.maxX <= s.minX + s.maxX && s.minX + s.maxX <= 2 * a.minX)
    ensures a.maxX <= b.minX || b.maxX <= a.minX
  {
  }

  // ---------------------------------------------------------------------
  // Line strategy

  /** The line between the two box centres, in doubled coordinates. */
  function CentreLine(a: BBox, b: BBox): (line: Segment)
    ensures line.a == Point(a.minX + a.maxX, a.minY + a.maxY)
    ensures line.b == Point(b.minX + b.maxX, b.minY + b.maxY)
  {
    Segment(Point(a.minX + a.maxX, a.minY + a.maxY), Point(b.minX + b.maxX, b.minY + b.maxY))
  }

  /** The prior test: the line meets the (bow-tie) corner list of the box, or
      lies strictly inside the box. */
  predicate LinePrefilter(line: Segment, bb: BBox) {
    PolyHit(line, Closed(Corners(bb))) || LineInBoundingBox(line, bb)
  }

  /** A separator is hit when the prior test and the precise test on its
      (closed) polygon both succeed. */
  predicate LineHit(line: Segment, s: Separator) {
    LinePrefilter(line, BoundingBox(s.polygon)) && PolyHit(line, Closed(s.polygon))
  }

  /** The orientation the line strategy gives a hit separator: the tag
      "horizontal" is honoured, every other case (an explicit "vertical" tag
      included) goes through the ratio rule. */
  predicate LineHorizontal(s: Separator) {
    s.orientation == Some("horizontal") || RatioHorizontal(BoundingBox(s.polygon))
  }

  /** The separator is hit and sets the horizontal flag (`horizontal`) or
      the vertical one (`!horizontal`). */
  predicate LineSets(line: Segment, s: Separator, horizontal: bool) {
    LineHit(line, s) && LineHorizontal(s) == horizontal
  }

  /** The per-separator flags of the line strategy. */
  function LineFlags(line: Segment, seps: seq<Separator>, horizontal: bool): (fs: seq<bool>)
    ensures |fs| == |seps|
    ensures forall k :: 0 <= k < |seps| ==> fs[k] == LineSets(line, seps[k], horizontal)
  {
    seq(|seps|, k requires 0 <= k < |seps| => LineSets(line, seps[k], horizontal))
  }

  /** The line feature: each flag is the OR over the separators. */
  function LineFeature(line: Segment, seps: seq<Separator>): seq<real> {
    Feature(AnyTrue(LineFlags(line, seps, true)), AnyTrue(LineFlags(line, seps, false)))
  }

  /** A flag is set iff some separator passes both the prior and the precise
      test and has the matching orientation. */
  lemma LineFeatureMeaning(line: Segment, seps: seq<Separator>)
    ensures LineFeature(line, seps)[0] == 1.0 <==> exists k :: 0 <= k < |seps| && LineSets(line, seps[k], true)
    ensures LineFeature(line, seps)[1] == 1.0 <==> exists k :: 0 <= k < |seps| && LineSets(line, seps[k], false)
  {
    var hs, vs := LineFlags(line, seps, true), LineFlags(line, seps, false);
    AnyTrueExists(hs);
    AnyTrueExists(vs);
  }

  /** The separator values after some of their lists were closed. */
  predicate ClosedOrSame(now: Polygon, before: Polygon) {
    now == before || now == Closed(before)
  }

  /** A separator whose list was closed is classified as before. */
  lemma LineHitClosed(line: Segment, s: Separator, t: Separator)
    requires t.id == s.id && t.orientation == s.orientation && ClosedOrSame(t.polygon, s.polygon)
    ensures LineHit(line, t) == LineHit(line, s)
    ensures LineHorizontal(t) == LineHorizontal(s)
  {
    BoundingBoxClosed(s.polygon);
    ClosedIdempotent(s.polygon);
  }

  lemma ClosedOrSameTrans(x: Polygon, y: Polygon, z: Polygon)
    requires ClosedOrSame(x, y) && ClosedOrSame(y, z)
    ensures ClosedOrSame(x, z)
  {
    ClosedIdempotent(z);
  }

  /** The body of the separator loop of the line strategy for one separator:
      the prior test on a fresh corner list, then the precise test, which
      closes the separator's own list; `horizontal` is the orientation a hit
      is given. */
  method TestSeparatorLine(line: Segment, sep: SeparatorRegion) returns (hit: bool, horizontal: bool)
    modifies sep.points
    ensures hit == LineHit(line, old(View(sep)))
    ensures horizontal == LineHorizontal(old(View(sep)))
    ensures ClosedOrSame(sep.points.points, old(sep.points.points))
  {
    var bbS := BoundingBox(sep.points.points);
    var width := Max(bbS.maxX - bbS.minX, 1);
    var height := Max(bbS.maxY - bbS.minY, 1);
    horizontal := sep.orientation == Some("horizontal") || height < 5 * width;
    var corners := new PointList(Corners(bbS));
    var prior := LinePolyIntersection(line, corners);
    if !prior {
      prior := LineInBoundingBox(line, bbS);
    }
    hit := false;
    if prior {
      hit := LinePolyIntersection(line, sep.points);
    }
  }

  /** One separator of the line strategy's loop, stated against the values
      the separators had on entry (`before`): lists shared between separators
      stay either as they were or closed. */
  method LineStep(line: Segment, seps: seq<SeparatorRegion>, k: int, ghost before: seq<Separator>)
      returns (hit: bool, horizontal: bool)
    requires 0 <= k < |seps| == |before|
    requires forall j :: 0 <= j < |seps| ==> before[j].id == seps[j].id && before[j].orientation == seps[j].orientation
    requires forall j :: 0 <= j < |seps| ==> ClosedOrSame(seps[j].points.points, before[j].polygon)
    modifies seps[k].points
    ensures forall j :: 0 <= j < |seps| ==> ClosedOrSame(seps[j].points.points, before[j].polygon)
    ensures hit == LineHit(line, before[k]) && horizontal == LineHorizontal(before[k])
  {
    LineHitClosed(line, before[k], View(seps[k]));
    label Before:
    hit, horizontal := TestSeparatorLine(line, seps[k]);
    forall j | 0 <= j < |seps|
      ensures ClosedOrSame(seps[j].points.points, before[j].polygon)
    {
      if seps[j].points == seps[k].points {
        ClosedOrSameTrans(seps[j].points.points, old@Before(seps[j].points.points), before[j].polygon);
      }
    }
  }

  /** One pass of the line strategy's loop: check separator k and update the
      two flags, which stay the OR over the separators checked so far. */
  method LineLoopStep(line: Segment, seps: seq<SeparatorRegion>, k: int, ghost before: seq<Separator>,
                      horizontal: bool, vertical: bool)
      returns (hit: bool, horizontal': bool, vertical': bool)
    requires 0 <= k < |seps| == |before|
    requires forall j :: 0 <= j < |seps| ==> before[j].id == seps[j].id && before[j].orientation == seps[j].orientation
    requires forall j :: 0 <= j < |seps| ==> ClosedOrSame(seps[j].points.points, before[j].polygon)
    requires horizontal == AnyTrue(LineFlags(line, before, true)[..k])
    requires vertical == AnyTrue(LineFlags(line, before, false)[..k])
    modifies seps[k].points
    ensures forall j :: 0 <= j < |seps| ==> ClosedOrSame(seps[j].points.points, before[j].polygon)
    ensures horizontal' == AnyTrue(LineFlags(line, before, true)[..k + 1])
    ensures vertical' == AnyTrue(LineFlags(line, before, false)[..k + 1])
    ensures hit && horizontal' && vertical' ==>
      AnyTrue(LineFlags(line, before, true)) && AnyTrue(LineFlags(line, before, false))
  {
    ghost var hs, vs := LineFlags(line, before, true), LineFlags(line, before, false);
    AnyTrueSnoc(hs, k);
    AnyTrueSnoc(vs, k);
    var isHorizontal;
    hit, isHorizontal := LineStep(line, seps, k, before);
    assert hs[k] == (hit && isHorizontal) && vs[k] == (hit && !isHorizontal);
    horizontal', vertical' := horizontal, vertical;
    if hit {
      if isHorizontal {
        horizontal' := true;
      } else {
        vertical' := true;
      }
    }
    if hit && horizontal' && vertical' {
      AnyTruePrefix(hs, k + 1);
      AnyTruePrefix(vs, k + 1);
    }
  }

  /** `get_edge_separator_feature_line`.  The lists of the checked separators
      are closed in place; the feature is that of the separator values
      `before` (lists that may already have been closed), and every list is
      left either as it was there or closed.  The loop stops once a hit has
      set both flags. */
  method SeparatorFeatureLine(a: TextRegion, b: TextRegion, seps: seq<SeparatorRegion>, ghost before: seq<Separator>)
      returns (feature: seq<real>)
    requires |seps| == |before|
    requires forall k :: 0 <= k < |seps| ==> before[k].id == seps[k].id && before[k].orientation == seps[k].orientation
    requires forall k :: 0 <= k < |seps| ==> ClosedOrSame(seps[k].points.points, before[k].polygon)
    modifies PointLists(seps)
    ensures feature == LineFeature(CentreLine(BoundingBox(a.points), BoundingBox(b.points)), before)
    ensures forall k :: 0 <= k < |seps| ==> ClosedOrSame(seps[k].points.points, before[k].polygon)
  {
    var line := CentreLine(BoundingBox(a.points), BoundingBox(b.points));
    ghost var hs, vs := LineFlags(line, before, true), LineFlags(line, before, false);
    var horizontal, vertical := false, false;
    var k := 0;
    while k < |seps|
      invariant 0 <= k <= |seps|
      invariant forall j :: 0 <= j < |seps| ==> ClosedOrSame(seps[j].points.points, before[j].polygon)
      invariant horizontal == AnyTrue(hs[..k])
      invariant vertical == AnyTrue(vs[..k])
    {
      var hit;
      hit, horizontal, vertical := LineLoopStep(line, seps, k, before, horizontal, vertical);
      k := k + 1;
      if hit && horizontal && vertical {
        break;
      }
    }
    assert k == |seps| ==> hs[..k] == hs && vs[..k] == vs;
    feature := Feature(horizontal, vertical);
  }

  /** Calling the line strategy again on the lists it closed gives the same
      feature. */
  lemma LineFeatureAfterClosing(line: Segment, before: seq<Separator>, after: seq<Separator>)
    requires |after| == |before|
    requires forall k :: 0 <= k < |before| ==>
      after[k].id == before[k].id && after[k].orientation == before[k].orientation
      && ClosedOrSame(after[k].polygon, before[k].polygon)
    ensures LineFeature(line, after) == LineFeature(line, before)
  {
    forall k | 0 <= k < |before|
      ensures LineSets(line, after[k], true) == LineSets(line, before[k], true)
      ensures LineSets(line, after[k], false) == LineSets(line, before[k], false)
    {
      LineHitClosed(line, before[k], after[k]);
    }
    assert LineFlags(line, after, true) == LineFlags(line, before, true);
    assert LineFlags(line, after, false) == LineFlags(line, before, false);
  }

  /** The bounding-box strategy classifies a separator whose list the line
      strategy closed as before. */
  lemma BBFeatureAfterClosing(a: BBox, b: BBox, before: seq<Separator>, after: seq<Separator>)
    requires |after| == |before|
    requires forall k :: 0 <= k < |before| ==>
      after[k].id == before[k].id && after[k].orientation == before[k].orientation
      && ClosedOrSame(after[k].polygon, before[k].polygon)
    ensures BBFeature(a, b, after) == BBFeature(a, b, before)
  {
    forall k | 0 <= k < |before|
      ensures BoundingBox(after[k].polygon) == BoundingBox(before[k].polygon)
    {
      BoundingBoxClosed(before[k].polygon);
    }
    assert BBFlags(a, b, after, true) == BBFlags(a, b, before, true);
    assert BBFlags(a, b, after, false) == BBFlags(a, b, before, false);
  }

  /** The line between the centres does not depend on the order of the two
      regions, so the line feature of (A, B) is the feature of (B, A). */
  lemma LineFeatureSymmetric(a: BBox, b: BBox, seps: seq<Separator>)
    ensures LineFeature(CentreLine(a, b), seps) == LineFeature(CentreLine(b, a), seps)
  {
    var line := CentreLine(a, b);
    assert CentreLine(b, a) == Reverse(line);
    forall k | 0 <= k < |seps|
      ensures LineHit(Reverse(line), seps[k]) == LineHit(line, seps[k])
    {
      PolyHitReverse(line, Closed(Corners(BoundingBox(seps[k].polygon))));
      PolyHitReverse(line, Closed(seps[k].polygon));
    }
    assert LineFlags(Reverse(line), seps, true) == LineFlags(line, seps, true);
    assert LineFlags(Reverse(line), seps, false) == LineFlags(line, seps, false);
  }

  /** The line strategy treats an explicit "vertical" tag like no tag, while
      the bounding-box strategy honours it. */
  lemma VerticalTagOnlyInBB(s: Separator)
    requires s.orientation == Some("vertical")
    ensures LineHorizontal(s) == LineHorizontal(s.(orientation := None))
    ensures LineHorizontal(s) == RatioHorizontal(BoundingBox(s.polygon))
    ensures BBOrientation(s) == "vertical"
  {
  }

  /** A flat separator tagged "vertical" counts as horizontal in the line
      strategy. */
  lemma VerticalTagFlatSeparator()
    ensures LineHorizontal(Separator("s", Some("vertical"), [Point(0, 0), Point(100, 2)]))
    ensures BBOrientation(Separator("s", Some("vertical"), [Point(0, 0), Point(100, 2)])) == "vertical"
  {
    var p: Polygon := [Point(0, 0), Point(100, 2)];
    assert BoundingBox(p) == BBox(0, 100, 0, 2) by {
      assert p[0].x == 0 && p[1].x == 100 && p[0].y == 0 && p[1].y == 2;
      BoundingBoxUnique(p, BBox(0, 100, 0, 2));
    }
  }

  // ---------------------------------------------------------------------
  // Aligned-separation helpers

  /** A separator the aligned helpers consider horizontal. */
  predicate AlignedCandidate(s: Separator) {
    s.orientation != Some("vertical") && (s.orientation.None? ==> RatioHorizontal(BoundingBox(s.polygon)))
  }

  /** The skip conditions of `get_separator_aligned_regions` are exactly the
      orientation rule of the other helpers. */
  lemma AlignedCandidateOrientation(s: Separator)
    ensures AlignedCandidate(s) <==> BBOrientation(s) != "vertical"
  {
  }

  /** A text region overlaps the separator box in x. */
  predicate XOverlap(t: BBox, s: BBox) {
    t.maxX >= s.minX && t.minX <= s.maxX
  }

  /** The ids of the text regions overlapping the box in x, in list order. */
  function AlignedWith(s: BBox, trs: seq<TextRegion>): (ids: seq<string>)
    ensures |ids| <= |trs|
  {
    if trs == [] then []
    else
      var rest := AlignedWith(s, trs[..|trs| - 1]);
      var last := trs[|trs| - 1];
      if XOverlap(BoundingBox(last.points), s) then rest + [last.id] else rest
  }

  /** An id is listed iff some region with that id overlaps the box. */
  lemma {:induction false} AlignedWithMembers(s: BBox, trs: seq<TextRegion>, id: string)
    ensures id in AlignedWith(s, trs) <==>
      exists t :: 0 <= t < |trs| && trs[t].id == id && XOverlap(BoundingBox(trs[t].points), s)
  {
    if trs != [] {
      var init := trs[..|trs| - 1];
      AlignedWithMembers(s, init, id);
      assert forall t :: 0 <= t < |init| ==> init[t] == trs[t];
    }
  }

  /** The dictionary of `get_separator_aligned_regions`: for each candidate
      separator, the aligned text region ids; a later separator with the same
      id overwrites an earlier one. */
  function AlignedMap(seps: seq<Separator>, trs: seq<TextRegion>): map<string, seq<string>> {
    if seps == [] then map[]
    else
      var m := AlignedMap(seps[..|seps| - 1], trs);
      var s := seps[|seps| - 1];
      if AlignedCandidate(s) then m[s.id := AlignedWith(BoundingBox(s.polygon), trs)] else m
  }

  /** The keys are the ids of the candidate separators. */
  lemma {:induction false} AlignedMapKeys(seps: seq<Separator>, trs: seq<TextRegion>, id: string)
    ensures id in AlignedMap(seps, trs) <==>
      exists k :: 0 <= k < |seps| && seps[k].id == id && AlignedCandidate(seps[k])
  {
    if seps != [] {
      var init := seps[..|seps| - 1];
      AlignedMapKeys(init, trs, id);
      assert forall k :: 0 <= k < |init| ==> init[k] == seps[k];
    }
  }

  /** The value under an id belongs to the last candidate separator with it. */
  lemma {:induction false} AlignedMapValue(seps: seq<Separator>, trs: seq<TextRegion>, k: int)
    requires 0 <= k < |seps| && AlignedCandidate(seps[k])
    requires forall j :: k < j < |seps| && AlignedCandidate(seps[j]) ==> seps[j].id != seps[k].id
    ensures seps[k].id in AlignedMap(seps, trs)
    ensures AlignedMap(seps, trs)[seps[k].id] == AlignedWith(BoundingBox(seps[k].polygon), trs)
  {
    var init := seps[..|seps| - 1];
    if k < |seps| - 1 {
      assert forall j :: 0 <= j < |init| ==> init[j] == seps[j];
      AlignedMapValue(init, trs, k);
    }
  }

  /** The inner loop of `get_separator_aligned_regions`: the ids of the text
      regions overlapping the separator box, appended one at a time. */
  method AlignedIds(bbS: BBox, trs: seq<TextRegion>) returns (ids: seq<string>)
    ensures ids == AlignedWith(bbS, trs)
  {
    ids := [];
    var t := 0;
    while t < |trs|
      invariant 0 <= t <= |trs|
      invariant ids == AlignedWith(bbS, trs[..t])
    {
      assert trs[..t + 1][..t] == trs[..t];
      var bbT := BoundingBox(trs[t].points);
      if bbT.maxX >= bbS.minX && bbT.minX <= bbS.maxX {
        ids := ids + [trs[t].id];
      }
      t := t + 1;
    }
    assert trs[..t] == trs;
  }

  /** `get_separator_aligned_regions`: fills the dictionary separator by
      separator, skipping the vertical ones. */
  method SeparatorAlignedRegions(seps: seq<Separator>, trs: seq<TextRegion>) returns (aligned: map<string, seq<string>>)
    ensures aligned == AlignedMap(seps, trs)
  {
    aligned := map[];
    var k := 0;
    while k < |seps|
      invariant 0 <= k <= |seps|
      invariant aligned == AlignedMap(seps[..k], trs)
    {
      assert seps[..k + 1][..k] == seps[..k];
      var s := seps[k];
      var bbS := BoundingBox(s.polygon);
      var skip := s.orientation == Some("vertical");
      if !skip && s.orientation.None? {
        var width := Max(bbS.maxX - bbS.minX, 1);
        var height := Max(bbS.maxY - bbS.minY, 1);
        skip := height >= 5 * width;
      }
      if !skip {
        var ids := AlignedIds(bbS, trs);
        aligned := aligned[s.id := ids];
      }
      k := k + 1;
    }
    assert seps[..k] == seps;
  }

  /** The rule of `is_aligned_horizontally_separated` for one separator: it
      is horizontal, lies between the two regions in y, and both regions
      overlap it in x. */
  predicate AlignedHorizontalRule(a: BBox, b: BBox, s: Separator) {
    var bs := BoundingBox(s.polygon);
    && BBOrientation(s) != "vertical"
    && ((a.minY <= bs.minY && bs.maxY <= b.maxY) || (b.minY <= bs.minY && bs.maxY <= a.maxY))
    && (a.maxX >= bs.minX && b.maxX >= bs.minX) && (a.minX <= bs.maxX && b.minX <= bs.maxX)
  }

  /** `is_aligned_horizontally_separated`: `Some(true)` when some separator
      satisfies the rule, and `None` (the function falls off its end), never
      `Some(false)`, otherwise. */
  method IsAlignedHorizontallySeparated(a: TextRegion, b: TextRegion, seps: seq<Separator>) returns (r: Option<bool>)
    ensures r != Some(false)
    ensures r == Some(true) <==>
      exists k :: 0 <= k < |seps| && AlignedHorizontalRule(BoundingBox(a.points), BoundingBox(b.points), seps[k])
  {
    var bbA := BoundingBox(a.points);
    var bbB := BoundingBox(b.points);
    var k := 0;
    while k < |seps|
      invariant 0 <= k <= |seps|
      invariant forall j :: 0 <= j < k ==> !AlignedHorizontalRule(bbA, bbB, seps[j])
    {
      var bbS := BoundingBox(seps[k].polygon);
      var orientation: string;
      match seps[k].orientation {
        case None =>
          var width := Max(bbS.maxX - bbS.minX, 1);
          var height := Max(bbS.maxY - bbS.minY, 1);
          orientation := if height < 5 * width then "horizontal" else "vertical";
        case Some(tag) =>
          orientation := tag;
      }
      if orientation == "vertical" {
        k := k + 1;
        continue;
      }
      if !((bbA.minY <= bbS.minY && bbS.maxY <= bbB.maxY) || (bbB.minY <= bbS.minY && bbS.maxY <= bbA.maxY)) {
        k := k + 1;
        continue;
      }
      if !((bbA.maxX >= bbS.minX && bbB.maxX >= bbS.minX) && (bbA.minX <= bbS.maxX && bbB.minX <= bbS.maxX)) {
        k := k + 1;
        continue;
      }
      return Some(true);
    }
    return None;
  }

  /** A separator satisfying the aligned rule lists both regions among its
      aligned regions. */
  lemma AlignedRuleListsBoth(a: TextRegion, b: TextRegion, s: Separator, trs: seq<TextRegion>)
    requires a in trs && b in trs
    requires AlignedHorizontalRule(BoundingBox(a.points), BoundingBox(b.points), s)
    ensures a.id in AlignedWith(BoundingBox(s.polygon), trs)
    ensures b.id in AlignedWith(BoundingBox(s.polygon), trs)
  {
    var ia :| 0 <= ia < |trs| && trs[ia] == a;
    var ib :| 0 <= ib < |trs| && trs[ib] == b;
    AlignedWithMembers(BoundingBox(s.polygon), trs, a.id);
    AlignedWithMembers(BoundingBox(s.polygon), trs, b.id);
  }

  /** `is_aligned_heading_separated`: exactly one of the regions is a
      heading, they overlap in x, and the heading starts no higher than the
      other region ends. */
  function IsAlignedHeadingSeparated(a: TextRegion, b: TextRegion): (r: bool)
    ensures r ==> IsHeading(a) != IsHeading(b)
    ensures r ==> BoundingBox(a.points).minX <= BoundingBox(b.points).maxX
                  && BoundingBox(b.points).minX <= BoundingBox(a.points).maxX
    ensures r && IsHeading(a) ==> BoundingBox(a.points).minY >= BoundingBox(b.points).maxY
    ensures r && IsHeading(b) ==> BoundingBox(b.points).minY >= BoundingBox(a.points).maxY
  {
    var headingA := IsHeading(a);
    var headingB := IsHeading(b);
    if headingA && headingB then false
    else if !(headingA || headingB) then false
    else
      var bbA := BoundingBox(a.points);
      var bbB := BoundingBox(b.points);
      if !(bbA.minX <= bbB.maxX && bbB.minX <= bbA.maxX) then false
      else if headingA && !(bbA.minY >= bbB.maxY) then false
      else if headingB && !(bbB.minY >= bbA.maxY) then false
      else true
  }

  /** The converse: the conditions above are also sufficient, and the test
      does not depend on the order of the two regions. */
  lemma AlignedHeadingSeparatedExactly(a: TextRegion, b: TextRegion)
    ensures IsAlignedHeadingSeparated(a, b) <==>
      var bbA, bbB := BoundingBox(a.points), BoundingBox(b.points);
      && IsHeading(a) != IsHeading(b)
      && bbA.minX <= bbB.maxX && bbB.minX <= bbA.maxX
      && (IsHeading(a) ==> bbA.minY >= bbB.maxY)
      && (IsHeading(b) ==> bbB.minY >= bbA.maxY)
    ensures IsAlignedHeadingSeparated(a, b) == IsAlignedHeadingSeparated(b, a)
  {
  }
}
