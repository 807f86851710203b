/** The node feature blocks of a text region: geometry (4), top and bottom
    baseline (8), stroke width (1), text height (1), heading (1), then the
    external blocks.  Features are exact reals. */
module NodeFeatures {
  import opened Wrappers
  import opened Geometry
  import opened Regions
  import opened ExternalData

  // ---------------------------------------------------------------------
  // Geometric blocks

  /** A box with real coordinates. */
  datatype RealBox = RealBox(minX: real, maxX: real, minY: real, maxY: real)

  function AsReal(b: BBox): RealBox {
    RealBox(b.minX as real, b.maxX as real, b.minY as real, b.maxY as real)
  }

  /** (size_x, size_y, center_x, center_y) of a box, normed by the image size. */
  function BoxFeatures(b: BBox, normX: real, normY: real): (f: seq<real>)
    requires normX != 0.0 && normY != 0.0
    ensures |f| == 4
  {
    var width := b.maxX as real - b.minX as real;
    var height := b.maxY as real - b.minY as real;
    [width / normX, height / normY,
     (b.minX + b.maxX) as real / (2.0 * normX), (b.minY + b.maxY) as real / (2.0 * normY)]
  }

  /** Reads a box back from its four features. */
  function BoxOfFeatures(f: seq<real>, normX: real, normY: real): RealBox
    requires |f| >= 4
  {
    var cx, cy := f[2] * normX, f[3] * normY;
    var w, h := f[0] * normX, f[1] * normY;
    RealBox(cx - w / 2.0, cx + w / 2.0, cy - h / 2.0, cy + h / 2.0)
  }

  lemma DivMul(x: real, n: real)
    requires n != 0.0
    ensures x / n * n == x
  {
  }

  lemma HalfDivMul(x: real, n: real)
    requires n != 0.0
    ensures x / (2.0 * n) * n == x / 2.0
  {
    var q := x / (2.0 * n);
    DivMul(x, 2.0 * n);
    assert q * n * 2.0 == x;
  }

  /** One axis of a box: read back from its size and centre features. */
  lemma AxisRecover(lo: int, hi: int, n: real, size: real, centre: real)
    requires n != 0.0
    requires size == (hi as real - lo as real) / n && centre == (lo + hi) as real / (2.0 * n)
    ensures var c, w := centre * n, size * n; c - w / 2.0 == lo as real && c + w / 2.0 == hi as real
  {
    HalfDivMul((lo + hi) as real, n);
    DivMul(hi as real - lo as real, n);
  }

  /** The four features determine the box: reading them back gives it. */
  lemma BoxFeaturesRecover(b: BBox, normX: real, normY: real)
    requires normX != 0.0 && normY != 0.0
    ensures BoxOfFeatures(BoxFeatures(b, normX, normY), normX, normY) == AsReal(b)
  {
    var f := BoxFeatures(b, normX, normY);
    AxisRecover(b.minX, b.maxX, normX, f[0], f[2]);
    AxisRecover(b.minY, b.maxY, normY, f[1], f[3]);
  }

  /** `get_text_region_geometric_features`. */
  function GeometricFeatures(r: TextRegion, normX: real, normY: real): (f: seq<real>)
    requires normX != 0.0 && normY != 0.0
    ensures |f| == 4
  {
    BoxFeatures(BoundingBox(r.points), normX, normY)
  }

  lemma DivNonNegative(x: real, n: real)
    requires x >= 0.0 && n > 0.0
    ensures x / n >= 0.0
  {
  }

  /** Scaled back by the image size, the centre features are the midpoint
      of the box. */
  lemma BoxFeaturesCentre(b: BBox, normX: real, normY: real)
    requires normX != 0.0 && normY != 0.0
    ensures BoxFeatures(b, normX, normY)[2] * normX == (b.minX + b.maxX) as real / 2.0
    ensures BoxFeatures(b, normX, normY)[3] * normY == (b.minY + b.maxY) as real / 2.0
  {
    var f := BoxFeatures(b, normX, normY);
    DivMul((b.minX + b.maxX) as real / 2.0, normX);
    DivMul((b.minY + b.maxY) as real / 2.0, normY);
    assert f[2] == (b.minX + b.maxX) as real / 2.0 / normX;
    assert f[3] == (b.minY + b.maxY) as real / 2.0 / normY;
  }

  /** For a proper box the sizes are not negative and the centre lies in
      the box. */
  lemma BoxFeaturesInBox(b: BBox, normX: real, normY: real)
    requires normX > 0.0 && normY > 0.0
    requires b.minX <= b.maxX && b.minY <= b.maxY
    ensures BoxFeatures(b, normX, normY)[0] >= 0.0 && BoxFeatures(b, normX, normY)[1] >= 0.0
    ensures b.minX as real <= BoxFeatures(b, normX, normY)[2] * normX <= b.maxX as real
    ensures b.minY as real <= BoxFeatures(b, normX, normY)[3] * normY <= b.maxY as real
  {
    BoxFeaturesCentre(b, normX, normY);
    DivNonNegative(b.maxX as real - b.minX as real, normX);
    DivNonNegative(b.maxY as real - b.minY as real, normY);
  }

  /** A bounding box is proper: each minimum is at most its maximum. */
  lemma BoundingBoxProper(ps: Polygon)
    ensures BoundingBox(ps).minX <= BoundingBox(ps).maxX && BoundingBox(ps).minY <= BoundingBox(ps).maxY
  {
    BoundingBoxSpec(ps);
    assert Encloses(BoundingBox(ps), ps[0]);
  }

  /** The box moved by (dx, dy). */
  function MovedBox(b: BBox, dx: int, dy: int): BBox {
    BBox(b.minX + dx, b.maxX + dx, b.minY + dy, b.maxY + dy)
  }

  /** Moving a box keeps its size features and shifts its centre features
      by the normed offset. */
  lemma BoxFeaturesTranslate(b: BBox, dx: int, dy: int, normX: real, normY: real)
    requires normX != 0.0 && normY != 0.0
    ensures var f, g := BoxFeatures(b, normX, normY), BoxFeatures(MovedBox(b, dx, dy), normX, normY);
      && g[0] == f[0] && g[1] == f[1]
      && g[2] == f[2] + dx as real / normX && g[3] == f[3] + dy as real / normY
  {
    HalfShift((b.minX + b.maxX) as real, dx as real, normX);
    HalfShift((b.minY + b.maxY) as real, dy as real, normY);
  }

  lemma HalfShift(s: real, d: real, n: real)
    requires n != 0.0
    ensures (s + 2.0 * d) / (2.0 * n) == s / (2.0 * n) + d / n
  {
    calc {
      (s + 2.0 * d) / (2.0 * n);
      s / (2.0 * n) + (2.0 * d) / (2.0 * n);
      { DivMul(d, n); assert (2.0 * d) / (2.0 * n) * (2.0 * n) == 2.0 * d; }
      s / (2.0 * n) + d / n;
    }
  }

  /** Moving the region leaves its size features unchanged and shifts its
      centre features by the normed offset. */
  lemma GeometricFeaturesTranslate(r: TextRegion, dx: int, dy: int, normX: real, normY: real)
    requires normX != 0.0 && normY != 0.0
    ensures var f, g := GeometricFeatures(r, normX, normY),
                        GeometricFeatures(r.(points := TranslateAll(r.points, dx, dy)), normX, normY);
      && g[..2] == f[..2]
      && g[2] == f[2] + dx as real / normX && g[3] == f[3] + dy as real / normY
  {
    BoundingBoxTranslate(r.points, dx, dy);
    BoxFeaturesTranslate(BoundingBox(r.points), dx, dy, normX, normY);
  }

  /** `get_text_region_baseline_features`: the blocks of the top and of the
      bottom baseline.  The source indexes the first and last text line, so
      the region must have one. */
  function BaselineFeatures(r: TextRegion, normX: real, normY: real): (f: seq<real>)
    requires normX != 0.0 && normY != 0.0
    requires |r.lines| > 0
    ensures |f| == 8
  {
    BoxFeatures(BoundingBox(r.lines[0].baseline), normX, normY)
      + BoxFeatures(BoundingBox(r.lines[|r.lines| - 1].baseline), normX, normY)
  }

  /** The baseline block gives back the boxes of the top and the bottom
      baseline; for a single line both halves agree. */
  lemma BaselineFeaturesRecover(r: TextRegion, normX: real, normY: real)
    requires normX != 0.0 && normY != 0.0 && |r.lines| > 0
    ensures BoxOfFeatures(BaselineFeatures(r, normX, normY)[..4], normX, normY) == AsReal(BoundingBox(r.lines[0].baseline))
    ensures BoxOfFeatures(BaselineFeatures(r, normX, normY)[4..], normX, normY)
         == AsReal(BoundingBox(r.lines[|r.lines| - 1].baseline))
    ensures |r.lines| == 1 ==> BaselineFeatures(r, normX, normY)[..4] == BaselineFeatures(r, normX, normY)[4..]
  {
    var top := BoxFeatures(BoundingBox(r.lines[0].baseline), normX, normY);
    var bottom := BoxFeatures(BoundingBox(r.lines[|r.lines| - 1].baseline), normX, normY);
    assert BaselineFeatures(r, normX, normY)[..4] == top;
    assert BaselineFeatures(r, normX, normY)[4..] == bottom;
    BoxFeaturesRecover(BoundingBox(r.lines[0].baseline), normX, normY);
    BoxFeaturesRecover(BoundingBox(r.lines[|r.lines| - 1].baseline), normX, normY);
  }

  /** Every baseline of the lines moved by (dx, dy). */
  function TranslateLines(lines: seq<TextLine>, dx: int, dy: int): (moved: seq<TextLine>)
    ensures |moved| == |lines|
    ensures forall i :: 0 <= i < |lines| ==> moved[i] == lines[i].(baseline := TranslateAll(lines[i].baseline, dx, dy))
  {
    seq(|lines|, i requires 0 <= i < |lines| => lines[i].(baseline := TranslateAll(lines[i].baseline, dx, dy)))
  }

  /** The four features of `g` from position `h` on are those of `f`, with
      the centre shifted by the normed offset. */
  predicate ShiftedBlock(f: seq<real>, g: seq<real>, h: nat, dx: int, dy: int, normX: real, normY: real)
    requires normX != 0.0 && normY != 0.0
    requires h + 4 <= |f| && h + 4 <= |g|
  {
    && g[h] == f[h] && g[h + 1] == f[h + 1]
    && g[h + 2] == f[h + 2] + dx as real / normX && g[h + 3] == f[h + 3] + dy as real / normY
  }

  /** Moving every baseline keeps the size features of both baseline
      blocks and shifts their centre features by the normed offset. */
  lemma BaselineFeaturesTranslate(r: TextRegion, dx: int, dy: int, normX: real, normY: real)
    requires normX != 0.0 && normY != 0.0 && |r.lines| > 0
    ensures ShiftedBlock(BaselineFeatures(r, normX, normY),
                         BaselineFeatures(r.(lines := TranslateLines(r.lines, dx, dy)), normX, normY), 0, dx, dy, normX, normY)
    ensures ShiftedBlock(BaselineFeatures(r, normX, normY),
                         BaselineFeatures(r.(lines := TranslateLines(r.lines, dx, dy)), normX, normY), 4, dx, dy, normX, normY)
  {
    var last := |r.lines| - 1;
    var moved := r.(lines := TranslateLines(r.lines, dx, dy));
    var top, bottom := r.lines[0].baseline, r.lines[last].baseline;
    assert moved.lines[0].baseline == TranslateAll(top, dx, dy);
    assert moved.lines[last].baseline == TranslateAll(bottom, dx, dy);
    BaselineBlockTranslate(top, dx, dy, normX, normY);
    BaselineBlockTranslate(bottom, dx, dy, normX, normY);
    ShiftedConcat(BoxFeatures(BoundingBox(top), normX, normY), BoxFeatures(BoundingBox(TranslateAll(top, dx, dy)), normX, normY),
                  BoxFeatures(BoundingBox(bottom), normX, normY), BoxFeatures(BoundingBox(TranslateAll(bottom, dx, dy)), normX, normY),
                  dx, dy, normX, normY);
  }

  /** The block of one moved baseline. */
  lemma BaselineBlockTranslate(baseline: Polygon, dx: int, dy: int, normX: real, normY: real)
    requires normX != 0.0 && normY != 0.0
    ensures ShiftedBlock(BoxFeatures(BoundingBox(baseline), normX, normY),
                         BoxFeatures(BoundingBox(TranslateAll(baseline, dx, dy)), normX, normY), 0, dx, dy, normX, normY)
  {
    BoundingBoxTranslate(baseline, dx, dy);
    BoxFeaturesTranslate(BoundingBox(baseline), dx, dy, normX, normY);
  }

  /** Two shifted blocks side by side. */
  lemma ShiftedConcat(a: seq<real>, a': seq<real>, b: seq<real>, b': seq<real>, dx: int, dy: int, normX: real, normY: real)
    requires normX != 0.0 && normY != 0.0
    requires |a| == |a'| == |b| == |b'| == 4
    requires ShiftedBlock(a, a', 0, dx, dy, normX, normY) && ShiftedBlock(b, b', 0, dx, dy, normX, normY)
    ensures ShiftedBlock(a + b, a' + b', 0, dx, dy, normX, normY)
    ensures ShiftedBlock(a + b, a' + b', 4, dx, dy, normX, normY)
  {
    assert (a + b)[4..] == b && (a' + b')[4..] == b';
  }

  // ---------------------------------------------------------------------
  // Scalar blocks

  /** Every line with text has an entry in the per-line table. */
  predicate Covers(values: map<string, real>, lines: seq<TextLine>) {
    forall i :: 0 <= i < |lines| && HasText(lines[i]) ==> lines[i].id in values
  }

  /** The maximum of the per-line values over the lines with text. */
  function MaxOverText(lines: seq<TextLine>, values: map<string, real>): (m: real)
    requires !NoText(lines) && Covers(values, lines)
    ensures exists i :: 0 <= i < |lines| && HasText(lines[i]) && values[lines[i].id] == m
    ensures forall i :: 0 <= i < |lines| && HasText(lines[i]) ==> values[lines[i].id] <= m
  {
    var init, last := lines[..|lines| - 1], lines[|lines| - 1];
    assert forall i :: 0 <= i < |init| ==> init[i] == lines[i];
    if !HasText(last) then
      MaxOverText(init, values)
    else if NoText(init) then
      values[last.id]
    else
      var m := MaxOverText(init, values);
      if m >= values[last.id] then m else values[last.id]
  }

  /** `get_text_region_stroke_width_feature` and
      `get_text_region_text_height_feature` (the two differ only in the
      table): [0.0] when no line has text, otherwise the maximum of the
      per-line values over the lines with text, divided by `norm`. */
  function MaxLineFeature(r: TextRegion, values: map<string, real>, norm: real): (f: seq<real>)
    requires Covers(values, r.lines)
    requires norm != 0.0
    ensures |f| == 1
    ensures NoText(r.lines) ==> f == [0.0]
    ensures !NoText(r.lines) ==> f[0] * norm == MaxOverText(r.lines, values)
  {
    if NoText(r.lines) then [0.0]
    else
      var m := MaxOverText(r.lines, values);
      DivMul(m, norm);
      [m / norm]
  }

  /** `get_text_region_heading_feature`. */
  function HeadingFeature(r: TextRegion): (f: seq<real>)
    ensures f == [1.0] || f == [0.0]
    ensures f[0] == 1.0 <==> IsHeading(r)
  {
    [if IsHeading(r) then 1.0 else 0.0]
  }

  // ---------------------------------------------------------------------
  // The node feature vector

  /** Everything a node feature depends on besides the region. */
  datatype NodeContext = NodeContext(
    normX: real, normY: real,
    strokeWidths: map<string, real>, textHeights: map<string, real>,
    swMax: real, thMax: real,
    sources: seq<ExternalSource>, page: string)

  predicate ValidContext(c: NodeContext) {
    c.normX != 0.0 && c.normY != 0.0 && c.swMax != 0.0 && c.thMax != 0.0
  }

  /** What the node loop demands of a region: lines, and stroke width and
      text height entries for those with text. */
  predicate ValidNode(c: NodeContext, r: TextRegion) {
    |r.lines| > 0 && Covers(c.strokeWidths, r.lines) && Covers(c.textHeights, r.lines)
  }

  /** The feature vector of one node, block after block. */
  function NodeFeature(c: NodeContext, r: TextRegion): (f: seq<real>)
    requires ValidContext(c) && ValidNode(c, r)
    ensures |f| == 15 + |ExternalNodeBlock(c.sources, c.page, r.id)|
  {
    GeometricFeatures(r, c.normX, c.normY)
      + BaselineFeatures(r, c.normX, c.normY)
      + MaxLineFeature(r, c.strokeWidths, c.swMax)
      + MaxLineFeature(r, c.textHeights, c.thMax)
      + HeadingFeature(r)
      + ExternalNodeBlock(c.sources, c.page, r.id)
  }

  /** Under uniform tables every node feature of a page has the same width,
      whatever the region. */
  lemma NodeFeatureWidth(c: NodeContext, r: TextRegion)
    requires ValidContext(c) && ValidNode(c, r)
    requires UniformSources(c.sources, c.page)
    ensures |NodeFeature(c, r)| == 15 + NodeWidth(c.sources, c.page)
  {
    ExternalNodeBlockWidth(c.sources, c.page, r.id);
  }

  /** Where the blocks sit in the node feature vector. */
  lemma NodeFeatureLayout(c: NodeContext, r: TextRegion)
    requires ValidContext(c) && ValidNode(c, r)
    ensures NodeFeature(c, r)[..4] == GeometricFeatures(r, c.normX, c.normY)
    ensures NodeFeature(c, r)[4..12] == BaselineFeatures(r, c.normX, c.normY)
    ensures NodeFeature(c, r)[12] == MaxLineFeature(r, c.strokeWidths, c.swMax)[0]
    ensures NodeFeature(c, r)[13] == MaxLineFeature(r, c.textHeights, c.thMax)[0]
    ensures NodeFeature(c, r)[14] == 1.0 <==> IsHeading(r)
    ensures NodeFeature(c, r)[15..] == ExternalNodeBlock(c.sources, c.page, r.id)
  {
    var g := GeometricFeatures(r, c.normX, c.normY);
    var bl := BaselineFeatures(r, c.normX, c.normY);
    var sw := MaxLineFeature(r, c.strokeWidths, c.swMax);
    var th := MaxLineFeature(r, c.textHeights, c.thMax);
    var hd := HeadingFeature(r);
    var ext := ExternalNodeBlock(c.sources, c.page, r.id);
    var f := NodeFeature(c, r);
    assert f == g + bl + sw + th + hd + ext;
    assert f[..4] == g;
    assert f[4..12] == bl;
    assert f[15..] == ext;
  }

  /** The geometric block leads the node feature vector. */
  lemma NodeFeatureGeometry(c: NodeContext, r: TextRegion)
    requires ValidContext(c) && ValidNode(c, r)
    ensures NodeFeature(c, r)[..4] == GeometricFeatures(r, c.normX, c.normY)
  {
    var g := GeometricFeatures(r, c.normX, c.normY);
    var rest := BaselineFeatures(r, c.normX, c.normY)
      + MaxLineFeature(r, c.strokeWidths, c.swMax)
      + MaxLineFeature(r, c.textHeights, c.thMax)
      + HeadingFeature(r)
      + ExternalNodeBlock(c.sources, c.page, r.id);
    assert NodeFeature(c, r) == g + rest;
    assert (g + rest)[..4] == g;
  }

  /** Columns 2 and 3 of a vector that starts with the block `g`, scaled. */
  lemma ScaledPrefix(f: seq<real>, g: seq<real>, normX: real, normY: real, x: real, y: real)
    requires |g| == 4 && |f| >= 4 && f[..4] == g
    requires g[2] * normX == x && g[3] * normY == y
    ensures f[2] * normX == x && f[3] * normY == y
  {
    assert f[2] == g[2] && f[3] == g[3];
  }

  /** The body of the node loop for one region: the blocks are appended in
      order, the external sources last. */
  method NodeFeatureOf(c: NodeContext, r: TextRegion) returns (feature: seq<real>)
    requires ValidContext(c) && ValidNode(c, r)
    ensures feature == NodeFeature(c, r)
  {
    feature := [];
    feature := feature + GeometricFeatures(r, c.normX, c.normY);
    feature := feature + BaselineFeatures(r, c.normX, c.normY);
    feature := feature + MaxLineFeature(r, c.strokeWidths, c.swMax);
    feature := feature + MaxLineFeature(r, c.textHeights, c.thMax);
    feature := feature + HeadingFeature(r);
    feature := ExtendExternalNode(feature, c.sources, c.page, r.id);
  }

  /** The node loop of `build_input_and_target`: one feature vector per
      region, in region order. */
  method NodeFeatureMatrix(c: NodeContext, regions: seq<TextRegion>) returns (features: seq<seq<real>>)
    requires ValidContext(c)
    requires forall i :: 0 <= i < |regions| ==> ValidNode(c, regions[i])
    ensures |features| == |regions|
    ensures forall i :: 0 <= i < |regions| ==> features[i] == NodeFeature(c, regions[i])
  {
    ghost var want := seq(|regions|, j requires 0 <= j < |regions| => NodeFeature(c, regions[j]));
    features := [];
    var i := 0;
    while i < |regions|
      invariant 0 <= i <= |regions|
      invariant features == want[..i]
    {
      var feature := NodeFeatureOf(c, regions[i]);
      PrefixSnoc(want, i);
      features := features + [feature];
      i := i + 1;
    }
    assert want[..i] == want;
  }
}
