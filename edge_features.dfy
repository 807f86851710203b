/** The edge feature vector of an interacting pair of text regions: the
    separator block (2), the text block similarity block, then the external
    blocks.  The separator regions are shared by all edges; under the line
    strategy their coordinate lists are closed in place along the way. */
module EdgeFeatures {
  import opened Wrappers
  import opened Geometry
  import opened Regions
  import opened ExternalData
  import opened SeparatorFeatures
  import opened Topology

  /** The `separators` argument: 'bb' or 'line'. */
  datatype SeparatorMode = BB | Line

  /** Everything an edge feature depends on besides the two regions and the
      separators.  `similarity` is `None` when there is no similarity
      extractor or its dictionary is empty. */
  datatype EdgeContext = EdgeContext(
    mode: SeparatorMode, similarity: Option<SimilarityDict>,
    sources: seq<ExternalSource>, page: string)

  /** The separator block: [0.0, 0.0] without separators, otherwise the
      feature of the chosen strategy. */
  function SeparatorBlock(mode: SeparatorMode, a: TextRegion, b: TextRegion, seps: seq<Separator>): (f: seq<real>)
    ensures |f| == 2
    ensures seps == [] ==> f == [0.0, 0.0]
  {
    var bbA, bbB := BoundingBox(a.points), BoundingBox(b.points);
    if seps == [] then [0.0, 0.0]
    else if mode == Line then LineFeature(CentreLine(bbA, bbB), seps)
    else BBFeature(bbA, bbB, seps)
  }

  /** Both strategies give the pair (A, B) the block of (B, A). */
  lemma SeparatorBlockSymmetric(mode: SeparatorMode, a: TextRegion, b: TextRegion, seps: seq<Separator>)
    ensures SeparatorBlock(mode, a, b, seps) == SeparatorBlock(mode, b, a, seps)
  {
    var bbA, bbB := BoundingBox(a.points), BoundingBox(b.points);
    BBFeatureSymmetric(bbA, bbB, seps);
    LineFeatureSymmetric(bbA, bbB, seps);
  }

  /** A flag of the separator block is set iff some separator sets it under
      the chosen strategy. */
  lemma SeparatorBlockMeaning(mode: SeparatorMode, a: TextRegion, b: TextRegion, seps: seq<Separator>)
    ensures var f, bbA, bbB := SeparatorBlock(mode, a, b, seps), BoundingBox(a.points), BoundingBox(b.points);
      mode == BB ==>
        && (f[0] == 1.0 <==> exists k :: 0 <= k < |seps| && BBHorizontalHit(bbA, bbB, seps[k]))
        && (f[1] == 1.0 <==> exists k :: 0 <= k < |seps| && BBVerticalHit(bbA, bbB, seps[k]))
    ensures var f, line := SeparatorBlock(mode, a, b, seps), CentreLine(BoundingBox(a.points), BoundingBox(b.points));
      mode == Line ==>
        && (f[0] == 1.0 <==> exists k :: 0 <= k < |seps| && LineSets(line, seps[k], true))
        && (f[1] == 1.0 <==> exists k :: 0 <= k < |seps| && LineSets(line, seps[k], false))
  {
    var bbA, bbB := BoundingBox(a.points), BoundingBox(b.points);
    BBFeatureMeaning(bbA, bbB, seps);
    LineFeatureMeaning(CentreLine(bbA, bbB), seps);
  }

  /** The similarity block: nothing without a similarity dictionary. */
  function SimilarityBlock(sim: Option<SimilarityDict>, a: string, b: string): seq<real> {
    match sim
    case None => []
    case Some(d) => SimilarityLookup(d, a, b)
  }

  /** A similarity dictionary whose edge table is as wide as its fallback. */
  predicate SimilarityUniform(sim: Option<SimilarityDict>) {
    sim.Some? && sim.value.edgeFeatures.Some? ==> EdgeTableUniform(sim.value.edgeFeatures.value)
  }

  /** The width of the similarity block of every pair. */
  function SimilarityWidth(sim: Option<SimilarityDict>): nat {
    match sim
    case None => 0
    case Some(d) =>
      match d.edgeFeatures
      case Some(t) => EdgeFallbackWidth(t)
      case None => 1
  }

  /** The feature vector of the edge (a, b), for the separator values `seps`. */
  function EdgeFeature(c: EdgeContext, seps: seq<Separator>, a: TextRegion, b: TextRegion): (f: seq<real>)
    ensures |f| == 2 + |SimilarityBlock(c.similarity, a.id, b.id)| + |ExternalEdgeBlock(c.sources, c.page, a.id, b.id)|
  {
    SeparatorBlock(c.mode, a, b, seps)
      + SimilarityBlock(c.similarity, a.id, b.id)
      + ExternalEdgeBlock(c.sources, c.page, a.id, b.id)
  }

  /** Under uniform tables every edge feature of a page has the same
      width, whatever the pair. */
  lemma EdgeFeatureWidth(c: EdgeContext, seps: seq<Separator>, a: TextRegion, b: TextRegion)
    requires UniformSources(c.sources, c.page) && SimilarityUniform(c.similarity)
    ensures |EdgeFeature(c, seps, a, b)| == 2 + SimilarityWidth(c.similarity) + EdgeWidth(c.sources, c.page)
  {
    ExternalEdgeBlockWidth(c.sources, c.page, a.id, b.id);
    if c.similarity.Some? && c.similarity.value.edgeFeatures.Some? {
      EdgeLookupChain(c.similarity.value.edgeFeatures.value, a.id, b.id);
    }
  }

  /** Where the blocks sit in the edge feature vector. */
  lemma EdgeFeatureLayout(c: EdgeContext, seps: seq<Separator>, a: TextRegion, b: TextRegion)
    ensures var f, m := EdgeFeature(c, seps, a, b), 2 + |SimilarityBlock(c.similarity, a.id, b.id)|;
      && f[..2] == SeparatorBlock(c.mode, a, b, seps)
      && f[2..m] == SimilarityBlock(c.similarity, a.id, b.id)
      && f[m..] == ExternalEdgeBlock(c.sources, c.page, a.id, b.id)
  {
    var sb := SeparatorBlock(c.mode, a, b, seps);
    var sim := SimilarityBlock(c.similarity, a.id, b.id);
    var ext := ExternalEdgeBlock(c.sources, c.page, a.id, b.id);
    var f := EdgeFeature(c, seps, a, b);
    assert f == sb + sim + ext;
    assert f[..2] == sb;
    assert f[2..2 + |sim|] == sim;
    assert f[2 + |sim|..] == ext;
  }

  /** The edge feature does not change when separator lists were closed. */
  lemma EdgeFeatureAfterClosing(c: EdgeContext, before: seq<Separator>, after: seq<Separator>, a: TextRegion, b: TextRegion)
    requires |after| == |before|
    requires forall k :: 0 <= k < |before| ==>
      after[k].id == before[k].id && after[k].orientation == before[k].orientation
      && ClosedOrSame(after[k].polygon, before[k].polygon)
    ensures EdgeFeature(c, after, a, b) == EdgeFeature(c, before, a, b)
  {
    var bbA, bbB := BoundingBox(a.points), BoundingBox(b.points);
    BBFeatureAfterClosing(bbA, bbB, before, after);
    LineFeatureAfterClosing(CentreLine(bbA, bbB), before, after);
  }

  /** The text block similarity lookup of the edge loop. */
  method ExtendSimilarity(feature: seq<real>, sim: Option<SimilarityDict>, a: string, b: string)
      returns (out: seq<real>)
    ensures out == feature + SimilarityBlock(sim, a, b)
  {
    out := feature;
    if sim.Some? {
      if sim.value.edgeFeatures.Some? {
        var v := LookupEdge(sim.value.edgeFeatures.value, a, b);
        out := out + v;
      } else {
        out := out + [0.5];
      }
    }
  }

  /** The separator block of the edge loop.  The line strategy may close
      separator lists; the block is that of the separators as they were on
      entry. */
  method SeparatorBlockOf(mode: SeparatorMode, a: TextRegion, b: TextRegion, seps: seq<SeparatorRegion>)
      returns (block: seq<real>)
    modifies PointLists(seps)
    ensures block == SeparatorBlock(mode, a, b, old(Views(seps)))
    ensures forall k :: 0 <= k < |seps| ==> ClosedOrSame(seps[k].points.points, old(seps[k].points.points))
  {
    if |seps| == 0 {
      block := [0.0, 0.0];
    } else if mode == Line {
      block := SeparatorFeatureLine(a, b, seps, Views(seps));
    } else {
      block := SeparatorFeatureBB(a, b, Views(seps));
    }
  }

  /** The body of the edge loop for one pair of regions. */
  method EdgeFeatureOf(c: EdgeContext, a: TextRegion, b: TextRegion, seps: seq<SeparatorRegion>)
      returns (feature: seq<real>)
    modifies PointLists(seps)
    ensures feature == EdgeFeature(c, old(Views(seps)), a, b)
    ensures forall k :: 0 <= k < |seps| ==> ClosedOrSame(seps[k].points.points, old(seps[k].points.points))
  {
    ghost var before := Views(seps);
    feature := SeparatorBlockOf(c.mode, a, b, seps);
    assert feature == SeparatorBlock(c.mode, a, b, before);
    feature := ExtendSimilarity(feature, c.similarity, a.id, b.id);
    feature := ExtendExternalEdge(feature, c.sources, c.page, a.id, b.id);
  }

  /** One edge of the edge loop, stated against the separator values before
      the loop (`before`). */
  method EdgeStep(c: EdgeContext, a: TextRegion, b: TextRegion, seps: seq<SeparatorRegion>, ghost before: seq<Separator>)
      returns (feature: seq<real>)
    requires |seps| == |before|
    requires forall k :: 0 <= k < |seps| ==> before[k].id == seps[k].id && before[k].orientation == seps[k].orientation
    requires forall k :: 0 <= k < |seps| ==> ClosedOrSame(seps[k].points.points, before[k].polygon)
    modifies PointLists(seps)
    ensures feature == EdgeFeature(c, before, a, b)
    ensures forall k :: 0 <= k < |seps| ==> ClosedOrSame(seps[k].points.points, before[k].polygon)
  {
    EdgeFeatureAfterClosing(c, before, Views(seps), a, b);
    label Step:
    feature := EdgeFeatureOf(c, a, b, seps);
    forall k | 0 <= k < |seps|
      ensures ClosedOrSame(seps[k].points.points, before[k].polygon)
    {
      ClosedOrSameTrans(seps[k].points.points, old@Step(seps[k].points.points), before[k].polygon);
    }
  }

  /** Every edge names two of the regions. */
  predicate EdgesInRange(edges: seq<Edge>, n: nat) {
    forall i :: 0 <= i < |edges| ==> 0 <= edges[i].src < n && 0 <= edges[i].dst < n
  }

  /** The edge loop of `build_input_and_target`: one feature vector per
      interacting pair, in edge order, each that of the separator values
      `before` the loop; separator lists end either as they were or
      closed. */
  method EdgeFeatureMatrix(c: EdgeContext, regions: seq<TextRegion>, edges: seq<Edge>, seps: seq<SeparatorRegion>, ghost before: seq<Separator>)
      returns (features: seq<seq<real>>)
    requires EdgesInRange(edges, |regions|)
    requires |seps| == |before|
    requires forall k :: 0 <= k < |seps| ==> before[k].id == seps[k].id && before[k].orientation == seps[k].orientation
    requires forall k :: 0 <= k < |seps| ==> ClosedOrSame(seps[k].points.points, before[k].polygon)
    modifies PointLists(seps)
    ensures |features| == |edges|
    ensures forall i :: 0 <= i < |edges| ==>
      features[i] == EdgeFeature(c, before, regions[edges[i].src], regions[edges[i].dst])
    ensures forall k :: 0 <= k < |seps| ==> ClosedOrSame(seps[k].points.points, before[k].polygon)
  {
    ghost var want := seq(|edges|, j requires 0 <= j < |edges| =>
      EdgeFeature(c, before, regions[edges[j].src], regions[edges[j].dst]));
    features := [];
    var i := 0;
    while i < |edges|
      invariant 0 <= i <= |edges|
      invariant features == want[..i]
      invariant forall k :: 0 <= k < |seps| ==> ClosedOrSame(seps[k].points.points, before[k].polygon)
    {
      var feature := EdgeStep(c, regions[edges[i].src], regions[edges[i].dst], seps, before);
      PrefixSnoc(want, i);
      features := features + [feature];
      i := i + 1;
    }
    assert want[..i] == want;
  }
}
