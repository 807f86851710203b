/** `build_input_and_target`: the graph of one page.  The page's parsed
    content, the options and the foreign computations (the library bounding
    boxes and convex hulls, the line statistics, the triangulation) are
    inputs. */
module PageGraph {
  import opened Wrappers
  import opened Geometry
  import opened Regions
  import opened ExternalData
  import opened SeparatorFeatures
  import opened Topology
  import opened NodeFeatures
  import opened EdgeFeatures
  import opened Discard
  import opened GroundTruth
  import opened Visual

  // ---------------------------------------------------------------------
  // Maxima of the line statistics

  predicate IsMaxOf(s: set<real>, x: real) {
    x in s && forall v :: v in s ==> v <= x
  }

  lemma {:induction false} MaxExists(s: set<real>)
    requires s != {}
    ensures exists x :: IsMaxOf(s, x)
    decreases |s|
  {
    ghost var pick := NonEmpty(s);
    var y :| y in s;
    var rest := s - {y};
    if rest == {} {
      forall v | v in s
        ensures v == y
      {
        assert v !in rest;
      }
      assert IsMaxOf(s, y);
    } else {
      MaxExists(rest);
      var x :| IsMaxOf(rest, x);
      assert forall v :: v in s ==> v == y || v in rest;
      if x < y {
        assert IsMaxOf(s, y);
      } else {
        assert IsMaxOf(s, x);
      }
    }
  }

  /** `np.max` of the values of a table. */
  ghost function MaxOf(s: set<real>): (x: real)
    requires s != {}
    ensures IsMaxOf(s, x)
  {
    MaxExists(s);
    var x :| IsMaxOf(s, x); x
  }

  /** The maximum of a non-empty set of values, by a pass over them. */
  method SetMax(s: set<real>) returns (x: real)
    requires s != {}
    ensures x == MaxOf(s)
  {
    ghost var pick := NonEmpty(s);
    x :| x in s;
    var rest := s - {x};
    while rest != {}
      invariant rest <= s && x in s
      invariant forall v :: v in s && v !in rest ==> v <= x
      decreases |rest|
    {
      ghost var pick := NonEmpty(rest);
      var v :| v in rest;
      if v > x {
        x := v;
      }
      rest := rest - {v};
    }
    assert IsMaxOf(s, x);
  }

  // ---------------------------------------------------------------------
  // Inputs and outputs

  /** The per-line statistics the distance transform yields (a computation
      on the page image that is not part of this model). */
  datatype LineStats = LineStats(strokeWidths: map<string, real>, heights: map<string, real>)

  /** What the page parser delivers.  `textRegions` is `None` when the page
      has no text regions; a page without separator regions has an empty
      `separators` list; `name` is the page's file name, the key into the
      external sources. */
  datatype PageInput = PageInput(
    textRegions: Option<RegionList>, separators: seq<SeparatorRegion>, textLines: seq<TextLine>,
    articles: map<string, ArticleRef>, normX: real, normY: real, name: string)

  /** The options of `build_input_and_target`. */
  datatype Options = Options(
    interaction: Interaction, mode: SeparatorMode, visualRegions: bool,
    sources: seq<ExternalSource>, similarity: Option<SimilarityDict>)

  /** The foreign computations. */
  datatype Oracles = Oracles(
    size: Polygon -> BoxSize, lineStats: seq<TextLine> -> LineStats,
    roundBase: seq<Position> -> seq<Position>, triangulate: seq<Position> -> Option<Csr>,
    boundingBox: seq<Point> -> seq<Point>, convexHull: seq<Point> -> seq<Point>)

  datatype VisualRegions = VisualRegions(
    nodes: seq<seq<Point>>, nodeCounts: seq<nat>, edges: array2<Point>, edgeCounts: seq<nat>)

  /** What `build_input_and_target` returns for a page with a graph. */
  datatype Graph = Graph(
    numNodes: nat, edges: seq<Edge>, numEdges: nat,
    nodeFeatures: seq<seq<real>>, edgeFeatures: Option<seq<seq<real>>>,
    visual: Option<VisualRegions>, relations: seq<Relation>, numRelations: nat)

  /** The situations in which the source raises. */
  datatype GraphError =
    | NoTriangulation       // both triangulation attempts fail
    | EmptyLineStatistics   // `np.max` of an empty table
    | ZeroNorm              // an image size or a statistics maximum is 0
    | MissingLineStatistic  // a line with text has no statistic
    | NoEdgesToPad          // `np.max` of no edge regions
    | MissingArticle        // a region is missing from the article map

  function RegionLists(page: PageInput): set<RegionList> {
    if page.textRegions.Some? then {page.textRegions.value} else {}
  }

  // ---------------------------------------------------------------------
  // Positions of the nodes

  /** The centre of a region's bounding box. */
  function BoxCentre(r: TextRegion): Position {
    var b := BoundingBox(r.points);
    Position((b.minX + b.maxX) as real / 2.0, (b.minY + b.maxY) as real / 2.0)
  }

  function BoxCentres(regions: seq<TextRegion>): (ps: seq<Position>)
    ensures |ps| == |regions|
    ensures forall i :: 0 <= i < |regions| ==> ps[i] == BoxCentre(regions[i])
  {
    seq(|regions|, i requires 0 <= i < |regions| => BoxCentre(regions[i]))
  }

  /** `node_features[:, 2:4] * [norm_x, norm_y]`. */
  function FeatureCentres(features: seq<seq<real>>, normX: real, normY: real): (ps: seq<Position>)
    requires forall i :: 0 <= i < |features| ==> |features[i]| >= 4
    ensures |ps| == |features|
  {
    seq(|features|, i requires 0 <= i < |features| => Position(features[i][2] * normX, features[i][3] * normY))
  }

  /** The centre read back from a vector led by a region's geometric block
      is the region's box centre. */
  lemma FeatureCentreIsBoxCentre(r: TextRegion, f: seq<real>, normX: real, normY: real)
    requires normX != 0.0 && normY != 0.0
    requires |f| >= 4 && f[..4] == GeometricFeatures(r, normX, normY)
    ensures Position(f[2] * normX, f[3] * normY) == BoxCentre(r)
  {
    var b := BoundingBox(r.points);
    BoxFeaturesCentre(b, normX, normY);
    ScaledPrefix(f, BoxFeatures(b, normX, normY), normX, normY,
                 (b.minX + b.maxX) as real / 2.0, (b.minY + b.maxY) as real / 2.0);
  }

  /** The Delaunay input read back from the node features is the list of
      the regions' box centres. */
  lemma FeatureCentresAreBoxCentres(c: NodeContext, regions: seq<TextRegion>, features: seq<seq<real>>)
    requires ValidContext(c)
    requires forall i :: 0 <= i < |regions| ==> ValidNode(c, regions[i])
    requires |features| == |regions|
    requires forall i :: 0 <= i < |regions| ==> features[i] == NodeFeature(c, regions[i])
    requires forall i :: 0 <= i < |features| ==> |features[i]| >= 4
    ensures FeatureCentres(features, c.normX, c.normY) == BoxCentres(regions)
  {
    var fc, bc := FeatureCentres(features, c.normX, c.normY), BoxCentres(regions);
    forall i | 0 <= i < |regions|
      ensures fc[i] == bc[i]
    {
      NodeFeatureGeometry(c, regions[i]);
      FeatureCentreIsBoxCentre(regions[i], features[i], c.normX, c.normY);
    }
  }

  // ---------------------------------------------------------------------
  // The specification of a page's graph

  /** The node context of the surviving regions. */
  ghost function NodeContextOf(page: PageInput, opts: Options, stats: LineStats): NodeContext
    requires stats.strokeWidths != map[] && stats.heights != map[]
  {
    NodeContext(page.normX, page.normY, stats.strokeWidths, stats.heights,
                MaxOf(stats.strokeWidths.Values), MaxOf(stats.heights.Values), opts.sources, page.name)
  }

  function EdgeContextOf(page: PageInput, opts: Options): EdgeContext {
    EdgeContext(opts.mode, opts.similarity, opts.sources, page.name)
  }

  /** The node features of the graph. */
  ghost predicate NodesSpec(numNodes: nat, nodeFeatures: seq<seq<real>>, c: NodeContext, kept: seq<TextRegion>)
    requires ValidContext(c) && forall i :: 0 <= i < |kept| ==> ValidNode(c, kept[i])
  {
    && numNodes == |kept|
    && |nodeFeatures| == |kept|
    && forall i :: 0 <= i < |kept| ==> nodeFeatures[i] == NodeFeature(c, kept[i])
  }

  /** The edge features: one per edge, for the separators as they came in;
      `None` when there is no edge. */
  ghost predicate EdgesSpec(edges: seq<Edge>, numEdges: nat, edgeFeatures: Option<seq<seq<real>>>,
                            c: EdgeContext, kept: seq<TextRegion>, seps: seq<Separator>)
  {
    && numEdges == |edges|
    && EdgesInRange(edges, |kept|)
    && (edges == [] <==> edgeFeatures.None?)
    && (edgeFeatures.Some? ==>
         && |edgeFeatures.value| == |edges|
         && forall i :: 0 <= i < |edges| ==>
              edgeFeatures.value[i] == EdgeFeature(c, seps, kept[edges[i].src], kept[edges[i].dst]))
  }

  /** The visual regions: requested or not, the library's bounding box of
      every node and the convex hull of every edge, padded with zeros to
      the length of the longest hull.  There are edges whenever there are
      visual regions. */
  ghost predicate VisualSpec(visual: Option<VisualRegions>, edges: seq<Edge>, visualRegions: bool,
                             o: Oracles, kept: seq<TextRegion>)
    reads if visual.Some? then {visual.value.edges} else {}
    requires EdgesInRange(edges, |kept|)
  {
    && (visualRegions <==> visual.Some?)
    && (visual.Some? ==>
         var v, hulls := visual.value, EdgeHulls(kept, edges, o.convexHull);
         && |v.nodes| == |v.nodeCounts| == |kept|
         && (forall k :: 0 <= k < |kept| ==> v.nodes[k] == o.boundingBox(kept[k].points) && v.nodeCounts[k] == |v.nodes[k]|)
         && |v.edgeCounts| == |edges| == v.edges.Length0
         && (forall i :: 0 <= i < |edges| ==> v.edgeCounts[i] == |hulls[i]|)
         && edges != []
         && v.edges.Length1 == MaxLen(hulls)
         && forall i, j :: 0 <= i < |edges| && 0 <= j < v.edges.Length1 ==>
              v.edges[i, j] == (if j < |hulls[i]| then hulls[i][j] else Zero))
  }

  /** The ground truth of the graph. */
  ghost predicate RelationsSpec(relations: seq<Relation>, numRelations: nat,
                                kept: seq<TextRegion>, articles: map<string, ArticleRef>)
    requires forall k :: 0 <= k < |kept| ==> kept[k].id in articles
  {
    relations == Relations(EffectiveIds(kept, articles)) && numRelations == |relations|
  }

  // ---------------------------------------------------------------------
  // Which error a page raises

  /** The line statistics allow node features: both tables are non-empty,
      no norm is 0 and every line with text has its statistics. */
  ghost predicate ContextOk(page: PageInput, opts: Options, stats: LineStats, kept: seq<TextRegion>) {
    && stats.strokeWidths != map[] && stats.heights != map[]
    && ValidContext(NodeContextOf(page, opts, stats))
    && forall i :: 0 <= i < |kept| ==> ValidNode(NodeContextOf(page, opts, stats), kept[i])
  }

  /** The error of the stages after the edge set, in the source's order:
      padding no edge regions, then a region missing from the article map. */
  function AnnotationError(visualRegions: bool, edges: seq<Edge>, kept: seq<TextRegion>,
                           articles: map<string, ArticleRef>): Option<GraphError>
  {
    if visualRegions && edges == [] then Some(NoEdgesToPad)
    else if exists k :: 0 <= k < |kept| && kept[k].id !in articles then Some(MissingArticle)
    else None
  }

  /** The error of the stages from the edge set on. */
  function EdgesError(page: PageInput, opts: Options, o: Oracles, kept: seq<TextRegion>): Option<GraphError>
    requires SolverContract(o.roundBase, o.triangulate)
  {
    var interacting := InteractionEdges(opts.interaction, BoxCentres(kept), o.roundBase, o.triangulate);
    if interacting.Failure? then Some(NoTriangulation)
    else AnnotationError(opts.visualRegions, interacting.value, kept, page.articles)
  }

  /** The error of the statistics stage. */
  ghost function StatsError(page: PageInput, opts: Options, stats: LineStats, kept: seq<TextRegion>): Option<GraphError> {
    if stats.strokeWidths == map[] || stats.heights == map[] then Some(EmptyLineStatistics)
    else if !ValidContext(NodeContextOf(page, opts, stats)) then Some(ZeroNorm)
    else if !(forall i :: 0 <= i < |kept| ==> ValidNode(NodeContextOf(page, opts, stats), kept[i])) then Some(MissingLineStatistic)
    else None
  }

  /** The error the source raises for the surviving regions `kept` and the
      remaining lines, if any: the first raise point that fires. */
  ghost function SurvivorsError(page: PageInput, opts: Options, o: Oracles, kept: seq<TextRegion>,
                                lines: seq<TextLine>): Option<GraphError>
    requires SolverContract(o.roundBase, o.triangulate)
  {
    var se := StatsError(page, opts, o.lineStats(lines), kept);
    if se.Some? then se else EdgesError(page, opts, o, kept)
  }

  /** Each error, and the absence of all, by the conditions that cause it. */
  lemma SurvivorsErrorCases(page: PageInput, opts: Options, o: Oracles, kept: seq<TextRegion>, lines: seq<TextLine>)
    requires SolverContract(o.roundBase, o.triangulate)
    ensures var stats, e := o.lineStats(lines), SurvivorsError(page, opts, o, kept, lines);
      && (e == Some(EmptyLineStatistics) <==> stats.strokeWidths == map[] || stats.heights == map[])
      && (e == Some(ZeroNorm) <==>
           stats.strokeWidths != map[] && stats.heights != map[] && !ValidContext(NodeContextOf(page, opts, stats)))
      && (e == Some(MissingLineStatistic) <==>
           && stats.strokeWidths != map[] && stats.heights != map[] && ValidContext(NodeContextOf(page, opts, stats))
           && exists i :: 0 <= i < |kept| && !ValidNode(NodeContextOf(page, opts, stats), kept[i]))
    ensures var stats, ie := o.lineStats(lines), InteractionEdges(opts.interaction, BoxCentres(kept), o.roundBase, o.triangulate);
      var e := SurvivorsError(page, opts, o, kept, lines);
      && (e == Some(NoTriangulation) <==> ContextOk(page, opts, stats, kept) && ie.Failure?)
      && (e == Some(NoEdgesToPad) <==>
           ContextOk(page, opts, stats, kept) && ie.Success? && opts.visualRegions && ie.value == [])
      && (e == Some(MissingArticle) <==>
           && ContextOk(page, opts, stats, kept) && ie.Success? && !(opts.visualRegions && ie.value == [])
           && exists k :: 0 <= k < |kept| && kept[k].id !in page.articles)
      && (e == None <==>
           && ContextOk(page, opts, stats, kept) && ie.Success? && !(opts.visualRegions && ie.value == [])
           && forall k :: 0 <= k < |kept| ==> kept[k].id in page.articles)
  {
  }

  // ---------------------------------------------------------------------
  // The stages

  /** Line statistics, their maxima and the checks the node features need.
      The node context is returned when all hold. */
  method NodeContextFor(page: PageInput, opts: Options, stats: LineStats, kept: seq<TextRegion>)
      returns (r: Result<NodeContext, GraphError>)
    requires forall i :: 0 <= i < |kept| ==> !NoText(kept[i].lines)
    ensures r.Success? <==>
      && stats.strokeWidths != map[] && stats.heights != map[]
      && ValidContext(NodeContextOf(page, opts, stats))
      && forall i :: 0 <= i < |kept| ==> ValidNode(NodeContextOf(page, opts, stats), kept[i])
    ensures r.Success? ==> r.value == NodeContextOf(page, opts, stats)
    ensures r == Failure(EmptyLineStatistics) <==> stats.strokeWidths == map[] || stats.heights == map[]
    ensures r == Failure(ZeroNorm) <==>
      && stats.strokeWidths != map[] && stats.heights != map[]
      && !ValidContext(NodeContextOf(page, opts, stats))
    ensures r.Failure? ==> r.error in {EmptyLineStatistics, ZeroNorm, MissingLineStatistic}
  {
    if stats.strokeWidths == map[] || stats.heights == map[] {
      return Failure(EmptyLineStatistics);
    }
    assert stats.strokeWidths.Values != {} by {
      var k :| k in stats.strokeWidths;
      assert stats.strokeWidths[k] in stats.strokeWidths.Values;
    }
    assert stats.heights.Values != {} by {
      var k :| k in stats.heights;
      assert stats.heights[k] in stats.heights.Values;
    }
    var swMax := SetMax(stats.strokeWidths.Values);
    var thMax := SetMax(stats.heights.Values);
    var c := NodeContext(page.normX, page.normY, stats.strokeWidths, stats.heights, swMax, thMax, opts.sources, page.name);
    assert c == NodeContextOf(page, opts, stats);
    if page.normX == 0.0 || page.normY == 0.0 || swMax == 0.0 || thMax == 0.0 {
      return Failure(ZeroNorm);
    }
    if !(forall i :: 0 <= i < |kept| ==> ValidNode(c, kept[i])) {
      return Failure(MissingLineStatistic);
    }
    r := Success(c);
  }

  /** The optional visual regions of nodes and edges. */
  method VisualStage(visualRegions: bool, o: Oracles, kept: seq<TextRegion>, edges: seq<Edge>)
      returns (r: Result<Option<VisualRegions>, GraphError>)
    requires EdgesInRange(edges, |kept|)
    ensures !visualRegions ==> r == Success(None)
    ensures visualRegions && edges == [] ==> r == Failure(NoEdgesToPad)
    ensures visualRegions && edges != [] ==> r.Success? && r.value.Some? && fresh(r.value.value.edges)
    ensures r.Success? ==>
      VisualSpec(r.value, edges, visualRegions, o, kept)
  {
    if !visualRegions {
      return Success(None);
    }
    var nodes, nodeCounts := NodeVisualRegions(kept, o.boundingBox);
    var hulls, edgeCounts := EdgeVisualRegions(kept, edges, o.convexHull);
    if |hulls| == 0 {
      return Failure(NoEdgesToPad);
    }
    assert hulls == EdgeHulls(kept, edges, o.convexHull);
    var padded := PadVisualRegions(hulls);
    r := Success(Some(VisualRegions(nodes, nodeCounts, padded, edgeCounts)));
  }

  /** Everything the graph of the surviving regions `kept` must be, for the
      node context `c` and the separators `seps` as they came in. */
  ghost predicate GraphSpec(g: Graph, page: PageInput, opts: Options, o: Oracles,
                            c: NodeContext, kept: seq<TextRegion>, seps: seq<Separator>)
    reads if g.visual.Some? then {g.visual.value.edges} else {}
    requires SolverContract(o.roundBase, o.triangulate)
    requires ValidContext(c) && forall i :: 0 <= i < |kept| ==> ValidNode(c, kept[i])
  {
    && NodesSpec(g.numNodes, g.nodeFeatures, c, kept)
    && Success(g.edges) == InteractionEdges(opts.interaction, BoxCentres(kept), o.roundBase, o.triangulate)
    && EdgesSpec(g.edges, g.numEdges, g.edgeFeatures, EdgeContextOf(page, opts), kept, seps)
    && VisualSpec(g.visual, g.edges, opts.visualRegions, o, kept)
    && (forall k :: 0 <= k < |kept| ==> kept[k].id in page.articles)
    && RelationsSpec(g.relations, g.numRelations, kept, page.articles)
  }

  /** When every table is as wide as its fallback, the node vectors of the
      graph share one width and so do its edge vectors: the rows of the
      float32 arrays the graph is returned as. */
  lemma GraphFeatureWidths(g: Graph, page: PageInput, opts: Options, o: Oracles,
                           c: NodeContext, kept: seq<TextRegion>, seps: seq<Separator>)
    requires SolverContract(o.roundBase, o.triangulate)
    requires ValidContext(c) && forall i :: 0 <= i < |kept| ==> ValidNode(c, kept[i])
    requires GraphSpec(g, page, opts, o, c, kept, seps)
    requires c.sources == opts.sources && c.page == page.name
    requires UniformSources(opts.sources, page.name) && SimilarityUniform(opts.similarity)
    ensures forall i :: 0 <= i < |g.nodeFeatures| ==> |g.nodeFeatures[i]| == 15 + NodeWidth(opts.sources, page.name)
    ensures g.edgeFeatures.Some? ==>
      forall i :: 0 <= i < |g.edgeFeatures.value| ==>
        |g.edgeFeatures.value[i]| == 2 + SimilarityWidth(opts.similarity) + EdgeWidth(opts.sources, page.name)
  {
    forall i | 0 <= i < |g.nodeFeatures|
      ensures |g.nodeFeatures[i]| == 15 + NodeWidth(opts.sources, page.name)
    {
      NodeFeatureWidth(c, kept[i]);
    }
    if g.edgeFeatures.Some? {
      var ec := EdgeContextOf(page, opts);
      forall i | 0 <= i < |g.edgeFeatures.value|
        ensures |g.edgeFeatures.value[i]| == 2 + SimilarityWidth(opts.similarity) + EdgeWidth(opts.sources, page.name)
      {
        EdgeFeatureWidth(ec, seps, kept[g.edges[i].src], kept[g.edges[i].dst]);
      }
    }
  }

  /** The node features and the interacting pairs of the surviving regions. */
  method NodesAndEdges(page: PageInput, opts: Options, o: Oracles, c: NodeContext, kept: seq<TextRegion>)
      returns (nodeFeatures: seq<seq<real>>, r: Result<seq<Edge>, GraphError>)
    requires SolverContract(o.roundBase, o.triangulate)
    requires ValidContext(c) && forall i :: 0 <= i < |kept| ==> ValidNode(c, kept[i])
    requires c.normX == page.normX && c.normY == page.normY
    ensures NodesSpec(|kept|, nodeFeatures, c, kept)
    ensures r.Success? <==> InteractionEdges(opts.interaction, BoxCentres(kept), o.roundBase, o.triangulate).Success?
    ensures r.Success? ==>
      && Success(r.value) == InteractionEdges(opts.interaction, BoxCentres(kept), o.roundBase, o.triangulate)
      && EdgesInRange(r.value, |kept|)
    ensures r.Failure? ==> r.error == NoTriangulation
  {
    nodeFeatures := NodeFeatureMatrix(c, kept);
    FeatureCentresAreBoxCentres(c, kept, nodeFeatures);
    var positions := FeatureCentres(nodeFeatures, page.normX, page.normY);
    var interacting := InteractingNodes(opts.interaction, positions, o.roundBase, o.triangulate);
    if interacting.Failure? {
      return nodeFeatures, Failure(NoTriangulation);
    }
    InteractionEdgesInRange(opts.interaction, positions, o.roundBase, o.triangulate);
    r := Success(interacting.value);
  }

  /** The edge loop and the packaging of its result: `None` when there
      is no edge. */
  method EdgeFeaturesOf(page: PageInput, opts: Options, kept: seq<TextRegion>, edges: seq<Edge>,
                        ghost before: seq<Separator>)
      returns (edgeFeatures: Option<seq<seq<real>>>)
    requires EdgesInRange(edges, |kept|)
    requires before == Views(page.separators)
    modifies PointLists(page.separators)
    ensures EdgesSpec(edges, |edges|, edgeFeatures, EdgeContextOf(page, opts), kept, before)
    ensures SeparatorsClosedOrSame(page.separators, before)
  {
    var features := EdgeFeatureMatrix(EdgeContextOf(page, opts), kept, edges, page.separators, before);
    edgeFeatures := if features == [] then None else Some(features);
  }

  /** Every separator list is as it was in `before` or is its closed form. */
  ghost predicate SeparatorsClosedOrSame(seps: seq<SeparatorRegion>, before: seq<Separator>)
    reads PointLists(seps)
  {
    |seps| == |before| && forall k :: 0 <= k < |seps| ==> ClosedOrSame(seps[k].points.points, before[k].polygon)
  }

  /** The graph is assembled from parts that each meet their part of the
      specification. */
  lemma GraphSpecIntro(page: PageInput, opts: Options, o: Oracles, c: NodeContext, kept: seq<TextRegion>,
                       seps: seq<Separator>, nodeFeatures: seq<seq<real>>, edges: seq<Edge>,
                       edgeFeatures: Option<seq<seq<real>>>, visual: Option<VisualRegions>,
                       relations: seq<Relation>, count: nat)
    requires SolverContract(o.roundBase, o.triangulate)
    requires ValidContext(c) && forall i :: 0 <= i < |kept| ==> ValidNode(c, kept[i])
    requires NodesSpec(|kept|, nodeFeatures, c, kept)
    requires Success(edges) == InteractionEdges(opts.interaction, BoxCentres(kept), o.roundBase, o.triangulate)
    requires EdgesSpec(edges, |edges|, edgeFeatures, EdgeContextOf(page, opts), kept, seps)
    requires VisualSpec(visual, edges, opts.visualRegions, o, kept)
    requires forall k :: 0 <= k < |kept| ==> kept[k].id in page.articles
    requires RelationsSpec(relations, count, kept, page.articles)
    ensures GraphSpec(Graph(|kept|, edges, |edges|, nodeFeatures, edgeFeatures, visual, relations, count),
                      page, opts, o, c, kept, seps)
  {
  }

  /** The visual regions and the ground truth of a graph. */
  datatype Annotations = Annotations(visual: Option<VisualRegions>, relations: seq<Relation>, numRelations: nat)

  /** The stages after the edge features: visual regions, then ground truth.
      The ground truth is computed first (it reads no state); the errors
      come in the source's order. */
  method AnnotationsOf(visualRegions: bool, o: Oracles, kept: seq<TextRegion>, edges: seq<Edge>,
                       articles: map<string, ArticleRef>)
      returns (r: Result<Annotations, GraphError>)
    requires EdgesInRange(edges, |kept|)
    ensures r.Success? ==>
      && VisualSpec(r.value.visual, edges, visualRegions, o, kept)
      && (forall k :: 0 <= k < |kept| ==> kept[k].id in articles)
      && RelationsSpec(r.value.relations, r.value.numRelations, kept, articles)
    ensures r == Failure(NoEdgesToPad) <==> visualRegions && edges == []
    ensures r == Failure(MissingArticle) <==>
      !(visualRegions && edges == []) && exists k :: 0 <= k < |kept| && kept[k].id !in articles
    ensures r.Failure? ==> r.error in {NoEdgesToPad, MissingArticle}
  {
    var articlesKnown := forall k :: 0 <= k < |kept| ==> kept[k].id in articles;
    var relations, count := [], 0;
    if articlesKnown {
      relations, count := GroundTruthRelations(kept, articles);
    }
    var visual := VisualStage(visualRegions, o, kept, edges);
    if visual.Failure? {
      return Failure(visual.error);
    }
    if !articlesKnown {
      return Failure(MissingArticle);
    }
    r := Success(Annotations(visual.value, relations, count));
  }

  /** The stages after the edge set: edge features, visual regions and
      ground truth. */
  method GraphFromEdges(page: PageInput, opts: Options, o: Oracles, c: NodeContext, kept: seq<TextRegion>,
                        ghost before: seq<Separator>, nodeFeatures: seq<seq<real>>, edges: seq<Edge>)
      returns (r: Result<Graph, GraphError>)
    requires SolverContract(o.roundBase, o.triangulate)
    requires ValidContext(c) && forall i :: 0 <= i < |kept| ==> ValidNode(c, kept[i])
    requires before == Views(page.separators)
    requires NodesSpec(|kept|, nodeFeatures, c, kept)
    requires Success(edges) == InteractionEdges(opts.interaction, BoxCentres(kept), o.roundBase, o.triangulate)
    requires EdgesInRange(edges, |kept|)
    modifies PointLists(page.separators)
    ensures r.Success? ==> GraphSpec(r.value, page, opts, o, c, kept, before)
    ensures r.Success? <==> AnnotationError(opts.visualRegions, edges, kept, page.articles) == None
    ensures r.Failure? ==> AnnotationError(opts.visualRegions, edges, kept, page.articles) == Some(r.error)
    ensures SeparatorsClosedOrSame(page.separators, before)
  {
    var edgeFeatures := EdgeFeaturesOf(page, opts, kept, edges, before);
    r := AssembleGraph(page, opts, o, c, kept, before, nodeFeatures, edges, edgeFeatures);
  }

  /** The visual regions and the ground truth added to the node and edge
      features: the graph, or the error these stages raise. */
  method AssembleGraph(page: PageInput, opts: Options, o: Oracles, c: NodeContext, kept: seq<TextRegion>,
                       ghost seps: seq<Separator>, nodeFeatures: seq<seq<real>>, edges: seq<Edge>,
                       edgeFeatures: Option<seq<seq<real>>>)
      returns (r: Result<Graph, GraphError>)
    requires SolverContract(o.roundBase, o.triangulate)
    requires ValidContext(c) && forall i :: 0 <= i < |kept| ==> ValidNode(c, kept[i])
    requires NodesSpec(|kept|, nodeFeatures, c, kept)
    requires Success(edges) == InteractionEdges(opts.interaction, BoxCentres(kept), o.roundBase, o.triangulate)
    requires EdgesSpec(edges, |edges|, edgeFeatures, EdgeContextOf(page, opts), kept, seps)
    ensures r.Success? ==> GraphSpec(r.value, page, opts, o, c, kept, seps)
    ensures r.Success? <==> AnnotationError(opts.visualRegions, edges, kept, page.articles) == None
    ensures r.Failure? ==> AnnotationError(opts.visualRegions, edges, kept, page.articles) == Some(r.error)
  {
    var annotations := AnnotationsOf(opts.visualRegions, o, kept, edges, page.articles);
    if annotations.Failure? {
      return Failure(annotations.error);
    }
    var a := annotations.value;
    GraphSpecIntro(page, opts, o, c, kept, seps, nodeFeatures, edges, edgeFeatures, a.visual, a.relations, a.numRelations);
    r := Success(Graph(|kept|, edges, |edges|, nodeFeatures, edgeFeatures, a.visual, a.relations, a.numRelations));
  }

  /** The graph of the surviving regions: from the node features to the
      ground truth.  `before` is the separators' value on entry. */
  method GraphOf(page: PageInput, opts: Options, o: Oracles, c: NodeContext, kept: seq<TextRegion>,
                 ghost before: seq<Separator>)
      returns (r: Result<Graph, GraphError>)
    requires SolverContract(o.roundBase, o.triangulate)
    requires ValidContext(c) && forall i :: 0 <= i < |kept| ==> ValidNode(c, kept[i])
    requires c.normX == page.normX && c.normY == page.normY
    requires before == Views(page.separators)
    modifies PointLists(page.separators)
    ensures r.Success? ==> GraphSpec(r.value, page, opts, o, c, kept, before)
    ensures r.Success? <==> EdgesError(page, opts, o, kept) == None
    ensures r.Failure? ==> EdgesError(page, opts, o, kept) == Some(r.error)
    ensures SeparatorsClosedOrSame(page.separators, before)
  {
    var nodeFeatures, interacting := NodesAndEdges(page, opts, o, c, kept);
    if interacting.Failure? {
      ClosedOrSameAll(page.separators, before);
      return Failure(NoTriangulation);
    }
    r := GraphFromEdges(page, opts, o, c, kept, before, nodeFeatures, interacting.value);
  }

  /** Unchanged separators are closed-or-same. */
  lemma ClosedOrSameAll(seps: seq<SeparatorRegion>, before: seq<Separator>)
    requires before == Views(seps)
    ensures SeparatorsClosedOrSame(seps, before)
  {
  }

  /** The stages after discarding: line statistics, then the graph of the
      surviving regions. */
  method SurvivorsGraph(page: PageInput, opts: Options, o: Oracles, kept: seq<TextRegion>,
                        lines: seq<TextLine>, ghost before: seq<Separator>)
      returns (r: Result<Graph, GraphError>)
    requires SolverContract(o.roundBase, o.triangulate)
    requires forall i :: 0 <= i < |kept| ==> !NoText(kept[i].lines)
    requires before == Views(page.separators)
    modifies PointLists(page.separators)
    ensures r.Success? ==>
      var stats := o.lineStats(lines);
      && stats.strokeWidths != map[] && stats.heights != map[]
      && ValidContext(NodeContextOf(page, opts, stats))
      && (forall i :: 0 <= i < |kept| ==> ValidNode(NodeContextOf(page, opts, stats), kept[i]))
      && GraphSpec(r.value, page, opts, o, NodeContextOf(page, opts, stats), kept, before)
    ensures r.Success? <==> SurvivorsError(page, opts, o, kept, lines) == None
    ensures r.Failure? ==> SurvivorsError(page, opts, o, kept, lines) == Some(r.error)
    ensures SeparatorsClosedOrSame(page.separators, before)
  {
    var stats := o.lineStats(lines);
    var context := NodeContextFor(page, opts, stats, kept);
    if context.Failure? {
      ClosedOrSameAll(page.separators, before);
      return Failure(context.error);
    }
    r := GraphOf(page, opts, o, context.value, kept, before);
  }

  /** `build_input_and_target`: `None` for a page without text regions or
      with fewer than two surviving regions; otherwise the graph of the
      surviving regions, or the error the source raises. */
  method BuildInputAndTarget(page: PageInput, opts: Options, o: Oracles)
      returns (r: Result<Option<Graph>, GraphError>)
    requires SolverContract(o.roundBase, o.triangulate)
    modifies RegionLists(page), PointLists(page.separators)
    ensures page.textRegions.None? ==> r == Success(None)
    ensures page.textRegions.Some? ==>
      page.textRegions.value.items == Survivors(old(page.textRegions.value.items), o.size)
    ensures page.textRegions.Some? && |Survivors(old(page.textRegions.value.items), o.size)| <= 1 ==>
      r == Success(None)
    ensures r.Success? && r.value.Some? ==>
      var kept := Survivors(old(page.textRegions.value.items), o.size);
      var stats := o.lineStats(RemainingLines(old(page.textRegions.value.items), page.textLines, o.size));
      && page.textRegions.Some?
      && |kept| >= 2
      && stats.strokeWidths != map[] && stats.heights != map[]
      && ValidContext(NodeContextOf(page, opts, stats))
      && (forall i :: 0 <= i < |kept| ==> ValidNode(NodeContextOf(page, opts, stats), kept[i]))
      && GraphSpec(r.value.value, page, opts, o, NodeContextOf(page, opts, stats), kept, old(Views(page.separators)))
    ensures r.Success? && r.value.Some? <==>
      && page.textRegions.Some?
      && |Survivors(old(page.textRegions.value.items), o.size)| >= 2
      && SurvivorsError(page, opts, o, Survivors(old(page.textRegions.value.items), o.size),
                        RemainingLines(old(page.textRegions.value.items), page.textLines, o.size)) == None
    ensures r.Failure? ==>
      && page.textRegions.Some?
      && |Survivors(old(page.textRegions.value.items), o.size)| >= 2
      && SurvivorsError(page, opts, o, Survivors(old(page.textRegions.value.items), o.size),
                        RemainingLines(old(page.textRegions.value.items), page.textLines, o.size)) == Some(r.error)
    ensures page.textRegions.Some? && |Survivors(old(page.textRegions.value.items), o.size)| >= 2 ==>
      var e := SurvivorsError(page, opts, o, Survivors(old(page.textRegions.value.items), o.size),
                              RemainingLines(old(page.textRegions.value.items), page.textLines, o.size));
      e.Some? ==> r == Failure(e.value)
    ensures SeparatorsClosedOrSame(page.separators, old(Views(page.separators)))
  {
    if page.textRegions.None? {
      return Success(None);
    }
    ghost var before := Views(page.separators);
    var list := page.textRegions.value;
    var lines := DiscardTextRegionsAndLines(list, page.textLines, o.size);
    var kept := list.items;
    if |kept| <= 1 {
      return Success(None);
    }
    SurvivorsValid(old(list.items), o.size);
    var g := SurvivorsGraph(page, opts, o, kept, lines, before);
    if g.Failure? {
      return Failure(g.error);
    }
    r := Success(Some(g.value));
  }
}
