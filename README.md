# Article separation: the page graph and the blank-rectangle conversion

This project models two parts of the CITlab article separation tool.

**The page graph** (`build_input_and_target`). The tool turns each page of a newspaper into a graph that a graph neural network classifies. The nodes are the text regions and the edges are pairs of regions that "interact". The ground truth says which regions belong to the same article. Building a page's graph has these steps:

1. Discard the text regions without text and those whose bounding box is smaller than 10 pixels in either direction. Drop the text lines of the regions removed for their size.
2. Give every surviving region a node feature vector:
   - 4 geometric values (box size and box centre, scaled by the image size);
   - 8 baseline values (top and bottom line);
   - the largest stroke width and text height of its lines, scaled by the page maxima;
   - a heading flag;
   - the blocks of the external feature sources.
3. Choose the edges:
   - all ordered pairs without self-loops, if that is the requested interaction or there are fewer than 4 nodes;
   - otherwise the neighbour pairs of a Delaunay triangulation of the node centres, built from positions rounded to 50 pixels and retried with the unrounded positions if that fails.
4. Give every edge a feature vector:
   - a 2-flag separator block (horizontal, vertical). The `bb` strategy uses bounding-box rules; the `line` strategy intersects the line between the two region centres with the separators' polygons, and closes those polygons in place as it goes;
   - the text block similarity block;
   - the blocks of the external feature sources.
5. Optionally compute visual regions: the library bounding box of each node, and the convex hull of both regions of each edge, zero-padded into one array.
6. Compute the ground truth: `[1, i, j]` for every ordered pair of regions with the same effective article id. A region with several ids takes the first one.

**The blank-rectangle conversion** (`convert_blank_article_rects_by_rects` and `convert_blank_article_rects_by_polys` in `util.py`):
- The article rectangles labelled "blank" are compared with the bounding box or convex hull of each real article. The first function uses one hull over the article's rectangles; the second uses one hull per article polygon.
- A blank rectangle that clips exactly one article is appended to that article's list.
- The blank list is then rebuilt from the rectangles that were not moved.

## How the model is built

- **Coordinates and polygons.** Coordinates are integers and polygons are non-empty point sequences (`Geometry.Polygon`).
- **Segment intersection.** shapely's `intersects` on two two-point segments is written out as the orientation test. The line strategy works in doubled coordinates, so the half-integer region centres stay integral.
- **Closing polygons in place.** `line_poly_intersection` appends the first point to an open polygon of its caller. It is therefore a method on the class `Geometry.PointList`. A separator region holds such a list, so the closing is visible across edges: the specification is stated for the separators as they came in, and each feature is proved not to depend on the closing (`EdgeFeatures.EdgeFeatureAfterClosing`).
- **Region list.** `discard_text_regions_and_lines` removes regions from the caller's list, which is the class `Discard.RegionList`.
- **Rectangle lists.** The rectangle lists of the conversion are the class `BlankRects.RectList`, and the conversion appends to them in place.
- **Computations outside the core are function parameters.** These are:
  - the library bounding box, its width and height, and the convex hull;
  - `polygon_clip` and the rectangle vertices;
  - the per-line stroke widths and heights;
  - `round_base`;
  - the Delaunay triangulation (`Topology.SolverContract` states what is assumed of its neighbour lists).
- **Arithmetic.** Feature values are reals; the source's 32-bit floating point is not modelled.
- **Errors.** The exceptions the source raises on a page become error values, with three exceptions listed under "## Left out" (feature rows of unequal width, empty coordinate lists, and a region whose id is "default"):
  - `np.max` of an empty statistics table or of no edge regions;
  - a triangulation that fails twice;
  - a zero image size (a ZeroDivisionError in the source), and a zero statistics maximum, which the source turns into `inf` or `nan` instead (see "## Left out");
  - a missing line statistic;
  - a region missing from the article map;
  - in the conversions: an unsupported method, no "blank" list, or an article key without a rectangle list.

  Which error a page raises is given by `PageGraph.SurvivorsError`, the first raise point that fires in the source's order. Each stage method is proved to fail exactly with that error and to succeed exactly when there is none.
- **Orientation rule.** `float(h) / float(w) < 5`, with `w, h >= 1`, is stated as `h < 5 * w` and proved equal to the real quotient (`SeparatorFeatures.RatioHorizontalQuotient`).

## Model

| member | source | states |
|---|---|---|
| Geometry.BoundingBoxSpec | citlab_article_separation/gnn/input/feature_generation.py:313-317 | the min/max box encloses every point, and each of its four sides is attained by some point |
| Geometry.BoundingBoxUnique | citlab_article_separation/gnn/input/feature_generation.py:313-317 | any box that encloses all points and whose sides are all attained is the bounding box, so the bounding box is characterised by those two properties |
| Geometry.BoundingBoxTranslate | citlab_article_separation/gnn/input/feature_generation.py:313-317 | translating every point translates the bounding box by the same offset |
| Geometry.Closed | citlab_article_separation/gnn/input/feature_generation.py:322-324 | the closed polygon ends where it starts; it is one point longer exactly when the input was open; its prefix is the input |
| Geometry.ClosedIdempotent | citlab_article_separation/gnn/input/feature_generation.py:322-324 | closing a closed polygon changes nothing |
| Geometry.BoundingBoxClosed | citlab_article_separation/gnn/input/feature_generation.py:322-324 | closing a polygon does not change its bounding box |
| Geometry.LinePolyIntersection | citlab_article_separation/gnn/input/feature_generation.py:320-332 | the caller's point list becomes its closed form (and is left as it was if already closed); the result says whether the line meets a segment of the closed polygon |
| Geometry.SecondCallUnchanged | citlab_article_separation/gnn/input/feature_generation.py:320-332 | a second test on the same list neither changes it nor changes the answer |
| Geometry.PolyHitReverse | citlab_article_separation/gnn/input/feature_generation.py:320-332 | the polygon test does not depend on the direction of the line |
| Geometry.SegmentsIntersectSymmetric | citlab_article_separation/gnn/input/feature_generation.py:330 | segment intersection is symmetric in its two segments |
| Geometry.SegmentsIntersectReverse | citlab_article_separation/gnn/input/feature_generation.py:330 | reversing either segment does not change whether they intersect |
| Geometry.ScaleInvariant | citlab_article_separation/gnn/input/feature_generation.py:330 | doubling all coordinates does not change whether two segments intersect, so the doubled-coordinate line test agrees with the original one |
| Geometry.SharedEndpointIntersects | citlab_article_separation/gnn/input/feature_generation.py:330 | segments that share an endpoint intersect |
| Geometry.LineInBoundingBox | citlab_article_separation/gnn/input/feature_generation.py:335-340 | the containment test holds exactly when both ends of the line lie strictly inside the box |
| Geometry.CornerPrefilterEdges | citlab_article_separation/gnn/input/feature_generation.py:285-290 | the corner list of the prefilter, in its order s1, s2, s3, s4, closed, meets the line exactly when one of its segments does: the top side, one diagonal, the bottom side or the other diagonal, not the box outline |
| Regions.IsHeadingCaseInsensitive | citlab_article_separation/gnn/input/feature_generation.py:242 | the heading test depends only on the lower-cased region type |
| Regions.HeadingExamples | citlab_article_separation/gnn/input/feature_generation.py:242 | "heading", "Heading" and "HEADING" are headings and "header" is not |
| NodeFeatures.BoxFeaturesRecover | citlab_article_separation/gnn/input/feature_generation.py:20-46 | the box can be recovered from the four geometric values and the norms: centre minus half size and centre plus half size give the box sides |
| NodeFeatures.BoxFeaturesCentre | citlab_article_separation/gnn/input/feature_generation.py:43-44 | the centre values times the norms are the centre of the box |
| NodeFeatures.BoxFeaturesInBox | citlab_article_separation/gnn/input/feature_generation.py:37-44 | for positive norms the size values are non-negative and the scaled centre lies within the box |
| NodeFeatures.GeometricFeaturesTranslate | citlab_article_separation/gnn/input/feature_generation.py:37-46 | moving a region by (dx, dy) keeps its two size values and adds dx / norm_x and dy / norm_y to its two centre values |
| NodeFeatures.BoxFeaturesTranslate | citlab_article_separation/gnn/input/feature_generation.py:37-46 | the same for the four values of any box |
| NodeFeatures.BaselineFeaturesTranslate | citlab_article_separation/gnn/input/feature_generation.py:49-83 | moving every baseline keeps the size values of both baseline blocks and shifts both blocks' centre values by the normed offset |
| NodeFeatures.BaselineFeaturesRecover | citlab_article_separation/gnn/input/feature_generation.py:49-83 | the first four values give back the box of the first line's baseline and the last four the box of the last line's; a region with one line repeats its block |
| NodeFeatures.MaxOverText | citlab_article_separation/gnn/input/feature_generation.py:205-206 | the value is the statistic of some line with text and no line with text has a larger one |
| NodeFeatures.MaxLineFeature | citlab_article_separation/gnn/input/feature_generation.py:187-230 | one value: 0 when no line has text, otherwise the largest statistic over the lines with text, divided by the norm |
| NodeFeatures.HeadingFeature | citlab_article_separation/gnn/input/feature_generation.py:233-243 | the flag is 1.0 exactly for a heading and 0.0 otherwise |
| NodeFeatures.NodeFeatureWidth | citlab_article_separation/gnn/input/feature_generation.py:692-726 | when every node table's entries are one number wide, like its fallback, every node vector of the page has width 15 plus the sources' node width |
| NodeFeatures.NodeFeatureLayout | citlab_article_separation/gnn/input/feature_generation.py:692-726 | the node vector is the geometric block at 0-3, the baseline block at 4-11, stroke width at 12, text height at 13, the heading flag at 14 (1.0 exactly for a heading), and the external blocks after that |
| NodeFeatures.NodeFeatureOf | citlab_article_separation/gnn/input/feature_generation.py:693-726 | the loop body builds exactly the node vector of the region |
| NodeFeatures.NodeFeatureMatrix | citlab_article_separation/gnn/input/feature_generation.py:690-726 | one vector per region, in region order, each the region's node vector |
| ExternalData.NodeLookupChain | citlab_article_separation/gnn/input/feature_generation.py:714-724 | the region's entry if present; otherwise the default as a one-element vector; otherwise [0.0] |
| ExternalData.LookupNode | citlab_article_separation/gnn/input/feature_generation.py:714-724 | the nested lookups with their fallbacks yield exactly that chain |
| ExternalData.EdgeLookupChain | citlab_article_separation/gnn/input/feature_generation.py:779-789 | the pair's entry if present; otherwise all elements of the default vector; otherwise [0.5] |
| ExternalData.LookupEdge | citlab_article_separation/gnn/input/feature_generation.py:779-789 | the nested lookups with their fallbacks yield exactly that chain |
| ExternalData.DefaultWrapping | citlab_article_separation/gnn/input/feature_generation.py:720-789 | the node default contributes one element and the edge default its whole vector |
| ExternalData.ExternalNodeBlockConcat | citlab_article_separation/gnn/input/feature_generation.py:707-724 | the external node block of two lists of sources is the first list's block followed by the second's |
| ExternalData.ExternalEdgeBlockConcat | citlab_article_separation/gnn/input/feature_generation.py:772-789 | the same for the external edge block |
| ExternalData.ExternalNodeBlockWidth | citlab_article_separation/gnn/input/feature_generation.py:707-724 | under uniform tables the external node block is equally wide for every region: one value per source that has the page and a node table |
| ExternalData.ExternalEdgeBlockWidth | citlab_article_separation/gnn/input/feature_generation.py:772-789 | under uniform tables the external edge block is equally wide for every pair: the fallback width of each source that has the page and an edge table |
| ExternalData.MissingPageNoNodeBlock | citlab_article_separation/gnn/input/feature_generation.py:709-713 | a source without an entry for the page contributes nothing: removing it leaves the node block unchanged |
| ExternalData.MissingPageNoEdgeBlock | citlab_article_separation/gnn/input/feature_generation.py:774-778 | the same for edges |
| ExternalData.ExtendExternalNode | citlab_article_separation/gnn/input/feature_generation.py:707-724 | the loop over the sources appends exactly the external node block |
| ExternalData.ExtendExternalEdge | citlab_article_separation/gnn/input/feature_generation.py:772-789 | the loop over the sources appends exactly the external edge block |
| SeparatorFeatures.Feature | citlab_article_separation/gnn/input/feature_generation.py:387 | two values, each 1.0 exactly when its flag is set |
| SeparatorFeatures.RatioHorizontalQuotient | citlab_article_separation/gnn/input/feature_generation.py:374-377 | the integer ratio rule agrees with the real quotient test height/width < 5 |
| SeparatorFeatures.BBOrientation | citlab_article_separation/gnn/input/feature_generation.py:371-377 | a tagged separator keeps its tag; an untagged one is "horizontal" exactly when the ratio rule holds and "vertical" otherwise |
| SeparatorFeatures.TestSeparatorBB | citlab_article_separation/gnn/input/feature_generation.py:367-384 | one separator sets the horizontal or the vertical flag exactly when the rule of its orientation holds |
| SeparatorFeatures.SeparatorFeatureBB | citlab_article_separation/gnn/input/feature_generation.py:343-389 | the loop, with its early exit, yields the bounding-box feature of the whole separator list |
| SeparatorFeatures.BBFeatureMeaning | citlab_article_separation/gnn/input/feature_generation.py:365-389 | a flag of the bounding-box feature is set exactly when some separator satisfies the rule for its direction |
| SeparatorFeatures.BBFeatureSymmetric | citlab_article_separation/gnn/input/feature_generation.py:392-421 | the bounding-box feature of (a, b) equals that of (b, a) |
| SeparatorFeatures.VerticalSeparationSides | citlab_article_separation/gnn/input/feature_generation.py:392-405 | a vertical separation puts the separator's centre between the two regions, which do not overlap horizontally |
| SeparatorFeatures.CentreLine | citlab_article_separation/gnn/input/feature_generation.py:263-271 | the line runs from centre to centre, in doubled coordinates |
| SeparatorFeatures.TestSeparatorLine | citlab_article_separation/gnn/input/feature_generation.py:277-305 | one separator: whether the prefilter and the polygon test pass, and the direction it counts for, both for its value on entry; its list is closed or left as it was |
| SeparatorFeatures.SeparatorFeatureLine | citlab_article_separation/gnn/input/feature_generation.py:246-310 | the loop, with its early exit, yields the line feature of the separators as they came in, and every separator polygon is either unchanged or closed |
| SeparatorFeatures.LineFeatureMeaning | citlab_article_separation/gnn/input/feature_generation.py:275-308 | a flag of the line feature is set exactly when some separator passes both tests and counts for that direction |
| SeparatorFeatures.LineFeatureSymmetric | citlab_article_separation/gnn/input/feature_generation.py:266-271 | the line feature of (a, b) equals that of (b, a) |
| SeparatorFeatures.LineFeatureAfterClosing | citlab_article_separation/gnn/input/feature_generation.py:320-324 | closing separator polygons does not change any later line feature |
| SeparatorFeatures.BBFeatureAfterClosing | citlab_article_separation/gnn/input/feature_generation.py:367-369 | closing separator polygons does not change any later bounding-box feature |
| SeparatorFeatures.VerticalTagOnlyInBB | citlab_article_separation/gnn/input/feature_generation.py:294-305 | in the line strategy a "vertical" tag is treated as no tag (ratio rule); in the bounding-box strategy it means vertical |
| SeparatorFeatures.VerticalTagFlatSeparator | citlab_article_separation/gnn/input/feature_generation.py:297 | a flat separator tagged "vertical" counts as horizontal in the line strategy but as vertical in the bounding-box strategy |
| SeparatorFeatures.AlignedCandidateOrientation | citlab_article_separation/gnn/input/feature_generation.py:428-442 | a separator is given an entry exactly when its orientation, by tag or ratio rule, is not vertical |
| SeparatorFeatures.AlignedWithMembers | citlab_article_separation/gnn/input/feature_generation.py:446-453 | an id is listed exactly when some region with that id overlaps the separator horizontally |
| SeparatorFeatures.AlignedIds | citlab_article_separation/gnn/input/feature_generation.py:446-453 | the loop over the regions lists exactly the aligned ids, in region order |
| SeparatorFeatures.AlignedMapKeys | citlab_article_separation/gnn/input/feature_generation.py:424-454 | the map's keys are exactly the ids of the non-vertical separators |
| SeparatorFeatures.AlignedMapValue | citlab_article_separation/gnn/input/feature_generation.py:444-453 | the entry of the last separator with an id is the list of regions aligned with it |
| SeparatorFeatures.SeparatorAlignedRegions | citlab_article_separation/gnn/input/feature_generation.py:424-454 | the loop builds exactly the aligned map |
| SeparatorFeatures.IsAlignedHorizontallySeparated | citlab_article_separation/gnn/input/feature_generation.py:457-493 | it never answers false (it falls off the end, `None`); it answers true exactly when some non-vertical separator lies between the two regions vertically and overlaps both horizontally |
| SeparatorFeatures.AlignedRuleListsBoth | citlab_article_separation/gnn/input/feature_generation.py:446-453 | a separator satisfying that rule lists both regions in its aligned entry |
| SeparatorFeatures.AlignedHeadingSeparatedExactly | citlab_article_separation/gnn/input/feature_generation.py:496-526 | true exactly when one region is a heading, the two overlap horizontally, and the heading lies below the other; symmetric in the two regions |
| EdgeFeatures.SeparatorBlock | citlab_article_separation/gnn/input/feature_generation.py:751-757 | two values; [0.0, 0.0] when the page has no separators |
| EdgeFeatures.SeparatorBlockMeaning | citlab_article_separation/gnn/input/feature_generation.py:751-757 | for each strategy, a flag is set exactly when some separator separates the pair in that direction |
| EdgeFeatures.SeparatorBlockSymmetric | citlab_article_separation/gnn/input/feature_generation.py:751-757 | the separator block of an edge equals that of the reversed edge |
| EdgeFeatures.EdgeFeatureWidth | citlab_article_separation/gnn/input/feature_generation.py:747-791 | when the similarity and edge tables' entries are as wide as their fallbacks, every edge vector of the page has the same width |
| EdgeFeatures.EdgeFeatureLayout | citlab_article_separation/gnn/input/feature_generation.py:747-791 | the edge vector is the separator block, then the similarity block, then the external blocks |
| EdgeFeatures.EdgeFeatureAfterClosing | citlab_article_separation/gnn/input/feature_generation.py:746-791 | an edge vector is the same for the separators as they came in and after any of their polygons were closed |
| EdgeFeatures.ExtendSimilarity | citlab_article_separation/gnn/input/feature_generation.py:759-770 | nothing without a dictionary; otherwise the pair's entry, else the default vector, else [0.5] |
| EdgeFeatures.EdgeFeatureOf | citlab_article_separation/gnn/input/feature_generation.py:747-791 | the loop body yields the edge vector of the separators as they were on entry; their lists are closed or left as they were |
| EdgeFeatures.EdgeFeatureMatrix | citlab_article_separation/gnn/input/feature_generation.py:745-791 | one vector per edge, in edge order, each the edge vector of its two regions for the separators as they came in, although lists are closed along the way |
| Topology.FullyConnectedIsRowsWithoutSelf | citlab_article_separation/gnn/input/feature_generation.py:548-563 | the grid-and-delete pipeline equals the rows 0..n-1, each row i listing (i, j) for all j != i in order |
| Topology.FullyConnectedCount | citlab_article_separation/gnn/input/feature_generation.py:548-563 | there are n(n-1) edges |
| Topology.FullyConnectedAt | citlab_article_separation/gnn/input/feature_generation.py:548-563 | edge k is (k div (n-1), the k mod (n-1)-th other node) |
| Topology.FullyConnectedPairs | citlab_article_separation/gnn/input/feature_generation.py:548-563 | no edge is a self-loop, every edge is in range, and every ordered pair of distinct nodes is an edge |
| Topology.ExpandNeighbours | citlab_article_separation/gnn/input/feature_generation.py:582-588 | the loop over the vertices yields exactly the neighbour pairs of the CSR lists, as many as the lists hold |
| Topology.CsrEdgesLayout | citlab_article_separation/gnn/input/feature_generation.py:584-588 | each neighbour entry k of vertex u appears as (u, indices[k]) at position k |
| Topology.CsrEdgesSourcesSorted | citlab_article_separation/gnn/input/feature_generation.py:584-588 | the sources are in range and non-decreasing |
| Topology.TriangulateWithRetry | citlab_article_separation/gnn/input/feature_generation.py:574-581 | the rounded positions are used when they triangulate, otherwise the raw positions, otherwise the triangulation fails |
| Topology.DelaunayEdges | citlab_article_separation/gnn/input/feature_generation.py:566-589 | a failure exactly when both attempts fail, otherwise the neighbour pairs of the triangulation used |
| Topology.InteractingNodes | citlab_article_separation/gnn/input/feature_generation.py:729-733 | fully connected when requested or when there are fewer than 4 nodes, otherwise the Delaunay edges |
| Topology.InteractionEdgesInRange | citlab_article_separation/gnn/input/feature_generation.py:729-733 | every edge of either edge set joins two existing nodes |
| Discard.SurvivorsMembers | citlab_article_separation/gnn/input/feature_generation.py:598-614 | a region survives exactly when it has a line with text and its box is at least 10 in both directions |
| Discard.SurvivorsValid | citlab_article_separation/gnn/input/feature_generation.py:600-608 | every survivor has text and a box of width and height at least 10 |
| Discard.SurvivorsConcat | citlab_article_separation/gnn/input/feature_generation.py:598-614 | the filter works region by region: survivors of a concatenation are the concatenated survivors |
| Discard.SurvivorsIdempotent | citlab_article_separation/gnn/input/feature_generation.py:598-614 | discarding twice discards nothing more |
| Discard.DroppedLineIdsMembers | citlab_article_separation/gnn/input/feature_generation.py:607-613 | an id is collected exactly when it is the id of a line of a region with text that was dropped for its size |
| Discard.RemainingLinesMembers | citlab_article_separation/gnn/input/feature_generation.py:611-617 | a line is kept exactly when no region dropped for its size has a line with its id |
| Discard.WithoutIdsMembers | citlab_article_separation/gnn/input/feature_generation.py:617 | a line is kept by the filter exactly when it was in the list and its id is not to be removed |
| Discard.FilterLines | citlab_article_separation/gnn/input/feature_generation.py:616-617 | the list comprehension keeps exactly the lines whose id is not to be removed, in order |
| Discard.NoTextRegionsKeepLines | citlab_article_separation/gnn/input/feature_generation.py:600-617 | regions dropped only for lacking text leave the text lines as they were |
| Discard.DiscardTextRegionsAndLines | citlab_article_separation/gnn/input/feature_generation.py:592-620 | the caller's list becomes exactly the survivors, in order, and the returned lines are the remaining lines |
| GroundTruth.Effective | citlab_article_separation/gnn/input/feature_generation.py:828-836 | a list of more than one id becomes its first id; anything else is kept as it is |
| GroundTruth.EffectiveExamples | citlab_article_separation/gnn/input/feature_generation.py:829-836 | a two-id list compares like its first id, but a one-element list does not compare like the id it holds |
| GroundTruth.RelationsExactly | citlab_article_separation/gnn/input/feature_generation.py:839-842 | (1, i, j) is a relation exactly when i and j have the same effective id; every region relates to itself; the relation is symmetric |
| GroundTruth.RelationsShape | citlab_article_separation/gnn/input/feature_generation.py:839-842 | every relation is of kind 1, in range, and between regions with the same id |
| GroundTruth.RelationsRowMajor | citlab_article_separation/gnn/input/feature_generation.py:839-842 | the relations come in row-major order of (i, j) |
| GroundTruth.CollectArticleIds | citlab_article_separation/gnn/input/feature_generation.py:826-836 | one effective id per region, in region order |
| GroundTruth.RelationsOf | citlab_article_separation/gnn/input/feature_generation.py:839-842 | the double loop produces exactly the relations of the ids |
| GroundTruth.GroundTruthRelations | citlab_article_separation/gnn/input/feature_generation.py:823-845 | the loops produce exactly the relations of the effective ids, and the count is their number |
| Visual.NodeVisualRegions | citlab_article_separation/gnn/input/feature_generation.py:794-800 | one library bounding box per region, with its point count |
| Visual.EdgeVisualRegions | citlab_article_separation/gnn/input/feature_generation.py:803-811 | one convex hull of the points of both regions per edge, with its point count |
| Visual.PadVisualRegions | citlab_article_separation/gnn/input/feature_generation.py:817-820 | an array as wide as the longest polygon; row i holds polygon i followed by zeros |
| PageGraph.SetMax | citlab_article_separation/gnn/input/feature_generation.py:686-687 | the result is a value of the table and no value is larger |
| PageGraph.FeatureCentresAreBoxCentres | citlab_article_separation/gnn/input/feature_generation.py:732 | columns 2 and 3 of the node features times the image size are exactly the regions' box centres |
| PageGraph.NodeContextFor | citlab_article_separation/gnn/input/feature_generation.py:685-687 | an empty statistics table fails; a zero norm fails; a line with text and no statistic fails; otherwise the node context with the table maxima |
| PageGraph.VisualStage | citlab_article_separation/gnn/input/feature_generation.py:793-820 | nothing when not requested; a failure exactly when requested with no edges; otherwise the node boxes with their counts; each edge's hull count; an array with one row per edge, as wide as the longest hull, holding each hull followed by zeros |
| PageGraph.NodesAndEdges | citlab_article_separation/gnn/input/feature_generation.py:689-733 | the node vectors of all regions; the edges fail exactly when the interaction edges of the box centres fail, and are otherwise those edges, all in range |
| PageGraph.EdgeFeaturesOf | citlab_article_separation/gnn/input/feature_generation.py:745-791 | one edge vector per edge for the separators as they came in, or `None` when there are no edges (as returned at line 851); separator lists are only closed |
| PageGraph.AnnotationsOf | citlab_article_separation/gnn/input/feature_generation.py:793-845 | fails for padding exactly when visual regions are requested and there is no edge, otherwise for a missing article exactly when a region is missing from the article map; otherwise the visual regions (the node boxes with their counts; each edge's hull count; an array with one row per edge, as wide as the longest hull, holding each hull followed by zeros) and the ground truth |
| PageGraph.GraphFromEdges | citlab_article_separation/gnn/input/feature_generation.py:744-857 | from an edge set on: succeeds exactly when neither padding nor the article map fails, fails with the first of the two that does, and a success meets the page specification; separator lists are only ever closed |
| PageGraph.AssembleGraph | citlab_article_separation/gnn/input/feature_generation.py:793-857 | with the edge features in hand: the same success and error conditions, and a success meets the page specification |
| PageGraph.GraphOf | citlab_article_separation/gnn/input/feature_generation.py:689-857 | fails with a triangulation error exactly when the interaction edges fail, otherwise exactly as the later stages do; a success meets the page specification (node vectors, edges, edge vectors for the separators as they came in, visual regions, relations) |
| PageGraph.SurvivorsGraph | citlab_article_separation/gnn/input/feature_generation.py:685-857 | succeeds exactly when no raise point fires (`SurvivorsError` is `None`) and fails with the first one that does; a success has a valid node context and meets the page specification for it |
| PageGraph.SurvivorsErrorCases | citlab_article_separation/gnn/input/feature_generation.py:685-857 | each of the six errors by its cause, in the source's order: empty statistics, a zero norm, a missing line statistic, a failed triangulation, padding no edges, a missing article; no error exactly when the statistics are usable, the edges exist, padding has edges and every region is in the article map |
| PageGraph.GraphFeatureWidths | citlab_article_separation/gnn/input/feature_generation.py:850-851 | when every table's entries are as wide as its fallback, all node vectors of the graph have width 15 plus the sources' node width, and all edge vectors width 2 plus the similarity width plus the sources' edge width |
| PageGraph.BuildInputAndTarget | citlab_article_separation/gnn/input/feature_generation.py:637-857 | no graph for a page without text regions or with at most one survivor; the caller's region list becomes the survivors; a graph exactly when there are two or more survivors and no raise point fires, and then it meets the page specification for the survivors and the statistics of the remaining lines; with two or more survivors and a raise point firing, the result is that first error; separator lists are only ever closed |
| BlankRects.ParseMethod | citlab_article_separation/util.py:68 | only "bb" and "ch" are accepted |
| BlankRects.PointsMembers | citlab_article_separation/util.py:74-76 | a point is in the article's point set exactly when it is a vertex of one of its rectangles |
| BlankRects.ArticlePoints | citlab_article_separation/util.py:74-76 | the loop collects exactly the article's point set |
| BlankRects.RectTargets | citlab_article_separation/util.py:70-80 | one hull per article key other than "blank" and None, over all the vertices of its rectangles |
| BlankRects.RectHulls | citlab_article_separation/util.py:70-80 | the loop over the keys builds exactly those hulls |
| BlankRects.PolyTargets | citlab_article_separation/util.py:103-112 | one list of hulls per article key other than "blank" and None, one hull per polygon, in order |
| BlankRects.PolyHulls | citlab_article_separation/util.py:103-112 | the loops over keys and polygons build exactly those hull lists |
| BlankRects.Target | citlab_article_separation/util.py:117-126 | a rectangle has a target exactly when exactly one article's hull (or hulls) is clipped, and the target is that article |
| BlankRects.TargetOf | citlab_article_separation/util.py:85-91 | the intersection loops find exactly that target |
| BlankRects.RectTarget | citlab_article_separation/util.py:86-91 | the loop over the article hulls finds a target exactly when one hull is clipped |
| BlankRects.PolyTarget | citlab_article_separation/util.py:118-126 | the loops over all polygon hulls find a target exactly when the clipped hulls belong to a single article |
| BlankRects.MovedAndRemaining | citlab_article_separation/util.py:85-96 | the moved and the remaining rectangles together are the blank list (as multisets) |
| BlankRects.MovedToOneArticle | citlab_article_separation/util.py:91-94 | no rectangle is moved to two articles |
| BlankRects.MovedToMembers | citlab_article_separation/util.py:91-94 | a rectangle is moved to an article exactly when it is in the blank list and that article is its target |
| BlankRects.SkippedKeysReceiveNothing | citlab_article_separation/util.py:70-80 | the "blank" and None keys never receive rectangles |
| BlankRects.AppendedToOwnList | citlab_article_separation/util.py:91-94 | with distinct lists, an article's list receives exactly the rectangles whose target it is |
| BlankRects.AppendedToUnused | citlab_article_separation/util.py:93 | a list that is no target's list receives nothing |
| BlankRects.RectTargetsNeverFail | citlab_article_separation/util.py:85-94 | by rectangles, every target has a list, so the loop runs to the end |
| BlankRects.WithoutMoved | citlab_article_separation/util.py:96 | the rebuilt blank list is the remaining rectangles, in order |
| BlankRects.Rebuild | citlab_article_separation/util.py:96 | the comprehension keeps exactly the rectangles not to be removed, in order |
| BlankRects.MoveBlanks | citlab_article_separation/util.py:85-94 | the loop completes exactly when no rectangle targets an article without a list; the lists grew by the rectangles handled up to the first failure, and those rectangles are to be removed |
| BlankRects.Redistribute | citlab_article_separation/util.py:82-96 | with no blank list, a failure and nothing changed; otherwise the lists grew up to the first failure, the blank list itself is untouched, and a success maps "blank" to a new list of the remaining rectangles |
| BlankRects.ConvertBlankArticleRectsByRects | citlab_article_separation/util.py:67-97 | an unsupported method or a missing blank list fails and changes nothing; otherwise the conversion succeeds, every list grew by its moved rectangles, and the result maps "blank" to a new list of the remaining rectangles and every other key to its list |
| BlankRects.ConvertBlankArticleRectsByPolys | citlab_article_separation/util.py:100-132 | the same with one hull per polygon and a set of hit keys; it fails, after moving the rectangles before the failure, when a target article has no list |

## Left out

- Reading the page (`get_data_from_pagexml`), image sizes from files, `generate_feature_jsons`, logging and `print`: I/O and output only. The page arrives as a value (`PageGraph.PageInput`).
- `get_textline_stroke_widths_heights_dist_trafo`: a distance transform on the page image. Its two tables are a function parameter of the page's text lines.
- `get_text_regions_wv_sim`: word-vector similarity through a foreign extractor. The similarity dictionary is an input.
- The library's `bounding_box`, `convex_hull`, `polygon_clip`, `Polygon.get_bounding_box`, the rectangle vertices, `round_base` and scipy's `Delaunay`: foreign code, all modelled as function parameters. For the Delaunay solver only the shape of its neighbour lists is assumed (`Topology.SolverContract`).
- Floating point: features are exact reals, so float32 rounding, `inf` and `nan` are not modelled. A zero norm is an error instead of a division producing `inf`. The int32 casts of the returned arrays are not modelled.
- Dictionary iteration order: the loops over `poly_dict` visit its keys in an order the model does not fix. The target a rectangle gets does not depend on that order.
- Numpy array shapes and the transpose of the visual arrays: the visual regions are kept as point sequences, plus one padded two-dimensional array of points.
- `None` in the page input: missing text lines are the empty list, missing separator regions the empty list, and a missing or empty similarity dictionary is `None`.
- Other functions of `util.py` (`get_article_surrounding_polygons`, `smooth_article_surrounding_polygons`, `get_article_rectangles`): not part of the conversion.
- `is_aligned_horizontally_separated`, `is_aligned_heading_separated` and `get_separator_aligned_regions` are modelled, although `build_input_and_target` does not call them.
- BlankRects.ConvertBlankArticleRectsByRects: assumes the "blank" list is not also the list of an article key. The source does not exclude that aliasing, but a shared list would grow while it is being iterated.
- BlankRects.ConvertBlankArticleRectsByPolys: assumes the same.
- Feature rows of unequal width: `np.array(..., dtype=np.float32)` raises a ValueError when node or edge vectors differ in width. This happens when an external entry is wider than its fallback, or when a region falls back while another does not. The model does not raise there: its graph may hold rows of different widths. `PageGraph.GraphFeatureWidths` proves one width per array when every table's entries are as wide as its fallback.
- ExternalData.LookupNode: a region whose id is "default", on a node table that has a "default" entry, makes the source raise a TypeError: the specific lookup yields the default number, which `extend` cannot take, and only a KeyError is caught. The model keeps the "default" entry apart from the region entries, so that region gets `[default]` instead.
- EdgeFeatures.ExtendSimilarity: a first region whose id is "default", on a similarity table that has a "default" entry, makes the source raise a TypeError: the default vector is indexed by the second region's id, and only a KeyError is caught. The model gives the default vector instead. The external edge lookup also catches TypeError, so there the model agrees with the source.
- Empty coordinate lists: `np.min` in the bounding box and `polygon[0]` in the closing raise on an empty list. The model's polygons are non-empty by type (`Geometry.Polygon`), so that error is not modelled.
- The asserts on the interaction and separator strategies cannot fail in the model, because both strategies are enumerations.
