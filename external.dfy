/** Features read from dictionaries supplied from outside the page: the text
    block similarity dictionary and the external feature sources, with
    their fallback chains.

    A JSON feature table is modelled with its "default" entry split off:
    `entries` holds the per-region (or per-pair) entries and `default` the
    value stored under "default", if any. */
module ExternalData {
  import opened Wrappers

  /** The "node_features" table of an external page entry.  The node
      default is a single number. */
  datatype NodeTable = NodeTable(entries: map<string, seq<real>>, default: Option<real>)

  /** An "edge_features" table: region id -> region id -> vector.  The edge
      default is a vector. */
  datatype EdgeTable = EdgeTable(entries: map<string, map<string, seq<real>>>, default: Option<seq<real>>)

  /** One page entry of an external source; a missing "node_features" or
      "edge_features" key is `None`. */
  datatype ExternalPage = ExternalPage(nodeFeatures: Option<NodeTable>, edgeFeatures: Option<EdgeTable>)

  /** An external source: page file name -> page entry. */
  type ExternalSource = map<string, ExternalPage>

  /** A non-empty text block similarity dictionary; `edgeFeatures` is `None`
      when it has no "edge_features" entry. */
  datatype SimilarityDict = SimilarityDict(edgeFeatures: Option<EdgeTable>)

  // ---------------------------------------------------------------------
  // Single lookups

  /** Specific entry, else the default wrapped as a one-element vector,
      else [0.0]. */
  function NodeLookup(t: NodeTable, id: string): seq<real> {
    if id in t.entries then t.entries[id]
    else match t.default
      case Some(d) => [d]
      case None => [0.0]
  }

  /** Specific entry, else the elements of the default vector, else [0.5]. */
  function EdgeLookup(t: EdgeTable, a: string, b: string): seq<real> {
    if a in t.entries && b in t.entries[a] then t.entries[a][b]
    else match t.default
      case Some(d) => d
      case None => [0.5]
  }

  /** The similarity lookup: a dictionary without "edge_features" fails both
      the specific and the default lookup and gives [0.5]. */
  function SimilarityLookup(sim: SimilarityDict, a: string, b: string): seq<real> {
    match sim.edgeFeatures
    case Some(t) => EdgeLookup(t, a, b)
    case None => [0.5]
  }

  /** The node default is wrapped in a list, the edge default is not: a
      default vector of any length contributes all its elements to an edge
      feature, a default number exactly one element to a node feature. */
  lemma DefaultWrapping(nodes: NodeTable, edges: EdgeTable, id: string, a: string, b: string)
    requires id !in nodes.entries && nodes.default.Some?
    requires !(a in edges.entries && b in edges.entries[a]) && edges.default.Some?
    ensures NodeLookup(nodes, id) == [nodes.default.value]
    ensures EdgeLookup(edges, a, b) == edges.default.value
  {
  }

  /** The fallback chain of a node lookup, case by case. */
  lemma NodeLookupChain(t: NodeTable, id: string)
    ensures id in t.entries ==> NodeLookup(t, id) == t.entries[id]
    ensures id !in t.entries && t.default.Some? ==> |NodeLookup(t, id)| == 1 && NodeLookup(t, id)[0] == t.default.value
    ensures id !in t.entries && t.default.None? ==> NodeLookup(t, id) == [0.0]
  {
  }

  /** The fallback chain of an edge lookup, case by case. */
  lemma EdgeLookupChain(t: EdgeTable, a: string, b: string)
    ensures a in t.entries && b in t.entries[a] ==> EdgeLookup(t, a, b) == t.entries[a][b]
    ensures !(a in t.entries && b in t.entries[a]) && t.default.Some? ==> EdgeLookup(t, a, b) == t.default.value
    ensures !(a in t.entries && b in t.entries[a]) && t.default.None? ==> EdgeLookup(t, a, b) == [0.5]
  {
  }

  // ---------------------------------------------------------------------
  // Blocks over all external sources

  /** What one source adds to a node feature: nothing when the page is
      missing or has no node table. */
  function PageNodeBlock(src: ExternalSource, page: string, id: string): seq<real> {
    if page !in src then []
    else match src[page].nodeFeatures
      case Some(t) => NodeLookup(t, id)
      case None => []
  }

  /** What one source adds to an edge feature. */
  function PageEdgeBlock(src: ExternalSource, page: string, a: string, b: string): seq<real> {
    if page !in src then []
    else match src[page].edgeFeatures
      case Some(t) => EdgeLookup(t, a, b)
      case None => []
  }

  /** The concatenation of a list of blocks. */
  function Flatten(blocks: seq<seq<real>>): seq<real> {
    if blocks == [] then [] else Flatten(blocks[..|blocks| - 1]) + blocks[|blocks| - 1]
  }

  lemma {:induction false} FlattenConcat(x: seq<seq<real>>, y: seq<seq<real>>)
    ensures Flatten(x + y) == Flatten(x) + Flatten(y)
    decreases |y|
  {
    if y == [] {
      assert x + y == x;
    } else {
      var n := |y| - 1;
      assert (x + y)[..|x + y| - 1] == x + y[..n];
      FlattenConcat(x, y[..n]);
    }
  }

  lemma FlattenSnoc(x: seq<seq<real>>, b: seq<real>)
    ensures Flatten(x + [b]) == Flatten(x) + b
  {
    assert (x + [b])[..|x|] == x;
  }

  /** The blocks the sources add to the node feature of `id`, one per source. */
  function NodeBlocks(sources: seq<ExternalSource>, page: string, id: string): (bs: seq<seq<real>>)
    ensures |bs| == |sources|
    ensures forall k :: 0 <= k < |sources| ==> bs[k] == PageNodeBlock(sources[k], page, id)
  {
    seq(|sources|, k requires 0 <= k < |sources| => PageNodeBlock(sources[k], page, id))
  }

  /** The blocks the sources add to the edge feature of (a, b). */
  function EdgeBlocks(sources: seq<ExternalSource>, page: string, a: string, b: string): (bs: seq<seq<real>>)
    ensures |bs| == |sources|
    ensures forall k :: 0 <= k < |sources| ==> bs[k] == PageEdgeBlock(sources[k], page, a, b)
  {
    seq(|sources|, k requires 0 <= k < |sources| => PageEdgeBlock(sources[k], page, a, b))
  }

  /** The external part of a node feature: the sources' blocks in order. */
  function ExternalNodeBlock(sources: seq<ExternalSource>, page: string, id: string): seq<real> {
    Flatten(NodeBlocks(sources, page, id))
  }

  /** The external part of an edge feature. */
  function ExternalEdgeBlock(sources: seq<ExternalSource>, page: string, a: string, b: string): seq<real> {
    Flatten(EdgeBlocks(sources, page, a, b))
  }

  /** The external block of two lists of sources is the concatenation of
      their blocks. */
  lemma ExternalNodeBlockConcat(s1: seq<ExternalSource>, s2: seq<ExternalSource>, page: string, id: string)
    ensures ExternalNodeBlock(s1 + s2, page, id) == ExternalNodeBlock(s1, page, id) + ExternalNodeBlock(s2, page, id)
  {
    NodeBlocksConcat(s1, s2, page, id);
    FlattenConcat(NodeBlocks(s1, page, id), NodeBlocks(s2, page, id));
  }

  lemma NodeBlocksConcat(s1: seq<ExternalSource>, s2: seq<ExternalSource>, page: string, id: string)
    ensures NodeBlocks(s1 + s2, page, id) == NodeBlocks(s1, page, id) + NodeBlocks(s2, page, id)
  {
    var all, x, y := NodeBlocks(s1 + s2, page, id), NodeBlocks(s1, page, id), NodeBlocks(s2, page, id);
    forall k | 0 <= k < |all|
      ensures all[k] == (x + y)[k]
    {
      if k < |s1| {
        assert (s1 + s2)[k] == s1[k];
      } else {
        assert (s1 + s2)[k] == s2[k - |s1|];
      }
    }
  }

  lemma ExternalEdgeBlockConcat(s1: seq<ExternalSource>, s2: seq<ExternalSource>, page: string, a: string, b: string)
    ensures ExternalEdgeBlock(s1 + s2, page, a, b) == ExternalEdgeBlock(s1, page, a, b) + ExternalEdgeBlock(s2, page, a, b)
  {
    EdgeBlocksConcat(s1, s2, page, a, b);
    FlattenConcat(EdgeBlocks(s1, page, a, b), EdgeBlocks(s2, page, a, b));
  }

  lemma EdgeBlocksConcat(s1: seq<ExternalSource>, s2: seq<ExternalSource>, page: string, a: string, b: string)
    ensures EdgeBlocks(s1 + s2, page, a, b) == EdgeBlocks(s1, page, a, b) + EdgeBlocks(s2, page, a, b)
  {
    var all, x, y := EdgeBlocks(s1 + s2, page, a, b), EdgeBlocks(s1, page, a, b), EdgeBlocks(s2, page, a, b);
    forall k | 0 <= k < |all|
      ensures all[k] == (x + y)[k]
    {
      if k < |s1| {
        assert (s1 + s2)[k] == s1[k];
      } else {
        assert (s1 + s2)[k] == s2[k - |s1|];
      }
    }
  }

  /** A source without the page contributes nothing to a node feature,
      wherever it stands in the list. */
  lemma MissingPageNoNodeBlock(s1: seq<ExternalSource>, src: ExternalSource, s2: seq<ExternalSource>,
                               page: string, id: string)
    requires page !in src
    ensures ExternalNodeBlock(s1 + [src] + s2, page, id) == ExternalNodeBlock(s1 + s2, page, id)
  {
    ExternalNodeBlockConcat(s1 + [src], s2, page, id);
    ExternalNodeBlockConcat(s1, [src], page, id);
    ExternalNodeBlockConcat(s1, s2, page, id);
    NoNodeBlock(src, page, id);
  }

  lemma NoNodeBlock(src: ExternalSource, page: string, id: string)
    requires page !in src
    ensures ExternalNodeBlock([src], page, id) == []
  {
    FlattenSnoc([], PageNodeBlock(src, page, id));
    assert NodeBlocks([src], page, id) == [] + [PageNodeBlock(src, page, id)];
  }

  /** A source without the page contributes nothing to an edge feature. */
  lemma MissingPageNoEdgeBlock(s1: seq<ExternalSource>, src: ExternalSource, s2: seq<ExternalSource>,
                               page: string, a: string, b: string)
    requires page !in src
    ensures ExternalEdgeBlock(s1 + [src] + s2, page, a, b) == ExternalEdgeBlock(s1 + s2, page, a, b)
  {
    ExternalEdgeBlockConcat(s1 + [src], s2, page, a, b);
    ExternalEdgeBlockConcat(s1, [src], page, a, b);
    ExternalEdgeBlockConcat(s1, s2, page, a, b);
    NoEdgeBlock(src, page, a, b);
  }

  lemma NoEdgeBlock(src: ExternalSource, page: string, a: string, b: string)
    requires page !in src
    ensures ExternalEdgeBlock([src], page, a, b) == []
  {
    FlattenSnoc([], PageEdgeBlock(src, page, a, b));
    assert EdgeBlocks([src], page, a, b) == [] + [PageEdgeBlock(src, page, a, b)];
  }

  /** One more source extends the node block by that source's block. */
  lemma ExternalNodeBlockSnoc(sources: seq<ExternalSource>, k: nat, page: string, id: string)
    requires k < |sources|
    ensures ExternalNodeBlock(sources[..k + 1], page, id)
         == ExternalNodeBlock(sources[..k], page, id) + PageNodeBlock(sources[k], page, id)
  {
    assert NodeBlocks(sources[..k + 1], page, id) == NodeBlocks(sources[..k], page, id) + [PageNodeBlock(sources[k], page, id)];
    FlattenSnoc(NodeBlocks(sources[..k], page, id), PageNodeBlock(sources[k], page, id));
  }

  lemma ExternalEdgeBlockSnoc(sources: seq<ExternalSource>, k: nat, page: string, a: string, b: string)
    requires k < |sources|
    ensures ExternalEdgeBlock(sources[..k + 1], page, a, b)
         == ExternalEdgeBlock(sources[..k], page, a, b) + PageEdgeBlock(sources[k], page, a, b)
  {
    assert EdgeBlocks(sources[..k + 1], page, a, b) == EdgeBlocks(sources[..k], page, a, b) + [PageEdgeBlock(sources[k], page, a, b)];
    FlattenSnoc(EdgeBlocks(sources[..k], page, a, b), PageEdgeBlock(sources[k], page, a, b));
  }

  // ---------------------------------------------------------------------
  // Widths of the blocks

  /** A node table whose entries are as wide as its fallback (one number):
      then every region gets a block of the same width. */
  predicate NodeTableUniform(t: NodeTable) {
    forall id :: id in t.entries ==> |t.entries[id]| == 1
  }

  /** The width of an edge table's fallback: the default vector, else [0.5]. */
  function EdgeFallbackWidth(t: EdgeTable): nat {
    match t.default
    case Some(d) => |d|
    case None => 1
  }

  /** An edge table whose entries are as wide as its fallback. */
  predicate EdgeTableUniform(t: EdgeTable) {
    forall a, b :: a in t.entries && b in t.entries[a] ==> |t.entries[a][b]| == EdgeFallbackWidth(t)
  }

  /** Every table the sources hold for the page is as wide as its fallback. */
  predicate UniformSources(sources: seq<ExternalSource>, page: string) {
    forall k :: 0 <= k < |sources| && page in sources[k] ==>
      && (sources[k][page].nodeFeatures.Some? ==> NodeTableUniform(sources[k][page].nodeFeatures.value))
      && (sources[k][page].edgeFeatures.Some? ==> EdgeTableUniform(sources[k][page].edgeFeatures.value))
  }

  /** The width one source adds to every node feature of the page. */
  function PageNodeWidth(src: ExternalSource, page: string): nat {
    if page in src && src[page].nodeFeatures.Some? then 1 else 0
  }

  /** The width one source adds to every edge feature of the page. */
  function PageEdgeWidth(src: ExternalSource, page: string): nat {
    if page in src && src[page].edgeFeatures.Some? then EdgeFallbackWidth(src[page].edgeFeatures.value) else 0
  }

  /** The width all sources add to a node feature. */
  function NodeWidth(sources: seq<ExternalSource>, page: string): nat {
    if sources == [] then 0
    else NodeWidth(sources[..|sources| - 1], page) + PageNodeWidth(sources[|sources| - 1], page)
  }

  /** The width all sources add to an edge feature. */
  function EdgeWidth(sources: seq<ExternalSource>, page: string): nat {
    if sources == [] then 0
    else EdgeWidth(sources[..|sources| - 1], page) + PageEdgeWidth(sources[|sources| - 1], page)
  }

  /** Under uniform tables the external node block has the same width for
      every region of the page. */
  lemma {:induction false} ExternalNodeBlockWidth(sources: seq<ExternalSource>, page: string, id: string)
    requires UniformSources(sources, page)
    ensures |ExternalNodeBlock(sources, page, id)| == NodeWidth(sources, page)
    decreases |sources|
  {
    if sources == [] {
      assert NodeBlocks(sources, page, id) == [];
    } else {
      var k := |sources| - 1;
      assert sources[..k + 1] == sources;
      ExternalNodeBlockSnoc(sources, k, page, id);
      assert UniformSources(sources[..k], page) by {
        forall t | 0 <= t < k ensures sources[..k][t] == sources[t] { }
      }
      ExternalNodeBlockWidth(sources[..k], page, id);
    }
  }

  /** Under uniform tables the external edge block has the same width for
      every pair of regions of the page. */
  lemma {:induction false} ExternalEdgeBlockWidth(sources: seq<ExternalSource>, page: string, a: string, b: string)
    requires UniformSources(sources, page)
    ensures |ExternalEdgeBlock(sources, page, a, b)| == EdgeWidth(sources, page)
    decreases |sources|
  {
    if sources == [] {
      assert EdgeBlocks(sources, page, a, b) == [];
    } else {
      var k := |sources| - 1;
      assert sources[..k + 1] == sources;
      ExternalEdgeBlockSnoc(sources, k, page, a, b);
      assert UniformSources(sources[..k], page) by {
        forall t | 0 <= t < k ensures sources[..k][t] == sources[t] { }
      }
      ExternalEdgeBlockWidth(sources[..k], page, a, b);
    }
  }

  /** The try/except chain of one node lookup. */
  method LookupNode(t: NodeTable, id: string) returns (v: seq<real>)
    ensures v == NodeLookup(t, id)
  {
    if id in t.entries {
      v := t.entries[id];
    } else if t.default.Some? {
      v := [t.default.value];
    } else {
      v := [0.0];
    }
  }

  /** The try/except chain of one edge lookup. */
  method LookupEdge(t: EdgeTable, a: string, b: string) returns (v: seq<real>)
    ensures v == EdgeLookup(t, a, b)
  {
    if a in t.entries && b in t.entries[a] {
      v := t.entries[a][b];
    } else if t.default.Some? {
      v := t.default.value;
    } else {
      v := [0.5];
    }
  }

  /** One source of the node loop: a source without the page is skipped,
      one without a node table adds nothing. */
  method ExtendNodeBySource(feature: seq<real>, src: ExternalSource, page: string, id: string)
      returns (out: seq<real>)
    ensures out == feature + PageNodeBlock(src, page, id)
  {
    out := feature;
    if page in src {
      var extPage := src[page];
      if extPage.nodeFeatures.Some? {
        var v := LookupNode(extPage.nodeFeatures.value, id);
        out := out + v;
      }
    }
  }

  /** One source of the edge loop. */
  method ExtendEdgeBySource(feature: seq<real>, src: ExternalSource, page: string, a: string, b: string)
      returns (out: seq<real>)
    ensures out == feature + PageEdgeBlock(src, page, a, b)
  {
    out := feature;
    if page in src {
      var extPage := src[page];
      if extPage.edgeFeatures.Some? {
        var v := LookupEdge(extPage.edgeFeatures.value, a, b);
        out := out + v;
      }
    }
  }

  /** The loop over the external sources for one node. */
  method ExtendExternalNode(feature: seq<real>, sources: seq<ExternalSource>, page: string, id: string)
      returns (out: seq<real>)
    ensures out == feature + ExternalNodeBlock(sources, page, id)
  {
    out := feature;
    var k := 0;
    while k < |sources|
      invariant 0 <= k <= |sources|
      invariant out == feature + ExternalNodeBlock(sources[..k], page, id)
    {
      ExternalNodeBlockSnoc(sources, k, page, id);
      out := ExtendNodeBySource(out, sources[k], page, id);
      k := k + 1;
    }
    assert sources[..k] == sources;
  }

  /** The loop over the external sources for one edge. */
  method ExtendExternalEdge(feature: seq<real>, sources: seq<ExternalSource>, page: string, a: string, b: string)
      returns (out: seq<real>)
    ensures out == feature + ExternalEdgeBlock(sources, page, a, b)
  {
    out := feature;
    var k := 0;
    while k < |sources|
      invariant 0 <= k <= |sources|
      invariant out == feature + ExternalEdgeBlock(sources[..k], page, a, b)
    {
      ExternalEdgeBlockSnoc(sources, k, page, a, b);
      out := ExtendEdgeBySource(out, sources[k], page, a, b);
      k := k + 1;
    }
    assert sources[..k] == sources;
  }
}
