/** Topology builder: the directed interaction edge list of a page graph,
    either fully connected or from the vertex adjacency of a Delaunay
    triangulation (feature_generation.py, `fully_connected_edges`,
    `delaunay_edges` and the selection in `build_input_and_target`). */
module Topology {
  import opened Wrappers

  /** One row of `interacting_nodes`: (source node, target node). */
  datatype Edge = Edge(src: int, dst: int)

  // ---------------------------------------------------------------------
  // Fully connected edges, modelled on the numpy pipeline

  /** Row i of the stacked index grid: (i, 0), ..., (i, n - 1). */
  function GridRow(n: nat, i: nat): seq<Edge> {
    seq(n, j => Edge(i, j))
  }

  /** Rows i, ..., n - 1 of the grid, laid out row-major as `reshape([-1, 2])` does. */
  function GridFrom(n: nat, i: nat): seq<Edge>
    decreases n - i
  {
    if i >= n then [] else GridRow(n, i) + GridFrom(n, i + 1)
  }

  /** `np.delete(s, del, axis=0)` on the part of an array starting at global
      position `start`: the rows whose position is not in `del`, in order. */
  function DeletePositions(s: seq<Edge>, del: set<int>, start: int): seq<Edge>
    decreases |s|
  {
    if s == [] then []
    else (if start in del then [] else [s[0]]) + DeletePositions(s[1..], del, start + 1)
  }

  /** `np.arange(num_nodes) * (num_nodes + 1)`: the positions of the self-loops. */
  function SelfLoopPositions(n: nat): set<int> {
    set m | 0 <= m < n :: SelfLoopPosition(n, m)
  }

  function SelfLoopPosition(n: nat, m: nat): int { m * (n + 1) }

  /** `fully_connected_edges(num_nodes)`. */
  function FullyConnectedEdges(n: nat): seq<Edge> {
    DeletePositions(GridFrom(n, 0), SelfLoopPositions(n), 0)
  }

  /** Reference: row i of the grid with its diagonal entry left out. */
  function RowWithoutSelf(n: nat, i: nat): seq<Edge>
    requires n > 0
  {
    seq(n - 1, t => Edge(i, if t < i then t else t + 1))
  }

  function RowsWithoutSelf(n: nat, i: nat): seq<Edge>
    requires n > 0
    decreases n - i
  {
    if i >= n then [] else RowWithoutSelf(n, i) + RowsWithoutSelf(n, i + 1)
  }

  lemma {:induction false} DeleteConcat(a: seq<Edge>, b: seq<Edge>, del: set<int>, start: int)
    ensures DeletePositions(a + b, del, start)
         == DeletePositions(a, del, start) + DeletePositions(b, del, start + |a|)
    decreases |a|
  {
    if a == [] {
      assert a + b == b;
    } else {
      assert (a + b)[1..] == a[1..] + b;
      DeleteConcat(a[1..], b, del, start + 1);
    }
  }

  lemma {:induction false} DeleteNone(s: seq<Edge>, del: set<int>, start: int)
    requires forall p :: start <= p < start + |s| ==> p !in del
    ensures DeletePositions(s, del, start) == s
    decreases |s|
  {
    if s != [] {
      assert start !in del;
      DeleteNone(s[1..], del, start + 1);
    }
  }

  lemma {:induction false} DeleteOne(s: seq<Edge>, del: set<int>, start: int, p: int)
    requires 0 <= p < |s| && start + p in del
    requires forall q :: start <= q < start + |s| && q != start + p ==> q !in del
    ensures DeletePositions(s, del, start) == s[..p] + s[p + 1..]
    decreases p
  {
    var rest := s[1..];
    if p == 0 {
      DeleteNone(rest, del, start + 1);
      assert s[..0] + s[1..] == rest;
    } else {
      assert start !in del;
      DeleteOne(rest, del, start + 1, p - 1);
      assert [s[0]] + (rest[..p - 1] + rest[p..]) == s[..p] + s[p + 1..];
    }
  }

  lemma MulMono(a: int, b: int, n: nat)
    requires a <= b
    ensures a * n <= b * n
  {
  }

  lemma SelfLoopRowUnique(n: nat, i: nat, j: nat, m: nat)
    requires m < n && i < n && j < n && m * n + m == i * n + j
    ensures m == i
  {
    if m < i {
      MulMono(m + 1, i, n);
      assert false;
    } else if m > i {
      MulMono(i + 1, m, n);
      assert false;
    }
  }

  /** Inside the grid row that starts at position i * n, the only self-loop
      position is i * n + i. */
  lemma SelfLoopInRow(n: nat, i: nat, j: nat)
    requires i < n && j < n
    ensures (i * n + j in SelfLoopPositions(n)) <==> j == i
  {
    if i * n + j in SelfLoopPositions(n) {
      var m :| 0 <= m < n && SelfLoopPosition(n, m) == i * n + j;
      assert m * (n + 1) == m * n + m;
      SelfLoopRowUnique(n, i, j, m);
    }
    if j == i {
      assert SelfLoopPosition(n, i) == i * n + i;
    }
  }

  lemma RowDelete(n: nat, i: nat)
    requires i < n
    ensures DeletePositions(GridRow(n, i), SelfLoopPositions(n), i * n) == RowWithoutSelf(n, i)
  {
    var s := GridRow(n, i);
    forall q | i * n <= q < i * n + |s|
      ensures (q in SelfLoopPositions(n)) <==> q == i * n + i
    {
      SelfLoopInRow(n, i, q - i * n);
    }
    DeleteOne(s, SelfLoopPositions(n), i * n, i);
    RowSplice(n, i);
  }

  lemma RowSplice(n: nat, i: nat)
    requires i < n
    ensures GridRow(n, i)[..i] + GridRow(n, i)[i + 1..] == RowWithoutSelf(n, i)
  {
    var s := GridRow(n, i);
    var r := s[..i] + s[i + 1..];
    assert |r| == n - 1;
    forall t | 0 <= t < n - 1
      ensures r[t] == RowWithoutSelf(n, i)[t]
    {
      if t < i {
        assert r[t] == s[t];
      } else {
        assert r[t] == s[t + 1];
      }
    }
  }

  lemma {:induction false} GridDelete(n: nat, i: nat)
    requires i <= n && n > 0
    ensures DeletePositions(GridFrom(n, i), SelfLoopPositions(n), i * n) == RowsWithoutSelf(n, i)
    decreases n - i
  {
    if i < n {
      DeleteConcat(GridRow(n, i), GridFrom(n, i + 1), SelfLoopPositions(n), i * n);
      RowDelete(n, i);
      assert i * n + n == (i + 1) * n;
      GridDelete(n, i + 1);
    }
  }

  lemma FullyConnectedIsRowsWithoutSelf(n: nat)
    requires n > 0
    ensures FullyConnectedEdges(n) == RowsWithoutSelf(n, 0)
  {
    GridDelete(n, 0);
  }

  /** The start of row d in rows of width w, written without multiplication
      so that the index proofs below stay linear. */
  function Offset(d: nat, w: nat): nat {
    if d == 0 then 0 else Offset(d - 1, w) + w
  }

  lemma {:induction false} OffsetIsProduct(d: nat, w: nat)
    ensures Offset(d, w) == d * w
  {
    if d > 0 {
      OffsetIsProduct(d - 1, w);
      assert d * w == (d - 1) * w + w;
    }
  }

  lemma {:induction false} RowsWithoutSelfLength(n: nat, i: nat)
    requires n > 0 && i <= n
    ensures |RowsWithoutSelf(n, i)| == Offset(n - i, n - 1)
    decreases n - i
  {
    if i < n {
      RowsWithoutSelfLength(n, i + 1);
    }
  }

  lemma {:induction false} RowsWithoutSelfAt(n: nat, i: nat, d: nat, t: nat)
    requires n > 0 && i + d < n && t < n - 1
    ensures Offset(d, n - 1) + t < |RowsWithoutSelf(n, i)|
    ensures RowsWithoutSelf(n, i)[Offset(d, n - 1) + t] == Edge(i + d, if t < i + d then t else t + 1)
    decreases d
  {
    var head, tail := RowWithoutSelf(n, i), RowsWithoutSelf(n, i + 1);
    assert RowsWithoutSelf(n, i) == head + tail;
    if d == 0 {
      assert RowsWithoutSelf(n, i)[t] == head[t];
    } else {
      RowsWithoutSelfAt(n, i + 1, d - 1, t);
      var q := Offset(d - 1, n - 1) + t;
      assert RowsWithoutSelf(n, i)[(n - 1) + q] == tail[q];
    }
  }

  /** `fully_connected_edges(N)` has N * (N - 1) rows. */
  lemma FullyConnectedCount(n: nat)
    ensures |FullyConnectedEdges(n)| == n * (n - 1)
  {
    if n == 0 {
      assert FullyConnectedEdges(n) == [];
    } else {
      FullyConnectedIsRowsWithoutSelf(n);
      RowsWithoutSelfLength(n, 0);
      OffsetIsProduct(n, n - 1);
    }
  }

  /** Row-major order with the diagonal removed: row i * (N - 1) + t is
      (i, t) when t < i and (i, t + 1) otherwise. */
  lemma FullyConnectedRowMajor(n: nat, i: nat, t: nat)
    requires i < n && t < n - 1
    ensures i * (n - 1) + t < |FullyConnectedEdges(n)|
    ensures FullyConnectedEdges(n)[i * (n - 1) + t] == Edge(i, if t < i then t else t + 1)
  {
    FullyConnectedIsRowsWithoutSelf(n);
    RowsWithoutSelfAt(n, 0, i, t);
    OffsetIsProduct(i, n - 1);
  }

  /** Position k of an n-by-w grid lies in row k / w, column k % w. */
  lemma SplitIndex(k: nat, w: nat, n: nat)
    requires w > 0 && k < n * w
    ensures k / w < n && 0 <= k % w < w && k == (k / w) * w + k % w
  {
    var i := k / w;
    if i >= n {
      MulMono(n, i, w);
      assert false;
    }
  }

  /** The same, by row number: row k is (k div (N - 1), t) with
      t = k mod (N - 1), plus one when t is at least the source. */
  lemma FullyConnectedAt(n: nat, k: nat)
    requires k < n * (n - 1)
    ensures n >= 2
    ensures k < |FullyConnectedEdges(n)|
    ensures FullyConnectedEdges(n)[k]
         == Edge(k / (n - 1), if k % (n - 1) < k / (n - 1) then k % (n - 1) else k % (n - 1) + 1)
  {
    if n < 2 {
      assert false;
    }
    SplitIndex(k, n - 1, n);
    FullyConnectedRowMajor(n, k / (n - 1), k % (n - 1));
  }

  /** Each row joins two distinct nodes. */
  lemma FullyConnectedEdgeAt(n: nat, k: nat)
    requires k < |FullyConnectedEdges(n)|
    ensures var e := FullyConnectedEdges(n)[k]; e.src != e.dst && 0 <= e.src < n && 0 <= e.dst < n
  {
    FullyConnectedCount(n);
    FullyConnectedAt(n, k);
    SplitIndex(k, n - 1, n);
  }

  /** No self-loops, every node index in range, and every ordered pair of
      distinct nodes present. */
  lemma FullyConnectedPairs(n: nat)
    ensures forall k :: 0 <= k < |FullyConnectedEdges(n)| ==>
      var e := FullyConnectedEdges(n)[k]; e.src != e.dst && 0 <= e.src < n && 0 <= e.dst < n
    ensures forall i, j :: 0 <= i < n && 0 <= j < n && i != j ==> Edge(i, j) in FullyConnectedEdges(n)
  {
    forall k | 0 <= k < |FullyConnectedEdges(n)|
      ensures var e := FullyConnectedEdges(n)[k]; e.src != e.dst && 0 <= e.src < n && 0 <= e.dst < n
    {
      FullyConnectedEdgeAt(n, k);
    }
    forall i, j | 0 <= i < n && 0 <= j < n && i != j
      ensures Edge(i, j) in FullyConnectedEdges(n)
    {
      FullyConnectedRowMajor(n, i, if j < i then j else j - 1);
    }
  }

  // ---------------------------------------------------------------------
  // Delaunay edges

  /** A node position as the float centre coordinates give it. */
  datatype Position = Position(x: real, y: real)

  /** scipy's `vertex_neighbor_vertices`: the neighbours of vertex v are
      `indices[indptr[v]:indptr[v + 1]]`. */
  datatype Csr = Csr(indptr: seq<int>, indices: seq<int>)

  /** What scipy guarantees of the neighbour arrays of an n-point triangulation. */
  predicate WellFormedCsr(c: Csr, n: nat) {
    && |c.indptr| == n + 1
    && 0 <= c.indptr[0]
    && (forall v, w :: 0 <= v <= w <= n ==> c.indptr[v] <= c.indptr[w])
    && c.indptr[n] <= |c.indices|
    && (forall k :: c.indptr[0] <= k < c.indptr[n] ==> 0 <= c.indices[k] < n)
  }

  function Neighbours(c: Csr, n: nat, v: nat): seq<int>
    requires WellFormedCsr(c, n) && v < n
  {
    c.indices[c.indptr[v]..c.indptr[v + 1]]
  }

  /** `np.stack(np.broadcast_arrays(v, neighbors), axis=1)`. */
  function Star(v: int, ns: seq<int>): (r: seq<Edge>)
    ensures |r| == |ns|
    ensures forall k :: 0 <= k < |ns| ==> r[k] == Edge(v, ns[k])
  {
    seq(|ns|, k requires 0 <= k < |ns| => Edge(v, ns[k]))
  }

  /** The concatenated stars of vertices 0, ..., v - 1. */
  function CsrEdges(c: Csr, n: nat, v: nat): seq<Edge>
    requires WellFormedCsr(c, n) && v <= n
  {
    if v == 0 then [] else CsrEdges(c, n, v - 1) + Star(v - 1, Neighbours(c, n, v - 1))
  }

  /** The expansion has `indptr[v] - indptr[0]` rows, and the neighbour stored
      at `indices[k]` with `indptr[u] <= k < indptr[u + 1]` gives the row
      (u, indices[k]) at position k - indptr[0]. */
  lemma {:induction false} CsrEdgesLayout(c: Csr, n: nat, v: nat)
    requires WellFormedCsr(c, n) && v <= n
    ensures |CsrEdges(c, n, v)| == c.indptr[v] - c.indptr[0]
    ensures forall u, k :: 0 <= u < v && c.indptr[u] <= k < c.indptr[u + 1] ==>
      CsrEdges(c, n, v)[k - c.indptr[0]] == Edge(u, c.indices[k])
  {
    if v > 0 {
      CsrEdgesLayout(c, n, v - 1);
      var prev := CsrEdges(c, n, v - 1);
      var star := Star(v - 1, Neighbours(c, n, v - 1));
      forall u, k | 0 <= u < v && c.indptr[u] <= k < c.indptr[u + 1]
        ensures CsrEdges(c, n, v)[k - c.indptr[0]] == Edge(u, c.indices[k])
      {
        if u < v - 1 {
          assert c.indptr[u + 1] <= c.indptr[v - 1];
          assert CsrEdges(c, n, v)[k - c.indptr[0]] == prev[k - c.indptr[0]];
        } else {
          assert CsrEdges(c, n, v)[k - c.indptr[0]] == star[k - c.indptr[v - 1]];
        }
      }
    }
  }

  /** Sources are nondecreasing and every row's source is a vertex below v. */
  lemma {:induction false} CsrEdgesSourcesSorted(c: Csr, n: nat, v: nat)
    requires WellFormedCsr(c, n) && v <= n
    ensures forall k :: 0 <= k < |CsrEdges(c, n, v)| ==> 0 <= CsrEdges(c, n, v)[k].src < v
    ensures forall k, l :: 0 <= k <= l < |CsrEdges(c, n, v)| ==>
      CsrEdges(c, n, v)[k].src <= CsrEdges(c, n, v)[l].src
  {
    if v > 0 {
      CsrEdgesSourcesSorted(c, n, v - 1);
      var prev := CsrEdges(c, n, v - 1);
      var e := CsrEdges(c, n, v);
      assert forall k :: |prev| <= k < |e| ==> e[k].src == v - 1;
      assert forall k :: 0 <= k < |prev| ==> e[k] == prev[k];
    }
  }

  /** Every row of the expansion joins two of the n nodes. */
  lemma CsrEdgesInRange(c: Csr, n: nat)
    requires WellFormedCsr(c, n)
    ensures forall k :: 0 <= k < |CsrEdges(c, n, n)| ==>
      0 <= CsrEdges(c, n, n)[k].src < n && 0 <= CsrEdges(c, n, n)[k].dst < n
  {
    CsrEdgesLayout(c, n, n);
    CsrEdgesSourcesSorted(c, n, n);
    var e := CsrEdges(c, n, n);
    forall k | 0 <= k < |e|
      ensures 0 <= e[k].dst < n
    {
      var g := k + c.indptr[0];
      var u := SourceOf(c.indptr, g);
      assert e[g - c.indptr[0]] == Edge(u, c.indices[g]);
    }
  }

  /** The vertex whose neighbour range holds position g of `indices`. */
  function SourceOf(indptr: seq<int>, g: int): (u: nat)
    requires |indptr| >= 2 && (forall v, w :: 0 <= v <= w < |indptr| ==> indptr[v] <= indptr[w])
    requires indptr[0] <= g < indptr[|indptr| - 1]
    ensures u < |indptr| - 1 && indptr[u] <= g < indptr[u + 1]
    decreases |indptr|
  {
    if g < indptr[1] then 0
    else SourceOf(indptr[1..], g) + 1
  }

  /** The loop of `delaunay_edges` over the neighbour arrays. */
  method ExpandNeighbours(c: Csr, n: nat) returns (edges: seq<Edge>)
    requires WellFormedCsr(c, n)
    ensures edges == CsrEdges(c, n, n)
    ensures |edges| == c.indptr[n] - c.indptr[0]
  {
    edges := [];
    var v := 0;
    while v < n
      invariant 0 <= v <= n
      invariant edges == CsrEdges(c, n, v)
    {
      var neighbours := c.indices[c.indptr[v]..c.indptr[v + 1]];
      edges := edges + Star(v, neighbours);
      v := v + 1;
    }
    CsrEdgesLayout(c, n, n);
  }

  /** The two attempts of the triangulation, with distinct outcomes. */
  datatype Triangulation = Smoothed(csr: Csr) | Unsmoothed(csr: Csr) | Degenerate

  /** First the positions rounded to the 50 px grid, then, if the solver
      rejects them, the raw positions. */
  function TriangulateWithRetry(positions: seq<Position>,
                                roundBase: seq<Position> -> seq<Position>,
                                triangulate: seq<Position> -> Option<Csr>): (t: Triangulation)
    ensures t.Smoothed? <==> triangulate(roundBase(positions)).Some?
    ensures t.Smoothed? ==> t.csr == triangulate(roundBase(positions)).value
    ensures t.Unsmoothed? <==> triangulate(roundBase(positions)).None? && triangulate(positions).Some?
    ensures t.Unsmoothed? ==> t.csr == triangulate(positions).value
  {
    match triangulate(roundBase(positions))
    case Some(c) => Smoothed(c)
    case None =>
      match triangulate(positions)
      case Some(c) => Unsmoothed(c)
      case None => Degenerate
  }

  /** The solver's contract: neighbour arrays fit the number of points. */
  ghost predicate SolverContract(roundBase: seq<Position> -> seq<Position>,
                                 triangulate: seq<Position> -> Option<Csr>)
  {
    && (forall ps :: |roundBase(ps)| == |ps|)
    && (forall ps :: triangulate(ps).Some? ==> WellFormedCsr(triangulate(ps).value, |ps|))
  }

  datatype TopologyError = TriangulationFailed

  /** `delaunay_edges`: fails only when both attempts fail. */
  method DelaunayEdges(positions: seq<Position>,
                       roundBase: seq<Position> -> seq<Position>,
                       triangulate: seq<Position> -> Option<Csr>)
    returns (r: Result<seq<Edge>, TopologyError>)
    requires SolverContract(roundBase, triangulate)
    ensures match TriangulateWithRetry(positions, roundBase, triangulate)
            case Degenerate => r == Failure(TriangulationFailed)
            case Smoothed(c) => WellFormedCsr(c, |positions|) && r == Success(CsrEdges(c, |positions|, |positions|))
            case Unsmoothed(c) => WellFormedCsr(c, |positions|) && r == Success(CsrEdges(c, |positions|, |positions|))
  {
    var n := |positions|;
    var t := TriangulateWithRetry(positions, roundBase, triangulate);
    if t.Degenerate? {
      return Failure(TriangulationFailed);
    }
    assert |roundBase(positions)| == n;
    var edges := ExpandNeighbours(t.csr, n);
    r := Success(edges);
  }

  datatype Interaction = Fully | Delaunay

  /** The edge set `build_input_and_target` uses for nodes at `positions`. */
  function InteractionEdges(interaction: Interaction, positions: seq<Position>,
                            roundBase: seq<Position> -> seq<Position>,
                            triangulate: seq<Position> -> Option<Csr>): Result<seq<Edge>, TopologyError>
    requires SolverContract(roundBase, triangulate)
  {
    var n := |positions|;
    if interaction == Fully || n < 4 then Success(FullyConnectedEdges(n))
    else match TriangulateWithRetry(positions, roundBase, triangulate)
      case Degenerate => Failure(TriangulationFailed)
      case Smoothed(c) => assert |roundBase(positions)| == n; Success(CsrEdges(c, n, n))
      case Unsmoothed(c) => Success(CsrEdges(c, n, n))
  }

  /** Whichever way it is built, every edge joins two of the nodes. */
  lemma InteractionEdgesInRange(interaction: Interaction, positions: seq<Position>,
                                roundBase: seq<Position> -> seq<Position>,
                                triangulate: seq<Position> -> Option<Csr>)
    requires SolverContract(roundBase, triangulate)
    ensures var r, n := InteractionEdges(interaction, positions, roundBase, triangulate), |positions|;
      r.Success? ==> forall k :: 0 <= k < |r.value| ==> 0 <= r.value[k].src < n && 0 <= r.value[k].dst < n
  {
    var n := |positions|;
    if interaction == Fully || n < 4 {
      FullyConnectedPairs(n);
    } else {
      var t := TriangulateWithRetry(positions, roundBase, triangulate);
      if !t.Degenerate? {
        assert |roundBase(positions)| == n;
        CsrEdgesInRange(t.csr, n);
      }
    }
  }

  /** The selection in `build_input_and_target`: the fully connected set when
      asked for or when there are fewer than four nodes, else the Delaunay
      edges of the node centres. */
  method InteractingNodes(interaction: Interaction, positions: seq<Position>,
                          roundBase: seq<Position> -> seq<Position>,
                          triangulate: seq<Position> -> Option<Csr>)
    returns (r: Result<seq<Edge>, TopologyError>)
    requires SolverContract(roundBase, triangulate)
    ensures r == InteractionEdges(interaction, positions, roundBase, triangulate)
    ensures interaction == Fully || |positions| < 4 ==> r == Success(FullyConnectedEdges(|positions|))
    ensures interaction == Delaunay && |positions| >= 4 ==>
      match TriangulateWithRetry(positions, roundBase, triangulate)
      case Degenerate => r == Failure(TriangulationFailed)
      case Smoothed(c) => WellFormedCsr(c, |positions|) && r == Success(CsrEdges(c, |positions|, |positions|))
      case Unsmoothed(c) => WellFormedCsr(c, |positions|) && r == Success(CsrEdges(c, |positions|, |positions|))
  {
    if interaction == Fully || |positions| < 4 {
      r := Success(FullyConnectedEdges(|positions|));
    } else {
      r := DelaunayEdges(positions, roundBase, triangulate);
    }
  }
}
