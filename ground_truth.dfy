/** The ground-truth relations of a page: the triple (1, i, j) for every
    ordered pair of nodes whose regions belong to the same article, in
    row-major order. */
module GroundTruth {
  import opened Wrappers
  import opened Regions

  /** The article ids the page assigns a region: a single (possibly missing)
      id, or a list of them. */
  datatype ArticleRef = Single(id: Option<string>) | Multiple(ids: seq<Option<string>>)

  /** The id a region is compared by: a list of more than one id is replaced
      by its first element; anything else, a one-element list included, is
      kept as it is. */
  function Effective(r: ArticleRef): (e: ArticleRef)
    ensures r.Multiple? && |r.ids| > 1 ==> e == Single(r.ids[0])
    ensures !(r.Multiple? && |r.ids| > 1) ==> e == r
  {
    if r.Multiple? && |r.ids| > 1 then Single(r.ids[0]) else r
  }

  /** A list of several ids takes its first id; a one-element list is not a
      single id and relates to no region with a single id. */
  lemma EffectiveExamples()
    ensures Effective(Multiple([Some("a1"), Some("a2")])) == Effective(Single(Some("a1")))
    ensures Effective(Multiple([Some("a1")])) != Effective(Single(Some("a1")))
    ensures Effective(Multiple([])) != Effective(Single(None))
  {
  }

  /** A ground-truth triple: the kind 1 (same article) and the two node indices. */
  datatype Relation = Relation(kind: int, i: int, j: int)

  /** The relations of node `i` with nodes 0 .. m-1. */
  function RowUpTo<T(==)>(ids: seq<T>, i: nat, m: nat): seq<Relation>
    requires i < |ids| && m <= |ids|
  {
    if m == 0 then []
    else RowUpTo(ids, i, m - 1) + (if ids[i] == ids[m - 1] then [Relation(1, i, m - 1)] else [])
  }

  /** The relations of nodes 0 .. m-1, row after row. */
  function RowsUpTo<T(==)>(ids: seq<T>, m: nat): seq<Relation>
    requires m <= |ids|
  {
    if m == 0 then [] else RowsUpTo(ids, m - 1) + RowUpTo(ids, m - 1, |ids|)
  }

  /** All ground-truth relations for the effective ids. */
  function Relations<T(==)>(ids: seq<T>): seq<Relation> {
    RowsUpTo(ids, |ids|)
  }

  /** The ordering the loops produce: by first index, then by second. */
  predicate Before(r: Relation, s: Relation) {
    r.i < s.i || (r.i == s.i && r.j < s.j)
  }

  predicate RowMajor(rs: seq<Relation>) {
    forall k, l :: 0 <= k < l < |rs| ==> Before(rs[k], rs[l])
  }

  // ---------------------------------------------------------------------
  // Properties of the specification

  /** Relation r is one of row i's relations with nodes 0 .. m-1. */
  predicate InRow<T(==)>(ids: seq<T>, i: nat, m: nat, r: Relation) {
    r.kind == 1 && r.i == i && 0 <= r.j < m && i < |ids| && m <= |ids| && ids[i] == ids[r.j]
  }

  lemma {:induction false} RowUpToMembers<T>(ids: seq<T>, i: nat, m: nat)
    requires i < |ids| && m <= |ids|
    ensures forall r :: r in RowUpTo(ids, i, m) <==> InRow(ids, i, m, r)
  {
    if m > 0 {
      RowUpToMembers(ids, i, m - 1);
      RowStep(ids, i, m, RowUpTo(ids, i, m - 1));
    }
  }

  /** One column more: the induction step of `RowUpToMembers`, stated on a
      plain sequence. */
  lemma RowStep<T>(ids: seq<T>, i: nat, m: nat, prev: seq<Relation>)
    requires i < |ids| && 0 < m <= |ids|
    requires forall r :: r in prev <==> InRow(ids, i, m - 1, r)
    ensures forall r :: r in prev + (if ids[i] == ids[m - 1] then [Relation(1, i, m - 1)] else []) <==> InRow(ids, i, m, r)
  {
  }

  /** Relation r relates one of nodes 0 .. m-1 to a node of the same article. */
  predicate SameArticle<T(==)>(ids: seq<T>, m: nat, r: Relation) {
    r.kind == 1 && 0 <= r.i < m && 0 <= r.j < |ids| && m <= |ids| && ids[r.i] == ids[r.j]
  }

  lemma {:induction false} RowsUpToMembers<T>(ids: seq<T>, m: nat)
    requires m <= |ids|
    ensures forall r :: r in RowsUpTo(ids, m) <==> SameArticle(ids, m, r)
  {
    if m > 0 {
      RowsUpToMembers(ids, m - 1);
      RowUpToMembers(ids, m - 1, |ids|);
      RowsStep(ids, m, RowsUpTo(ids, m - 1), RowUpTo(ids, m - 1, |ids|));
    }
  }

  /** One row more: the induction step of `RowsUpToMembers`, stated on
      plain sequences. */
  lemma RowsStep<T>(ids: seq<T>, m: nat, prev: seq<Relation>, row: seq<Relation>)
    requires 0 < m <= |ids|
    requires forall r :: r in prev <==> SameArticle(ids, m - 1, r)
    requires forall r :: r in row <==> InRow(ids, m - 1, |ids|, r)
    ensures forall r :: r in prev + row <==> SameArticle(ids, m, r)
  {
  }

  /** The relation (1, i, j) is present iff nodes i and j have the same
      effective id; so every node is related to itself, and (1, i, j) is
      present iff (1, j, i) is. */
  lemma RelationsExactly<T>(ids: seq<T>, i: int, j: int)
    requires 0 <= i < |ids| && 0 <= j < |ids|
    ensures Relation(1, i, j) in Relations(ids) <==> ids[i] == ids[j]
    ensures Relation(1, i, i) in Relations(ids)
    ensures Relation(1, i, j) in Relations(ids) <==> Relation(1, j, i) in Relations(ids)
  {
    RowsUpToMembers(ids, |ids|);
    assert SameArticle(ids, |ids|, Relation(1, i, i));
  }

  /** Every relation carries kind 1 and two node indices. */
  lemma RelationsShape<T>(ids: seq<T>, k: int)
    requires 0 <= k < |Relations(ids)|
    ensures var r := Relations(ids)[k]; r.kind == 1 && 0 <= r.i < |ids| && 0 <= r.j < |ids| && ids[r.i] == ids[r.j]
  {
    RowsUpToMembers(ids, |ids|);
    assert Relations(ids)[k] in Relations(ids);
  }

  lemma {:induction false} RowUpToRowMajor<T>(ids: seq<T>, i: nat, m: nat)
    requires i < |ids| && m <= |ids|
    ensures RowMajor(RowUpTo(ids, i, m))
  {
    if m > 0 {
      RowUpToRowMajor(ids, i, m - 1);
      var prev := RowUpTo(ids, i, m - 1);
      RowUpToMembers(ids, i, m - 1);
      assert forall k :: 0 <= k < |prev| ==> prev[k] in prev;
      assert forall k :: 0 <= k < |prev| ==> InRow(ids, i, m - 1, prev[k]);
    }
  }

  /** Rows before row t followed by row t stay in row-major order. */
  lemma RowMajorConcat(a: seq<Relation>, b: seq<Relation>, t: int)
    requires RowMajor(a) && RowMajor(b)
    requires forall k :: 0 <= k < |a| ==> a[k].i < t
    requires forall k :: 0 <= k < |b| ==> b[k].i == t
    ensures RowMajor(a + b)
  {
    forall k, l | 0 <= k < l < |a + b|
      ensures Before((a + b)[k], (a + b)[l])
    {
      if l < |a| {
        assert (a + b)[k] == a[k] && (a + b)[l] == a[l];
      } else if k >= |a| {
        assert (a + b)[k] == b[k - |a|] && (a + b)[l] == b[l - |a|];
      } else {
        assert (a + b)[k] == a[k] && (a + b)[l] == b[l - |a|];
      }
    }
  }

  lemma RowsUpToBound<T>(ids: seq<T>, m: nat)
    requires m <= |ids|
    ensures forall k :: 0 <= k < |RowsUpTo(ids, m)| ==> RowsUpTo(ids, m)[k].i < m
  {
    RowsUpToMembers(ids, m);
    assert forall k :: 0 <= k < |RowsUpTo(ids, m)| ==> RowsUpTo(ids, m)[k] in RowsUpTo(ids, m);
  }

  lemma RowUpToSource<T>(ids: seq<T>, i: nat, m: nat)
    requires i < |ids| && m <= |ids|
    ensures forall k :: 0 <= k < |RowUpTo(ids, i, m)| ==> RowUpTo(ids, i, m)[k].i == i
  {
    RowUpToMembers(ids, i, m);
    assert forall k :: 0 <= k < |RowUpTo(ids, i, m)| ==> RowUpTo(ids, i, m)[k] in RowUpTo(ids, i, m);
  }

  lemma {:induction false} RowsUpToRowMajor<T>(ids: seq<T>, m: nat)
    requires m <= |ids|
    ensures RowMajor(RowsUpTo(ids, m))
  {
    if m > 0 {
      var prev, row := RowsUpTo(ids, m - 1), RowUpTo(ids, m - 1, |ids|);
      RowsUpToRowMajor(ids, m - 1);
      RowUpToRowMajor(ids, m - 1, |ids|);
      RowsUpToBound(ids, m - 1);
      RowUpToSource(ids, m - 1, |ids|);
      RowMajorConcat(prev, row, m - 1);
      assert RowsUpTo(ids, m) == prev + row;
    }
  }

  /** The relations come in row-major order, without repetition. */
  lemma RelationsRowMajor<T>(ids: seq<T>)
    ensures RowMajor(Relations(ids))
  {
    RowsUpToRowMajor(ids, |ids|);
  }

  // ---------------------------------------------------------------------
  // The loops of `build_input_and_target`

  /** The regions' effective ids, in node order. */
  function EffectiveIds(regions: seq<TextRegion>, articles: map<string, ArticleRef>): (ids: seq<ArticleRef>)
    requires forall k :: 0 <= k < |regions| ==> regions[k].id in articles
    ensures |ids| == |regions|
    ensures forall k :: 0 <= k < |regions| ==> ids[k] == Effective(articles[regions[k].id])
  {
    seq(|regions|, k requires 0 <= k < |regions| => Effective(articles[regions[k].id]))
  }

  /** The first loop: one effective id per region.  A region must have an
      entry in the article map (the source raises otherwise). */
  method CollectArticleIds(regions: seq<TextRegion>, articles: map<string, ArticleRef>) returns (ids: seq<ArticleRef>)
    requires forall k :: 0 <= k < |regions| ==> regions[k].id in articles
    ensures ids == EffectiveIds(regions, articles)
  {
    ids := [];
    var k := 0;
    while k < |regions|
      invariant 0 <= k <= |regions|
      invariant |ids| == k
      invariant forall t :: 0 <= t < k ==> ids[t] == Effective(articles[regions[t].id])
    {
      var refs := articles[regions[k].id];
      if refs.Multiple? && |refs.ids| > 1 {
        ids := ids + [Single(refs.ids[0])];
      } else {
        ids := ids + [refs];
      }
      k := k + 1;
    }
  }

  /** The inner loop: the relations of node i. */
  method RelationRow<T(==)>(ids: seq<T>, i: nat, acc: seq<Relation>) returns (out: seq<Relation>)
    requires i < |ids|
    ensures out == acc + RowUpTo(ids, i, |ids|)
  {
    out := acc;
    var j := 0;
    while j < |ids|
      invariant 0 <= j <= |ids|
      invariant out == acc + RowUpTo(ids, i, j)
    {
      if ids[i] == ids[j] {
        out := out + [Relation(1, i, j)];
      }
      j := j + 1;
    }
  }

  /** The two loops over the effective ids. */
  method RelationsOf<T(==)>(ids: seq<T>) returns (relations: seq<Relation>)
    ensures relations == Relations(ids)
  {
    relations := [];
    var i := 0;
    while i < |ids|
      invariant 0 <= i <= |ids|
      invariant relations == RowsUpTo(ids, i)
    {
      relations := RelationRow(ids, i, relations);
      i := i + 1;
    }
  }

  /** The ground truth of a page and the number of relations. */
  method GroundTruthRelations(regions: seq<TextRegion>, articles: map<string, ArticleRef>)
      returns (relations: seq<Relation>, count: nat)
    requires forall k :: 0 <= k < |regions| ==> regions[k].id in articles
    ensures relations == Relations(EffectiveIds(regions, articles))
    ensures count == |relations|
  {
    var ids := CollectArticleIds(regions, articles);
    relations := RelationsOf(ids);
    count := |relations|;
  }
}
