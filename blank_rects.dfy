/** `convert_blank_article_rects_by_rects` and `_by_polys`: the "blank"
    rectangles of a page that intersect exactly one article's target
    polygons are moved to that article.  The rectangles are values of any
    type `R`; their vertices, the polygon clip test, the bounding box and the
    convex hull are computations of a geometry library, passed in. */
module BlankRects {
  import opened Wrappers
  import opened Geometry

  /** A key of the article dictionaries: an article id, `None`, or "blank". */
  type Key = Option<string>

  const Blank: Key := Some("blank")

  /** The `method` argument: 'bb' or 'ch'. */
  datatype HullMethod = BoundingBoxes | ConvexHulls

  function ParseMethod(m: string): Option<HullMethod> {
    if m == "bb" then Some(BoundingBoxes) else if m == "ch" then Some(ConvexHulls) else None
  }

  datatype BlankOracles<!R> = BlankOracles(
    vertices: R -> seq<Point>, clip: (seq<Point>, seq<Point>) -> bool,
    boundingBox: seq<Point> -> seq<Point>, convexHull: seq<Point> -> seq<Point>)

  /** The situations in which the conversions raise. */
  datatype BlankError =
    | UnsupportedMethod   // `method` is neither 'bb' nor 'ch'
    | NoBlankList         // the rectangle dictionary has no "blank" entry
    | MissingArticle      // a polygon key has no list in the rectangle dictionary

  function Hull<R>(m: HullMethod, o: BlankOracles<R>, ps: seq<Point>): seq<Point> {
    if m == BoundingBoxes then o.boundingBox(ps) else o.convexHull(ps)
  }

  /** A list of rectangles shared between the input and the output
      dictionary. */
  class RectList<R> {
    var items: seq<R>

    constructor (rs: seq<R>)
      ensures items == rs
    {
      items := rs;
    }

    method Append(r: R)
      modifies this
      ensures items == old(items) + [r]
    {
      items := items + [r];
    }
  }

  /** The current contents of a dictionary of rectangle lists. */
  function Contents<R>(ars: map<Key, RectList<R>>): (c: map<Key, seq<R>>)
    reads ars.Values
    ensures c.Keys == ars.Keys
    ensures forall k :: k in ars ==> c[k] == ars[k].items
  {
    map k | k in ars :: ars[k].items
  }

  // ---------------------------------------------------------------------
  // The target polygons

  /** The vertices of a list of rectangles, one after the other. */
  function Points<R>(rs: seq<R>, vertices: R -> seq<Point>): seq<Point> {
    if rs == [] then [] else Points(rs[..|rs| - 1], vertices) + vertices(rs[|rs| - 1])
  }

  lemma {:induction false} PointsMembers<R>(rs: seq<R>, vertices: R -> seq<Point>, p: Point)
    ensures p in Points(rs, vertices) <==> exists i :: 0 <= i < |rs| && p in vertices(rs[i])
  {
    if rs != [] {
      var front := rs[..|rs| - 1];
      PointsMembers(front, vertices, p);
      assert forall i :: 0 <= i < |front| ==> front[i] == rs[i];
      if p in vertices(rs[|rs| - 1]) {
        assert 0 <= |rs| - 1 < |rs|;
      }
    }
  }

  /** The target polygons: one per article of the rectangle dictionary
      (`by_rects`), or one per surrounding polygon of an article (`by_polys`). */
  datatype Targets = ByRect(hulls: map<Key, seq<Point>>) | ByPoly(hullLists: map<Key, seq<seq<Point>>>)

  function TargetKeys(t: Targets): set<Key> {
    if t.ByRect? then t.hulls.Keys else t.hullLists.Keys
  }

  /** Keys that never receive rectangles. */
  predicate Skipped(k: Key) {
    k == Blank || k == None
  }

  /** `poly_dict` of `by_rects`: the hull of all vertices of each article's
      rectangles. */
  function RectTargets<R>(contents: map<Key, seq<R>>, m: HullMethod, o: BlankOracles<R>): (t: Targets)
    ensures t.ByRect? && t.hulls.Keys == contents.Keys - {Blank, None}
    ensures forall k :: k in t.hulls ==> t.hulls[k] == Hull(m, o, Points(contents[k], o.vertices))
  {
    ByRect(map k | k in contents && !Skipped(k) :: Hull(m, o, Points(contents[k], o.vertices)))
  }

  /** `poly_dict` of `by_polys`: the hull of each surrounding polygon. */
  function PolyTargets<R>(asp: map<Key, seq<seq<Point>>>, m: HullMethod, o: BlankOracles<R>): (t: Targets)
    ensures t.ByPoly? && t.hullLists.Keys == asp.Keys - {Blank, None}
    ensures forall k :: k in t.hullLists ==>
      |t.hullLists[k]| == |asp[k]| && forall j :: 0 <= j < |asp[k]| ==> t.hullLists[k][j] == Hull(m, o, asp[k][j])
  {
    ByPoly(map k | k in asp && !Skipped(k) :: Hulls(asp[k], m, o))
  }

  function Hulls<R>(ps: seq<seq<Point>>, m: HullMethod, o: BlankOracles<R>): (hs: seq<seq<Point>>)
    ensures |hs| == |ps| && forall j :: 0 <= j < |ps| ==> hs[j] == Hull(m, o, ps[j])
  {
    seq(|ps|, j requires 0 <= j < |ps| => Hull(m, o, ps[j]))
  }

  // ---------------------------------------------------------------------
  // Which article a blank rectangle goes to

  /** Some target polygon of article `k` clips rectangle `r`. */
  predicate Clips<R>(o: BlankOracles<R>, t: Targets, r: R, k: Key)
    requires k in TargetKeys(t)
  {
    match t
    case ByRect(h) => o.clip(o.vertices(r), h[k])
    case ByPoly(h) => exists j :: 0 <= j < |h[k]| && o.clip(o.vertices(r), h[k][j])
  }

  /** The articles whose polygons clip the rectangle. */
  function Hits<R>(o: BlankOracles<R>, t: Targets, r: R): set<Key> {
    set k | k in TargetKeys(t) && Clips(o, t, r, k)
  }

  lemma SingletonOf(s: set<Key>, k: Key)
    requires |s| == 1 && k in s
    ensures s == {k}
  {
    var rest := s - {k};
    assert |rest| == 0;
    assert rest == {};
  }

  /** The article a blank rectangle moves to: the one article that clips it,
      if there is exactly one. */
  ghost function Target<R>(o: BlankOracles<R>, t: Targets, r: R): (tk: Option<Key>)
    ensures tk.Some? <==> |Hits(o, t, r)| == 1
    ensures tk.Some? ==> Hits(o, t, r) == {tk.value}
  {
    var hits := Hits(o, t, r);
    if |hits| == 1 then
      var k :| k in hits;
      SingletonOf(hits, k);
      Some(k)
    else None
  }

  lemma {:induction false} DistinctCard(xs: seq<Key>)
    requires forall i, j :: 0 <= i < j < |xs| ==> xs[i] != xs[j]
    ensures |set k | k in xs| == |xs|
  {
    if xs != [] {
      var front := xs[..|xs| - 1];
      DistinctCard(front);
      var last := xs[|xs| - 1];
      assert (set k | k in xs) == (set k | k in front) + {last} by {
        assert xs == front + [last];
      }
      assert last !in front;
    }
  }

  /** The intersection loop of `by_rects`: each key at most once in
      `intersections`, the rectangle moves when there is exactly one. */
  method RectTarget<R>(o: BlankOracles<R>, hulls: map<Key, seq<Point>>, r: R) returns (target: Option<Key>)
    ensures target == Target(o, ByRect(hulls), r)
  {
    var intersections: seq<Key> := [];
    var todo := hulls.Keys;
    while todo != {}
      invariant todo <= hulls.Keys
      invariant forall k :: k in intersections <==> k in hulls && k !in todo && o.clip(o.vertices(r), hulls[k])
      invariant forall i, j :: 0 <= i < j < |intersections| ==> intersections[i] != intersections[j]
      decreases |todo|
    {
      ghost var pick := NonEmpty(todo);
      var key :| key in todo;
      if o.clip(o.vertices(r), hulls[key]) {
        intersections := intersections + [key];
      }
      todo := todo - {key};
    }
    ghost var hits := Hits(o, ByRect(hulls), r);
    assert (set k | k in intersections) == hits;
    DistinctCard(intersections);
    if |intersections| == 1 {
      SingletonOf(hits, intersections[0]);
      target := Some(intersections[0]);
    } else {
      target := None;
    }
  }

  /** The intersection loop of `by_polys`: a key once per clipping polygon;
      the rectangle moves when the set of keys has exactly one element. */
  method PolyTarget<R>(o: BlankOracles<R>, hullLists: map<Key, seq<seq<Point>>>, r: R) returns (target: Option<Key>)
    ensures target == Target(o, ByPoly(hullLists), r)
  {
    var intersections: seq<Key> := [];
    var todo := hullLists.Keys;
    while todo != {}
      invariant todo <= hullLists.Keys
      invariant forall k :: k in intersections <==> k in hullLists && k !in todo && Clips(o, ByPoly(hullLists), r, k)
      decreases |todo|
    {
      ghost var pick := NonEmpty(todo);
      var key :| key in todo;
      intersections := PolygonHits(o, hullLists, r, key, intersections);
      todo := todo - {key};
    }
    ghost var hits := Hits(o, ByPoly(hullLists), r);
    var keys := set k | k in intersections;
    assert keys == hits;
    if |keys| == 1 {
      SingletonOf(hits, intersections[0]);
      target := Some(intersections[0]);
    } else {
      target := None;
    }
  }

  /** The innermost loop of `by_polys`: the key once for each of its
      polygons that clips the rectangle. */
  method PolygonHits<R>(o: BlankOracles<R>, hullLists: map<Key, seq<seq<Point>>>, r: R, key: Key,
                        intersections: seq<Key>)
      returns (out: seq<Key>)
    requires key in hullLists
    ensures forall k :: k in out <==> k in intersections || (k == key && Clips(o, ByPoly(hullLists), r, key))
  {
    out := intersections;
    var polys := hullLists[key];
    var j := 0;
    while j < |polys|
      invariant 0 <= j <= |polys|
      invariant forall k :: k in out <==>
        k in intersections || (k == key && exists i :: 0 <= i < j && o.clip(o.vertices(r), polys[i]))
    {
      if o.clip(o.vertices(r), polys[j]) {
        out := out + [key];
      }
      j := j + 1;
    }
  }

  method TargetOf<R>(o: BlankOracles<R>, t: Targets, r: R) returns (target: Option<Key>)
    ensures target == Target(o, t, r)
  {
    match t
    case ByRect(h) =>
      target := RectTarget(o, h, r);
    case ByPoly(h) =>
      target := PolyTarget(o, h, r);
  }

  // ---------------------------------------------------------------------
  // The specification of the blank loop

  /** The rectangles that move, in blank-list order. */
  ghost function Moved<R>(o: BlankOracles<R>, t: Targets, bs: seq<R>): seq<R> {
    if bs == [] then []
    else Moved(o, t, bs[..|bs| - 1]) + (if Target(o, t, bs[|bs| - 1]).Some? then [bs[|bs| - 1]] else [])
  }

  /** The rectangles that stay blank, in blank-list order. */
  ghost function Remaining<R>(o: BlankOracles<R>, t: Targets, bs: seq<R>): seq<R> {
    if bs == [] then []
    else Remaining(o, t, bs[..|bs| - 1]) + (if Target(o, t, bs[|bs| - 1]).None? then [bs[|bs| - 1]] else [])
  }

  /** The rectangles that move to article `k`, in blank-list order. */
  ghost function MovedTo<R>(o: BlankOracles<R>, t: Targets, bs: seq<R>, k: Key): seq<R> {
    if bs == [] then []
    else MovedTo(o, t, bs[..|bs| - 1], k) + (if Target(o, t, bs[|bs| - 1]) == Some(k) then [bs[|bs| - 1]] else [])
  }

  /** What the blank loop appends to list `l`: the moved rectangles whose
      article's entry in `ars` is `l` (several keys may share a list). */
  ghost function AppendedTo<R>(o: BlankOracles<R>, t: Targets, bs: seq<R>, ars: map<Key, RectList<R>>, l: RectList<R>): seq<R> {
    if bs == [] then []
    else
      var target := Target(o, t, bs[|bs| - 1]);
      AppendedTo(o, t, bs[..|bs| - 1], ars, l)
        + (if target.Some? && target.value in ars && ars[target.value] == l then [bs[|bs| - 1]] else [])
  }

  /** The rectangle moves to an article without a list: the source raises. */
  ghost predicate Fails<R>(o: BlankOracles<R>, t: Targets, r: R, keys: set<Key>) {
    Target(o, t, r).Some? && Target(o, t, r).value !in keys
  }

  /** The index of the first rectangle that fails, or the length of the list. */
  ghost function FirstFailure<R>(o: BlankOracles<R>, t: Targets, bs: seq<R>, keys: set<Key>): (n: nat)
    ensures n <= |bs|
    ensures forall j :: 0 <= j < n ==> !Fails(o, t, bs[j], keys)
    ensures n < |bs| ==> Fails(o, t, bs[n], keys)
  {
    if bs == [] then 0
    else if Fails(o, t, bs[0], keys) then 0
    else
      var n := 1 + FirstFailure(o, t, bs[1..], keys);
      assert forall j :: 1 <= j < |bs| ==> bs[1..][j - 1] == bs[j];
      n
  }

  lemma FirstFailureUnique<R>(o: BlankOracles<R>, t: Targets, bs: seq<R>, keys: set<Key>, n: nat)
    requires n <= |bs|
    requires forall j :: 0 <= j < n ==> !Fails(o, t, bs[j], keys)
    requires n < |bs| ==> Fails(o, t, bs[n], keys)
    ensures n == FirstFailure(o, t, bs, keys)
  {
  }

  // ---------------------------------------------------------------------
  // Properties of the specification

  lemma {:induction false} MovedMembers<R>(o: BlankOracles<R>, t: Targets, bs: seq<R>, r: R)
    ensures r in Moved(o, t, bs) <==> r in bs && Target(o, t, r).Some?
  {
    if bs != [] {
      var front := bs[..|bs| - 1];
      MovedMembers(o, t, front, r);
      assert bs == front + [bs[|bs| - 1]];
    }
  }

  lemma {:induction false} RemainingMembers<R>(o: BlankOracles<R>, t: Targets, bs: seq<R>, r: R)
    ensures r in Remaining(o, t, bs) <==> r in bs && Target(o, t, r).None?
  {
    if bs != [] {
      var front := bs[..|bs| - 1];
      RemainingMembers(o, t, front, r);
      assert bs == front + [bs[|bs| - 1]];
    }
  }

  lemma {:induction false} MovedToMembers<R>(o: BlankOracles<R>, t: Targets, bs: seq<R>, k: Key, r: R)
    ensures r in MovedTo(o, t, bs, k) <==> r in bs && Target(o, t, r) == Some(k)
  {
    if bs != [] {
      var front := bs[..|bs| - 1];
      MovedToMembers(o, t, front, k, r);
      assert bs == front + [bs[|bs| - 1]];
    }
  }

  /** Moved and remaining rectangles together are the blank rectangles:
      nothing is lost and nothing is duplicated. */
  lemma {:induction false} MovedAndRemaining<R>(o: BlankOracles<R>, t: Targets, bs: seq<R>)
    ensures multiset(Moved(o, t, bs)) + multiset(Remaining(o, t, bs)) == multiset(bs)
  {
    if bs != [] {
      MovedAndRemaining(o, t, bs[..|bs| - 1]);
      MovedAndRemainingStep(o, t, bs);
    }
  }

  /** The induction step of `MovedAndRemaining`. */
  lemma MovedAndRemainingStep<R>(o: BlankOracles<R>, t: Targets, bs: seq<R>)
    requires bs != []
    requires var front := bs[..|bs| - 1];
      multiset(Moved(o, t, front)) + multiset(Remaining(o, t, front)) == multiset(front)
    ensures multiset(Moved(o, t, bs)) + multiset(Remaining(o, t, bs)) == multiset(bs)
  {
    var front, last := bs[..|bs| - 1], bs[|bs| - 1];
    assert bs == front + [last];
    SplitStep(Moved(o, t, front), Remaining(o, t, front), front, last, Moved(o, t, bs), Remaining(o, t, bs));
  }

  /** One rectangle more goes to exactly one of the two parts. */
  lemma SplitStep<R>(moved: seq<R>, remaining: seq<R>, front: seq<R>, last: R, moved': seq<R>, remaining': seq<R>)
    requires multiset(moved) + multiset(remaining) == multiset(front)
    requires (moved' == moved + [last] && remaining' == remaining) || (moved' == moved && remaining' == remaining + [last])
    ensures multiset(moved') + multiset(remaining') == multiset(front + [last])
  {
  }

  lemma MovedToOneArticle<R>(o: BlankOracles<R>, t: Targets, bs: seq<R>, k1: Key, k2: Key, r: R)
    requires r in MovedTo(o, t, bs, k1) && r in MovedTo(o, t, bs, k2)
    ensures k1 == k2
  {
    MovedToMembers(o, t, bs, k1, r);
    MovedToMembers(o, t, bs, k2, r);
  }

  /** An article that clips no blank rectangle alone receives nothing;
      neither do "blank" and `None`, which have no target polygons. */
  lemma {:induction false} MovedToNothing<R>(o: BlankOracles<R>, t: Targets, bs: seq<R>, k: Key)
    requires forall i :: 0 <= i < |bs| ==> Target(o, t, bs[i]) != Some(k)
    ensures MovedTo(o, t, bs, k) == []
  {
    if bs != [] {
      var front := bs[..|bs| - 1];
      assert forall i :: 0 <= i < |front| ==> front[i] == bs[i];
      MovedToNothing(o, t, front, k);
    }
  }

  lemma SkippedKeysReceiveNothing<R>(o: BlankOracles<R>, t: Targets, bs: seq<R>, k: Key)
    requires TargetKeys(t) * {Blank, None} == {}
    requires Skipped(k)
    ensures MovedTo(o, t, bs, k) == []
  {
    forall i | 0 <= i < |bs|
      ensures Target(o, t, bs[i]) != Some(k)
    {
    }
    MovedToNothing(o, t, bs, k);
  }

  /** With a list per article, an article's list receives exactly the
      rectangles that move to it. */
  lemma {:induction false} AppendedToOwnList<R>(o: BlankOracles<R>, t: Targets, bs: seq<R>,
                                                ars: map<Key, RectList<R>>, k: Key)
    requires k in ars
    requires forall k1, k2 :: k1 in ars && k2 in ars && k1 != k2 ==> ars[k1] != ars[k2]
    ensures AppendedTo(o, t, bs, ars, ars[k]) == MovedTo(o, t, bs, k)
  {
    if bs != [] {
      AppendedToOwnList(o, t, bs[..|bs| - 1], ars, k);
    }
  }

  /** A list no target article uses receives nothing; in particular the
      blank list is not appended to. */
  lemma {:induction false} AppendedToUnused<R>(o: BlankOracles<R>, t: Targets, bs: seq<R>,
                                               ars: map<Key, RectList<R>>, l: RectList<R>)
    requires forall k :: k in TargetKeys(t) && k in ars ==> ars[k] != l
    ensures AppendedTo(o, t, bs, ars, l) == []
  {
    if bs != [] {
      AppendedToUnused(o, t, bs[..|bs| - 1], ars, l);
      var target := Target(o, t, bs[|bs| - 1]);
      if target.Some? {
        assert target.value in Hits(o, t, bs[|bs| - 1]);
      }
    }
  }

  /** In `by_rects` every target article has a list, so the loop never
      fails. */
  lemma RectTargetsNeverFail<R>(contents: map<Key, seq<R>>, m: HullMethod, o: BlankOracles<R>, bs: seq<R>)
    ensures FirstFailure(o, RectTargets(contents, m, o), bs, contents.Keys) == |bs|
  {
    var t := RectTargets(contents, m, o);
    forall j | 0 <= j < |bs|
      ensures !Fails(o, t, bs[j], contents.Keys)
    {
      var target := Target(o, t, bs[j]);
      if target.Some? {
        assert target.value in Hits(o, t, bs[j]);
      }
    }
    FirstFailureUnique(o, t, bs, contents.Keys, |bs|);
  }

  // ---------------------------------------------------------------------
  // The rebuilt blank list

  /** `[ar for ar in blanks if ar not in to_remove]`. */
  function Without<R(==)>(bs: seq<R>, rm: seq<R>): seq<R> {
    if bs == [] then []
    else Without(bs[..|bs| - 1], rm) + (if bs[|bs| - 1] !in rm then [bs[|bs| - 1]] else [])
  }

  /** Removing the moved rectangles leaves the remaining ones in order. */
  lemma {:induction false} WithoutMoved<R>(o: BlankOracles<R>, t: Targets, bs: seq<R>, rm: seq<R>)
    requires forall i :: 0 <= i < |bs| ==> (bs[i] in rm <==> Target(o, t, bs[i]).Some?)
    ensures Without(bs, rm) == Remaining(o, t, bs)
  {
    if bs != [] {
      var front := bs[..|bs| - 1];
      assert forall i :: 0 <= i < |front| ==> front[i] == bs[i];
      WithoutMoved(o, t, front, rm);
    }
  }

  method Rebuild<R(==)>(blanks: seq<R>, toRemove: seq<R>) returns (kept: seq<R>)
    ensures kept == Without(blanks, toRemove)
  {
    kept := [];
    var i := 0;
    while i < |blanks|
      invariant 0 <= i <= |blanks|
      invariant kept == Without(blanks[..i], toRemove)
    {
      assert blanks[..i + 1][..i] == blanks[..i];
      if blanks[i] !in toRemove {
        kept := kept + [blanks[i]];
      }
      i := i + 1;
    }
    assert blanks[..i] == blanks;
  }

  // ---------------------------------------------------------------------
  // The blank loop

  /** The lists of the dictionary hold what they held plus what the loop has
      appended for the rectangles `bs`. */
  ghost predicate ListsGrown<R>(o: BlankOracles<R>, t: Targets, bs: seq<R>, ars: map<Key, RectList<R>>,
                                before: map<Key, seq<R>>)
    reads ars.Values
  {
    forall k :: k in ars && k in before ==> ars[k].items == before[k] + AppendedTo(o, t, bs, ars, ars[k])
  }

  /** The state of the blank loop after the first `i` rectangles: none of
      them failed, the lists have grown by what they received and
      `toRemove` holds the rectangles moved so far. */
  ghost predicate Progress<R>(o: BlankOracles<R>, t: Targets, bs: seq<R>, i: nat, ars: map<Key, RectList<R>>,
                              before: map<Key, seq<R>>, toRemove: seq<R>)
    reads ars.Values
  {
    && i <= |bs|
    && (forall j :: 0 <= j < i ==> !Fails(o, t, bs[j], ars.Keys))
    && ListsGrown(o, t, bs[..i], ars, before)
    && toRemove == Moved(o, t, bs[..i])
  }

  /** One rectangle of the blank loop. */
  method MoveOne<R>(o: BlankOracles<R>, t: Targets, bs: seq<R>, i: nat, ars: map<Key, RectList<R>>,
                    ghost before: map<Key, seq<R>>, toRemove: seq<R>)
      returns (failed: bool, out: seq<R>)
    requires i < |bs|
    requires Progress(o, t, bs, i, ars, before, toRemove)
    modifies ars.Values
    ensures failed == Fails(o, t, bs[i], ars.Keys)
    ensures failed ==> Progress(o, t, bs, i, ars, before, toRemove) && out == toRemove
    ensures !failed ==> Progress(o, t, bs, i + 1, ars, before, out)
  {
    assert bs[..i + 1][..i] == bs[..i];
    var r := bs[i];
    assert bs[..i + 1][i] == r;
    var target := TargetOf(o, t, r);
    if target.None? {
      return false, toRemove;
    }
    if target.value !in ars {
      return true, toRemove;
    }
    var l := ars[target.value];
    l.Append(r);
    out := toRemove + [r];
    failed := false;
  }

  /** Where the blank loop stops: at the first failure, or at the end. */
  lemma ProgressStops<R>(o: BlankOracles<R>, t: Targets, bs: seq<R>, i: nat, ars: map<Key, RectList<R>>,
                         before: map<Key, seq<R>>, toRemove: seq<R>)
    requires Progress(o, t, bs, i, ars, before, toRemove)
    requires i < |bs| ==> Fails(o, t, bs[i], ars.Keys)
    ensures var stop := FirstFailure(o, t, bs, ars.Keys);
      && stop == i
      && ListsGrown(o, t, bs[..stop], ars, before)
      && toRemove == Moved(o, t, bs[..stop])
  {
    FirstFailureUnique(o, t, bs, ars.Keys, i);
  }

  /** The loop over the blank rectangles: it stops at the first rectangle
      whose article has no list. */
  method MoveBlanks<R>(o: BlankOracles<R>, t: Targets, bs: seq<R>, ars: map<Key, RectList<R>>,
                       ghost before: map<Key, seq<R>>)
      returns (ok: bool, toRemove: seq<R>)
    requires before == Contents(ars)
    modifies ars.Values
    ensures var stop := FirstFailure(o, t, bs, ars.Keys);
      && (ok <==> stop == |bs|)
      && ListsGrown(o, t, bs[..stop], ars, before)
      && toRemove == Moved(o, t, bs[..stop])
  {
    toRemove := [];
    var i := 0;
    while i < |bs|
      invariant Progress(o, t, bs, i, ars, before, toRemove)
    {
      var failed;
      failed, toRemove := MoveOne(o, t, bs, i, ars, before, toRemove);
      if failed {
        ProgressStops(o, t, bs, i, ars, before, toRemove);
        return false, toRemove;
      }
      i := i + 1;
    }
    ProgressStops(o, t, bs, i, ars, before, toRemove);
    ok := true;
  }

  // ---------------------------------------------------------------------
  // The two conversions

  /** The blank list is used by no article that can receive rectangles. */
  predicate BlankUnshared<R>(ars: map<Key, RectList<R>>, targetKeys: set<Key>) {
    Blank in ars ==> forall k :: k in targetKeys && k in ars ==> ars[k] != ars[Blank]
  }

  /** The shallow copy with its new blank list. */
  ghost predicate Converted<R>(out: map<Key, RectList<R>>, ars: map<Key, RectList<R>>, remaining: seq<R>)
    reads out.Values
  {
    && out.Keys == ars.Keys
    && Blank in out
    && (forall k :: k in ars && k != Blank ==> out[k] == ars[k])
    && out[Blank].items == remaining
  }

  /** The steps the two conversions share, once the target polygons are
      built. */
  method Redistribute<R(==)>(ars: map<Key, RectList<R>>, o: BlankOracles<R>, t: Targets)
      returns (r: Result<map<Key, RectList<R>>, BlankError>)
    requires Blank !in TargetKeys(t)
    requires BlankUnshared(ars, TargetKeys(t))
    modifies ars.Values
    ensures Blank !in ars ==> r == Failure(NoBlankList) && unchanged(ars.Values)
    ensures Blank in ars ==>
      var bs, stop := old(ars[Blank].items), FirstFailure(o, t, old(ars[Blank].items), ars.Keys);
      && ListsGrown(o, t, bs[..stop], ars, old(Contents(ars)))
      && ars[Blank].items == bs
      && (r.Success? <==> stop == |bs|)
      && (r.Failure? ==> r.error == MissingArticle)
      && (r.Success? ==> Converted(r.value, ars, Remaining(o, t, bs)) && fresh(r.value[Blank]))
  {
    if Blank !in ars {
      return Failure(NoBlankList);
    }
    var blankList := ars[Blank];
    var bs := blankList.items;
    var ok, toRemove := MoveBlanks(o, t, bs, ars, Contents(ars));
    ghost var stop := FirstFailure(o, t, bs, ars.Keys);
    AppendedToUnused(o, t, bs[..stop], ars, blankList);
    if !ok {
      return Failure(MissingArticle);
    }
    assert bs[..stop] == bs;
    forall i | 0 <= i < |bs|
      ensures bs[i] in toRemove <==> Target(o, t, bs[i]).Some?
    {
      MovedMembers(o, t, bs, bs[i]);
    }
    WithoutMoved(o, t, bs, toRemove);
    var kept := Rebuild(bs, toRemove);
    var newBlank := new RectList(kept);
    r := Success(ars[Blank := newBlank]);
  }

  /** `convert_blank_article_rects_by_rects`: a blank rectangle moves to the
      one article whose bounding box or convex hull (over all its
      rectangles' vertices) clips it.  The article lists are those of the
      input, appended to in place; the blank list is a new one. */
  method ConvertBlankArticleRectsByRects<R(==)>(ars: map<Key, RectList<R>>, hullMethod: string, o: BlankOracles<R>)
      returns (r: Result<map<Key, RectList<R>>, BlankError>)
    requires BlankUnshared(ars, ars.Keys - {Blank, None})
    modifies ars.Values
    ensures ParseMethod(hullMethod).None? ==> r == Failure(UnsupportedMethod) && unchanged(ars.Values)
    ensures ParseMethod(hullMethod).Some? && Blank !in ars ==> r == Failure(NoBlankList) && unchanged(ars.Values)
    ensures ParseMethod(hullMethod).Some? && Blank in ars ==>
      var t, bs := RectTargets(old(Contents(ars)), ParseMethod(hullMethod).value, o), old(ars[Blank].items);
      && r.Success?
      && ListsGrown(o, t, bs, ars, old(Contents(ars)))
      && ars[Blank].items == bs
      && Converted(r.value, ars, Remaining(o, t, bs)) && fresh(r.value[Blank])
  {
    var m := ParseMethod(hullMethod);
    if m.None? {
      return Failure(UnsupportedMethod);
    }
    var hulls := RectHulls(Contents(ars), m.value, o);
    var t := ByRect(hulls);
    if Blank in ars {
      RectTargetsNeverFail(Contents(ars), m.value, o, ars[Blank].items);
      assert ars[Blank].items[..|ars[Blank].items|] == ars[Blank].items;
    }
    r := Redistribute(ars, o, t);
  }

  /** The `poly_dict` loop of `by_rects`, over the lists' contents. */
  method RectHulls<R>(contents: map<Key, seq<R>>, m: HullMethod, o: BlankOracles<R>)
      returns (hulls: map<Key, seq<Point>>)
    ensures ByRect(hulls) == RectTargets(contents, m, o)
  {
    hulls := map[];
    var todo := contents.Keys;
    while todo != {}
      invariant todo <= contents.Keys
      invariant hulls.Keys == contents.Keys - todo - {Blank, None}
      invariant forall k :: k in hulls ==> hulls[k] == Hull(m, o, Points(contents[k], o.vertices))
      decreases |todo|
    {
      ghost var pick := NonEmpty(todo);
      var key :| key in todo;
      todo := todo - {key};
      if Skipped(key) {
        continue;
      }
      var points := ArticlePoints(contents[key], o.vertices);
      hulls := hulls[key := Hull(m, o, points)];
    }
    assert hulls == RectTargets(contents, m, o).hulls;
  }

  /** `article_point_set += ar.get_vertices()` over an article's rectangles. */
  method ArticlePoints<R>(rs: seq<R>, vertices: R -> seq<Point>) returns (points: seq<Point>)
    ensures points == Points(rs, vertices)
  {
    points := [];
    var i := 0;
    while i < |rs|
      invariant 0 <= i <= |rs|
      invariant points == Points(rs[..i], vertices)
    {
      assert rs[..i + 1][..i] == rs[..i];
      points := points + vertices(rs[i]);
      i := i + 1;
    }
    assert rs[..i] == rs;
  }

  /** The `poly_dict` loop of `by_polys`. */
  method PolyHulls<R>(asp: map<Key, seq<seq<Point>>>, m: HullMethod, o: BlankOracles<R>)
      returns (hullLists: map<Key, seq<seq<Point>>>)
    ensures ByPoly(hullLists) == PolyTargets(asp, m, o)
  {
    hullLists := map[];
    var todo := asp.Keys;
    while todo != {}
      invariant todo <= asp.Keys
      invariant hullLists.Keys == asp.Keys - todo - {Blank, None}
      invariant forall k :: k in hullLists ==> hullLists[k] == Hulls(asp[k], m, o)
      decreases |todo|
    {
      ghost var pick := NonEmpty(todo);
      var key :| key in todo;
      todo := todo - {key};
      if Skipped(key) {
        continue;
      }
      var polys := asp[key];
      var hs: seq<seq<Point>> := [];
      var j := 0;
      while j < |polys|
        invariant 0 <= j <= |polys|
        invariant hs == Hulls(polys[..j], m, o)
      {
        hs := hs + [Hull(m, o, polys[j])];
        j := j + 1;
      }
      assert polys[..j] == polys;
      hullLists := hullLists[key := hs];
    }
    assert hullLists == PolyTargets(asp, m, o).hullLists;
  }

  /** `convert_blank_article_rects_by_polys`: a blank rectangle moves to the
      one article one of whose surrounding polygons' bounding box or convex
      hull clips it (several polygons of one article count once).  An
      article with polygons but without a rectangle list raises when a
      rectangle moves to it, after the earlier rectangles have been moved. */
  method ConvertBlankArticleRectsByPolys<R(==)>(ars: map<Key, RectList<R>>, asp: map<Key, seq<seq<Point>>>,
                                                 hullMethod: string, o: BlankOracles<R>)
      returns (r: Result<map<Key, RectList<R>>, BlankError>)
    requires BlankUnshared(ars, asp.Keys - {Blank, None})
    modifies ars.Values
    ensures ParseMethod(hullMethod).None? ==> r == Failure(UnsupportedMethod) && unchanged(ars.Values)
    ensures ParseMethod(hullMethod).Some? && Blank !in ars ==> r == Failure(NoBlankList) && unchanged(ars.Values)
    ensures ParseMethod(hullMethod).Some? && Blank in ars ==>
      var t, bs := PolyTargets(asp, ParseMethod(hullMethod).value, o), old(ars[Blank].items);
      var stop := FirstFailure(o, t, bs, ars.Keys);
      && ListsGrown(o, t, bs[..stop], ars, old(Contents(ars)))
      && ars[Blank].items == bs
      && (r.Success? <==> stop == |bs|)
      && (r.Failure? ==> r.error == MissingArticle)
      && (r.Success? ==> Converted(r.value, ars, Remaining(o, t, bs)) && fresh(r.value[Blank]))
  {
    var m := ParseMethod(hullMethod);
    if m.None? {
      return Failure(UnsupportedMethod);
    }
    var hullLists := PolyHulls(asp, m.value, o);
    r := Redistribute(ars, o, ByPoly(hullLists));
  }
}
