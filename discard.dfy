/** `discard_text_regions_and_lines`: regions without text and regions whose
    bounding box is too small are removed in place from the caller's list;
    the lines of the too-small ones are dropped from the line list. */
module Discard {
  import opened Geometry
  import opened Regions

  /** Width and height of the bounding box the polygon library computes for a
      region (`Polygon.get_bounding_box`, a library not part of this model). */
  datatype BoxSize = BoxSize(width: int, height: int)

  /** The smallest width and height a kept region's box may have. */
  const MinSize := 10

  predicate TooSmall(b: BoxSize) { b.width < MinSize || b.height < MinSize }

  /** A region survives: it has a line with text and a large enough box. */
  predicate Kept(r: TextRegion, size: Polygon -> BoxSize) {
    !NoText(r.lines) && !TooSmall(size(r.points))
  }

  /** A region removed for its size, whose lines are dropped as well. */
  predicate DroppedForSize(r: TextRegion, size: Polygon -> BoxSize) {
    !NoText(r.lines) && TooSmall(size(r.points))
  }

  /** The surviving regions, in their original order. */
  function Survivors(rs: seq<TextRegion>, size: Polygon -> BoxSize): (out: seq<TextRegion>)
    ensures |out| <= |rs|
  {
    if rs == [] then []
    else
      var last := rs[|rs| - 1];
      Survivors(rs[..|rs| - 1], size) + (if Kept(last, size) then [last] else [])
  }

  /** The ids of the lines of the regions removed for their size, in order. */
  function DroppedLineIds(rs: seq<TextRegion>, size: Polygon -> BoxSize): seq<string> {
    if rs == [] then []
    else
      var last := rs[|rs| - 1];
      DroppedLineIds(rs[..|rs| - 1], size) + (if DroppedForSize(last, size) then LineIds(last.lines) else [])
  }

  function LineIds(lines: seq<TextLine>): (ids: seq<string>)
    ensures |ids| == |lines|
    ensures forall i :: 0 <= i < |lines| ==> ids[i] == lines[i].id
  {
    seq(|lines|, i requires 0 <= i < |lines| => lines[i].id)
  }

  /** The lines whose id is not in `ids`, in order. */
  function WithoutIds(lines: seq<TextLine>, ids: seq<string>): (out: seq<TextLine>)
    ensures |out| <= |lines|
  {
    if lines == [] then []
    else
      var last := lines[|lines| - 1];
      WithoutIds(lines[..|lines| - 1], ids) + (if last.id in ids then [] else [last])
  }

  /** The line list `discard_text_regions_and_lines` returns: unchanged when
      the line list is empty or no region was dropped for its size. */
  function RemainingLines(rs: seq<TextRegion>, lines: seq<TextLine>, size: Polygon -> BoxSize): seq<TextLine> {
    var ids := if lines == [] then [] else DroppedLineIds(rs, size);
    if ids == [] then lines else WithoutIds(lines, ids)
  }

  // ---------------------------------------------------------------------
  // Properties of the specification

  /** Every survivor has a line with text and a box of at least 10 by 10,
      and the survivors are exactly the kept regions. */
  lemma {:induction false} SurvivorsMembers(rs: seq<TextRegion>, size: Polygon -> BoxSize, r: TextRegion)
    ensures r in Survivors(rs, size) <==> r in rs && Kept(r, size)
  {
    if rs != [] {
      var init := rs[..|rs| - 1];
      SurvivorsMembers(init, size, r);
      assert rs == init + [rs[|rs| - 1]];
    }
  }

  lemma SurvivorsValid(rs: seq<TextRegion>, size: Polygon -> BoxSize)
    ensures forall i :: 0 <= i < |Survivors(rs, size)| ==>
      var r := Survivors(rs, size)[i];
      !NoText(r.lines) && size(r.points).width >= 10 && size(r.points).height >= 10
  {
    forall i | 0 <= i < |Survivors(rs, size)|
      ensures Kept(Survivors(rs, size)[i], size)
    {
      SurvivorsMembers(rs, size, Survivors(rs, size)[i]);
    }
  }

  /** Filtering distributes over concatenation: the survivors of a list keep
      the relative order they had. */
  lemma {:induction false} SurvivorsConcat(s1: seq<TextRegion>, s2: seq<TextRegion>, size: Polygon -> BoxSize)
    ensures Survivors(s1 + s2, size) == Survivors(s1, size) + Survivors(s2, size)
    decreases |s2|
  {
    if s2 == [] {
      assert s1 + s2 == s1;
    } else {
      var n := |s2| - 1;
      assert (s1 + s2)[..|s1 + s2| - 1] == s1 + s2[..n];
      SurvivorsConcat(s1, s2[..n], size);
    }
  }

  /** Discarding twice discards nothing more. */
  lemma {:induction false} SurvivorsIdempotent(rs: seq<TextRegion>, size: Polygon -> BoxSize)
    ensures Survivors(Survivors(rs, size), size) == Survivors(rs, size)
  {
    if rs != [] {
      var init, last := rs[..|rs| - 1], rs[|rs| - 1];
      SurvivorsIdempotent(init, size);
      var k := if Kept(last, size) then [last] else [];
      SurvivorsConcat(Survivors(init, size), k, size);
      assert Survivors(k, size) == k by {
        if k != [] {
          assert k[..0] == [];
        }
      }
    }
  }

  /** A line is dropped only if a region removed for its size (one with text
      and a too-small box) holds a line with its id, and only when the line
      list is not empty. */
  lemma {:induction false} DroppedLineIdsMembers(rs: seq<TextRegion>, size: Polygon -> BoxSize, id: string)
    ensures id in DroppedLineIds(rs, size) <==>
      exists i, j :: 0 <= i < |rs| && 0 <= j < |rs[i].lines| && DroppedForSize(rs[i], size) && rs[i].lines[j].id == id
  {
    if rs != [] {
      var init, last := rs[..|rs| - 1], rs[|rs| - 1];
      DroppedLineIdsMembers(init, size, id);
      if id in DroppedLineIds(rs, size) && id !in DroppedLineIds(init, size) {
        var j :| 0 <= j < |last.lines| && LineIds(last.lines)[j] == id;
        assert rs[|rs| - 1].lines[j].id == id;
      }
      if exists i, j :: 0 <= i < |rs| && 0 <= j < |rs[i].lines| && DroppedForSize(rs[i], size) && rs[i].lines[j].id == id {
        var i, j :| 0 <= i < |rs| && 0 <= j < |rs[i].lines| && DroppedForSize(rs[i], size) && rs[i].lines[j].id == id;
        if i < |init| {
          assert init[i] == rs[i];
        } else {
          assert LineIds(last.lines)[j] == id;
        }
      }
    }
  }

  lemma {:induction false} WithoutIdsMembers(lines: seq<TextLine>, ids: seq<string>, l: TextLine)
    ensures l in WithoutIds(lines, ids) <==> l in lines && l.id !in ids
  {
    if lines != [] {
      var init := lines[..|lines| - 1];
      WithoutIdsMembers(init, ids, l);
      assert lines == init + [lines[|lines| - 1]];
    }
  }

  /** The remaining lines are the given ones less those of the regions
      removed for their size; with an empty line list nothing is collected. */
  lemma RemainingLinesMembers(rs: seq<TextRegion>, lines: seq<TextLine>, size: Polygon -> BoxSize, l: TextLine)
    ensures l in RemainingLines(rs, lines, size) <==>
      l in lines && !exists i, j :: 0 <= i < |rs| && 0 <= j < |rs[i].lines| && DroppedForSize(rs[i], size) && rs[i].lines[j].id == l.id
  {
    DroppedLineIdsMembers(rs, size, l.id);
    var ids := if lines == [] then [] else DroppedLineIds(rs, size);
    if ids != [] {
      WithoutIdsMembers(lines, ids, l);
    }
  }

  /** Regions dropped for having no text never take lines with them. */
  lemma {:induction false} NoneDroppedForSize(rs: seq<TextRegion>, size: Polygon -> BoxSize)
    requires forall i :: 0 <= i < |rs| ==> !DroppedForSize(rs[i], size)
    ensures DroppedLineIds(rs, size) == []
  {
    if rs != [] {
      var init := rs[..|rs| - 1];
      assert forall i :: 0 <= i < |init| ==> init[i] == rs[i];
      NoneDroppedForSize(init, size);
    }
  }

  lemma NoTextRegionsKeepLines(rs: seq<TextRegion>, lines: seq<TextLine>, size: Polygon -> BoxSize)
    requires forall i :: 0 <= i < |rs| ==> !DroppedForSize(rs[i], size)
    ensures RemainingLines(rs, lines, size) == lines
  {
    NoneDroppedForSize(rs, size);
  }

  // ---------------------------------------------------------------------
  // The in-place list

  function RemoveFirst(s: seq<TextRegion>, x: TextRegion): (out: seq<TextRegion>)
    ensures x in s ==> |out| == |s| - 1
    ensures x !in s ==> out == s
  {
    if s == [] then []
    else if s[0] == x then s[1..]
    else [s[0]] + RemoveFirst(s[1..], x)
  }

  /** Removing the first occurrence of a value that does not occur before
      position `p` removes position `p`. */
  lemma {:induction false} RemoveFirstAt(s: seq<TextRegion>, p: nat)
    requires p < |s| && s[p] !in s[..p]
    ensures RemoveFirst(s, s[p]) == s[..p] + s[p + 1..]
  {
    if p > 0 {
      assert s[0] in s[..p];
      assert s[1..][..p - 1] == s[..p][1..];
      RemoveFirstAt(s[1..], p - 1);
      assert s[1..][p - 1 + 1..] == s[p + 1..];
    }
  }

  /** The caller's list of text regions; `list.remove` changes it in place. */
  class RegionList {
    var items: seq<TextRegion>

    constructor(rs: seq<TextRegion>)
      ensures items == rs
    {
      items := rs;
    }

    /** `list.remove`: drops the first region equal to `r`. */
    method Remove(r: TextRegion)
      modifies this
      ensures items == RemoveFirst(old(items), r)
    {
      var i := 0;
      while i < |items| && items[i] != r
        invariant 0 <= i <= |items|
        invariant r !in items[..i]
      {
        i := i + 1;
      }
      if i < |items| {
        RemoveFirstAt(items, i);
        items := items[..i] + items[i + 1..];
      } else {
        assert items[..i] == items;
      }
    }
  }

  /** A discarded region has no copy among the survivors. */
  lemma NotKeptNotSurvivor(rs: seq<TextRegion>, size: Polygon -> BoxSize, r: TextRegion)
    requires !Kept(r, size)
    ensures r !in Survivors(rs, size)
  {
    SurvivorsMembers(rs, size, r);
  }

  /** Removes the region at the head of the unvisited part. */
  method RemoveCurrent(regions: RegionList, ghost kept: seq<TextRegion>, tr: TextRegion, ghost rest: seq<TextRegion>)
    requires regions.items == kept + [tr] + rest && tr !in kept
    modifies regions
    ensures regions.items == kept + rest
  {
    RemoveFirstAt(kept + [tr] + rest, |kept|);
    assert (kept + [tr] + rest)[..|kept|] == kept;
    assert (kept + [tr] + rest)[|kept| + 1..] == rest;
    regions.Remove(tr);
  }

  /** Appends the ids of a region's lines to the ids to remove. */
  method CollectLineIds(toRemove: seq<string>, lines: seq<TextLine>) returns (out: seq<string>)
    ensures out == toRemove + LineIds(lines)
  {
    out := toRemove;
    var j := 0;
    while j < |lines|
      invariant 0 <= j <= |lines|
      invariant out == toRemove + LineIds(lines[..j])
    {
      assert LineIds(lines[..j + 1]) == LineIds(lines[..j]) + [lines[j].id];
      out := out + [lines[j].id];
      j := j + 1;
    }
    assert lines[..j] == lines;
  }

  /** The survivors of one more region. */
  lemma SurvivorsSnoc(copy: seq<TextRegion>, k: nat, size: Polygon -> BoxSize)
    requires k < |copy|
    ensures Survivors(copy[..k + 1], size)
      == Survivors(copy[..k], size) + (if Kept(copy[k], size) then [copy[k]] else [])
  {
    assert copy[..k + 1][..k] == copy[..k];
  }

  /** The dropped line ids of one more region. */
  lemma DroppedLineIdsSnoc(copy: seq<TextRegion>, k: nat, size: Polygon -> BoxSize)
    requires k < |copy|
    ensures DroppedLineIds(copy[..k + 1], size)
      == DroppedLineIds(copy[..k], size) + (if DroppedForSize(copy[k], size) then LineIds(copy[k].lines) else [])
  {
    assert copy[..k + 1][..k] == copy[..k];
  }

  /** One region of the loop over the copy. */
  method DiscardStep(regions: RegionList, copy: seq<TextRegion>, k: nat, textLines: seq<TextLine>,
                     toRemove: seq<string>, size: Polygon -> BoxSize)
      returns (out: seq<string>)
    requires k < |copy|
    requires regions.items == Survivors(copy[..k], size) + copy[k..]
    requires toRemove == if textLines == [] then [] else DroppedLineIds(copy[..k], size)
    modifies regions
    ensures regions.items == Survivors(copy[..k + 1], size) + copy[k + 1..]
    ensures out == if textLines == [] then [] else DroppedLineIds(copy[..k + 1], size)
  {
    var tr := copy[k];
    SurvivorsSnoc(copy, k, size);
    DroppedLineIdsSnoc(copy, k, size);
    ghost var kept := Survivors(copy[..k], size);
    assert copy[k..] == [tr] + copy[k + 1..];
    out := toRemove;
    if NoText(tr.lines) {
      NotKeptNotSurvivor(copy[..k], size, tr);
      RemoveCurrent(regions, kept, tr, copy[k + 1..]);
      return;
    }
    var box := size(tr.points);
    if box.width < 10 || box.height < 10 {
      NotKeptNotSurvivor(copy[..k], size, tr);
      RemoveCurrent(regions, kept, tr, copy[k + 1..]);
      if textLines != [] {
        out := CollectLineIds(out, tr.lines);
      }
    }
  }

  /** The loop over a copy of the region list: regions are removed from
      `regions` in place and the line ids of the too-small ones collected
      (only when the line list is not empty); then the lines are filtered. */
  method DiscardTextRegionsAndLines(regions: RegionList, textLines: seq<TextLine>, size: Polygon -> BoxSize)
      returns (lines: seq<TextLine>)
    modifies regions
    ensures regions.items == Survivors(old(regions.items), size)
    ensures lines == RemainingLines(old(regions.items), textLines, size)
  {
    var copy := regions.items;
    var toRemove := DiscardRegions(regions, copy, textLines, size);
    lines := textLines;
    if toRemove != [] {
      lines := FilterLines(textLines, toRemove);
    }
  }

  /** The loop over the copy `copy` of the region list. */
  method DiscardRegions(regions: RegionList, copy: seq<TextRegion>, textLines: seq<TextLine>, size: Polygon -> BoxSize)
      returns (toRemove: seq<string>)
    requires regions.items == copy
    modifies regions
    ensures regions.items == Survivors(copy, size)
    ensures toRemove == if textLines == [] then [] else DroppedLineIds(copy, size)
  {
    toRemove := [];
    var k := 0;
    while k < |copy|
      invariant 0 <= k <= |copy|
      invariant regions.items == Survivors(copy[..k], size) + copy[k..]
      invariant toRemove == if textLines == [] then [] else DroppedLineIds(copy[..k], size)
    {
      toRemove := DiscardStep(regions, copy, k, textLines, toRemove, size);
      k := k + 1;
    }
    assert copy[..k] == copy;
  }

  /** `[line for line in text_lines if line.id not in text_lines_to_remove]`. */
  method FilterLines(textLines: seq<TextLine>, ids: seq<string>) returns (lines: seq<TextLine>)
    ensures lines == WithoutIds(textLines, ids)
  {
    lines := [];
    var i := 0;
    while i < |textLines|
      invariant 0 <= i <= |textLines|
      invariant lines == WithoutIds(textLines[..i], ids)
    {
      assert textLines[..i + 1][..i] == textLines[..i];
      if textLines[i].id !in ids {
        lines := lines + [textLines[i]];
      }
      i := i + 1;
    }
    assert textLines[..i] == textLines;
  }
}
