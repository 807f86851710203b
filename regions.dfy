/** The page entities the feature generation works on, as the page
    collaborator delivers them: text lines, text regions and separator
    regions. */
module Regions {
  import opened Wrappers
  import opened Geometry

  /** A text line: its id, its baseline and its (possibly empty) text. */
  datatype TextLine = TextLine(id: string, baseline: Polygon, text: string)

  /** A text region: id, surrounding polygon, region type tag and its lines. */
  datatype TextRegion = TextRegion(id: string, points: Polygon, regionType: string, lines: seq<TextLine>)

  predicate HasText(l: TextLine) { l.text != "" }

  /** No line of the list has text (an empty list included). */
  predicate NoText(lines: seq<TextLine>) {
    forall i :: 0 <= i < |lines| ==> !HasText(lines[i])
  }

  /** A separator region.  Its coordinate list is a mutable list: the line
      strategy closes it in place (see `Geometry.LinePolyIntersection`). */
  datatype SeparatorRegion = SeparatorRegion(id: string, orientation: Option<string>, points: PointList)

  /** The value of a separator region at one moment. */
  datatype Separator = Separator(id: string, orientation: Option<string>, polygon: Polygon)

  function PointLists(seps: seq<SeparatorRegion>): set<PointList> {
    set k | 0 <= k < |seps| :: seps[k].points
  }

  function View(s: SeparatorRegion): Separator
    reads s.points
  {
    Separator(s.id, s.orientation, s.points.points)
  }

  /** The current values of a list of separator regions. */
  function Views(seps: seq<SeparatorRegion>): (r: seq<Separator>)
    reads PointLists(seps)
    ensures |r| == |seps|
    ensures forall k :: 0 <= k < |seps| ==> r[k] == View(seps[k])
  {
    seq(|seps|, k requires 0 <= k < |seps| reads PointLists(seps) => View(seps[k]))
  }

  /** Lower-casing for ASCII letters.  For the comparison with "heading" this
      agrees with Python's `str.lower`: no non-ASCII character lowers to one
      of the letters of "heading". */
  function LowerChar(c: char): char {
    if 'A' <= c <= 'Z' then (c as int + 32) as char else c
  }

  function Lower(s: string): (r: string)
    ensures |r| == |s|
    ensures forall i :: 0 <= i < |s| ==> r[i] == LowerChar(s[i])
  {
    seq(|s|, i requires 0 <= i < |s| => LowerChar(s[i]))
  }

  /** `region_type.lower() == 'heading'`. */
  predicate IsHeading(r: TextRegion) {
    Lower(r.regionType) == "heading"
  }

  /** The heading test ignores letter case. */
  lemma IsHeadingCaseInsensitive(r: TextRegion, t: string)
    requires Lower(t) == Lower(r.regionType)
    ensures IsHeading(r.(regionType := t)) == IsHeading(r)
  {
  }

  /** The tags "heading", "Heading" and "HEADING" are headings, "header" is not. */
  lemma HeadingExamples(p: Polygon)
    ensures IsHeading(TextRegion("r", p, "heading", []))
    ensures IsHeading(TextRegion("r", p, "Heading", []))
    ensures IsHeading(TextRegion("r", p, "HEADING", []))
    ensures !IsHeading(TextRegion("r", p, "header", []))
  {
    assert Lower("Heading") == "heading";
    assert Lower("HEADING") == "heading";
    assert Lower("header")[5] == 'r';
  }
}
