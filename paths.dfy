/**
 * `Polygons.Paths` (modules/paths.js): a path is a list of corners with a
 * stroke colour and a thickness, used to collect corners for drawing.
 *
 * A path holds corner values; the source holds references to the graph's
 * corner objects, of which only the position is read here.
 */
module Paths {
  import opened Wrappers
  import opened Entities

  const DefaultStroke: string := "#000"
  const DefaultThickness: int := 1

  /** `corners[0]`, `undefined` on an empty list. */
  function FirstOf(corners: seq<Corner>): (r: Option<Corner>)
    ensures r.Some? <==> corners != []
    ensures r.Some? ==> r.value == corners[0]
  {
    if corners == [] then None else Some(corners[0])
  }

  /** `corners[corners.length - 1]`, `undefined` on an empty list. */
  function LastOf(corners: seq<Corner>): (r: Option<Corner>)
    ensures r.Some? <==> corners != []
    ensures r.Some? ==> r.value == corners[|corners| - 1]
  {
    if corners == [] then None else Some(corners[|corners| - 1])
  }

  /** `corners.map(c => c.pos)`. */
  function PointsOf(corners: seq<Corner>): (r: seq<Point>)
    ensures |r| == |corners|
    ensures forall i :: 0 <= i < |corners| ==> r[i] == corners[i].pos
  {
    if corners == [] then [] else PointsOf(corners[..|corners| - 1]) + [corners[|corners| - 1].pos]
  }

  /** Appending makes the new corner the last one and keeps the first one, if any. */
  lemma AppendEnds(corners: seq<Corner>, c: Corner)
    ensures LastOf(corners + [c]) == Some(c)
    ensures FirstOf(corners + [c]) == if corners == [] then Some(c) else FirstOf(corners)
  {
  }

  /** The points of a path grow with it: appending a corner appends its position. */
  lemma {:induction false} PointsAppend(corners: seq<Corner>, more: seq<Corner>)
    ensures PointsOf(corners + more) == PointsOf(corners) + PointsOf(more)
  {
    var r, s := PointsOf(corners + more), PointsOf(corners) + PointsOf(more);
    assert |r| == |s|;
    forall i | 0 <= i < |r| ensures r[i] == s[i] {
      if i < |corners| {
        assert (corners + more)[i] == corners[i];
      } else {
        assert (corners + more)[i] == more[i - |corners|];
      }
    }
  }

  /** The `path` object. */
  class Path {
    var corners: seq<Corner>
    var stroke: string
    var thickness: int

    /** `new path(corners)`: the corners given, drawn in the default stroke and thickness. */
    constructor (cs: seq<Corner>)
      ensures corners == cs && stroke == DefaultStroke && thickness == DefaultThickness
    {
      corners, stroke, thickness := cs, DefaultStroke, DefaultThickness;
    }

    /** `first()`. */
    function First(): (r: Option<Corner>)
      reads this
      ensures r.Some? <==> corners != []
      ensures r.Some? ==> r.value == corners[0]
    {
      FirstOf(corners)
    }

    /** `last()`. */
    function Last(): (r: Option<Corner>)
      reads this
      ensures r.Some? <==> corners != []
      ensures r.Some? ==> r.value == corners[|corners| - 1]
    {
      LastOf(corners)
    }

    /** `append(corner)`: the corner goes at the end; the rest of the path is unchanged. */
    method Append(c: Corner)
      modifies this`corners
      ensures corners == old(corners) + [c]
      ensures Last() == Some(c)
      ensures First() == if old(corners) == [] then Some(c) else old(First())
      ensures GetPoints() == old(GetPoints()) + [c.pos]
    {
      AppendEnds(corners, c);
      PointsAppend(corners, [c]);
      corners := corners + [c];
    }

    /** `getPoints()`: the positions of the corners, in path order. */
    function GetPoints(): (r: seq<Point>)
      reads this
      ensures |r| == |corners|
      ensures forall i :: 0 <= i < |corners| ==> r[i] == corners[i].pos
    {
      PointsOf(corners)
    }
  }

  /** `Paths.create(c1, c2, ...)`: a new path over the arguments, in order. */
  method Create(cs: seq<Corner>) returns (p: Path)
    ensures fresh(p)
    ensures p.corners == cs && p.stroke == DefaultStroke && p.thickness == DefaultThickness
    ensures p.First() == FirstOf(cs) && p.Last() == LastOf(cs)
  {
    p := new Path(cs);
  }
}
