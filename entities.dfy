/** Option type used wherever the JavaScript value may be `undefined` or `null`. */
module Wrappers {
  datatype Option<+T> = None | Some(value: T)
}

/**
 * The map-graph entities built by `Polygons.generate` and the pure pieces of
 * the graph builder: edge keys, endpoint resolution, the `_transformEdge`
 * rewrite, the `getEdge` lookup and the symmetric neighbour / adjacency
 * updates.
 *
 * JavaScript objects that reference each other are modelled as values held in
 * maps of the graph; a reference to a polygon is its cell id, a reference to a
 * corner is its string key, and a reference to an edge object is its index in
 * the graph's edge store.
 */
module Entities {
  import opened Wrappers

  /**
   * JavaScript `x || d` on a numeric argument: `undefined` (None) and 0 are
   * falsy and give the default.
   */
  function OrDefault(x: Option<real>, d: real): (r: real)
    ensures x == None || x == Some(0.0) ==> r == d
    ensures x.Some? && x.value != 0.0 ==> r == x.value
  {
    if x.Some? && x.value != 0.0 then x.value else d
  }

  /** A coordinate pair: a Voronoi site or vertex. */
  datatype Point = Point(x: real, y: real)

  /** An edge endpoint: a raw Voronoi vertex, or (after `_transformEdge`) a corner. */
  datatype EdgeEnd = Raw(vertex: Point) | Canon(corner: string)

  /** An edge object; `stroke` and `thickness` are written by the river tracer. */
  datatype Edge = Edge(start: EdgeEnd, end: EdgeEnd, stroke: Option<string>, thickness: Option<int>)

  /** A polygon (a "center"); `edges` holds edge-store indices of its own edge objects. */
  datatype Polygon = Polygon(
    id: nat, pos: Point, neighbors: set<nat>, border: bool, edges: seq<nat>,
    ocean: bool, fill: Option<string>, stroke: Option<string>, elevation: Option<real>)

  /** A corner; `adjacent` keeps one entry per push, duplicates included. */
  datatype Corner = Corner(
    id: string, pos: Point, adjacent: seq<string>, polygons: set<nat>,
    coast: bool, ocean: bool, land: bool, elevation: Option<real>)

  /** The Voronoi output: a cell's site and its boundary half-edges. */
  datatype HalfEdge = HalfEdge(start: Point, end: Point)
  datatype Cell = Cell(site: Point, halfedges: seq<HalfEdge>)

  /** A raw Voronoi edge: left site id, optional right site id, and its two vertices. */
  datatype RawEdge = RawEdge(lSite: nat, rSite: Option<nat>, va: Point, vb: Point)

  /** The property name a corner object turns into when used as an object key. */
  const ObjectKey: string := "[object Object]"

  /** The `edges` map key of an edge from corner `s` to corner `t`. */
  function EdgeKey(s: string, t: string): string
  {
    s + "-" + t
  }

  /**
   * Distinct ordered corner pairs get distinct edge keys as long as no corner
   * key contains the separator.
   */
  lemma EdgeKeyInjective(s: string, t: string, s': string, t': string)
    requires '-' !in s && '-' !in t && '-' !in s' && '-' !in t'
    requires EdgeKey(s, t) == EdgeKey(s', t')
    ensures s == s' && t == t'
  {
    var k, k' := EdgeKey(s, t), EdgeKey(s', t');
    SeparatorPosition(s, t);
    SeparatorPosition(s', t');
    assert |s| == |s'|;
    assert s == k[..|s|] == k'[..|s'|] == s';
    assert t == k[|s| + 1..] == k'[|s'| + 1..] == t';
  }

  /** In a key built from a separator-free start id, the first separator follows the start id. */
  lemma SeparatorPosition(s: string, t: string)
    requires '-' !in s
    ensures |EdgeKey(s, t)| > |s| && EdgeKey(s, t)[|s|] == '-'
    ensures forall i :: 0 <= i < |s| ==> EdgeKey(s, t)[i] != '-'
  {
    var k := EdgeKey(s, t);
    forall i | 0 <= i < |s| ensures k[i] != '-' {
      assert k[i] == s[i];
    }
  }

  /** Without the separator restriction two different pairs may share one key. */
  lemma EdgeKeyCollision()
    ensures EdgeKey("1-2", "3") == EdgeKey("1", "2-3")
    ensures "1-2" != "1"
  {
  }

  /** The property name `this.corners[end]` reads for an edge endpoint. */
  function ResolveKey(end: EdgeEnd, key: Point -> string): (k: string)
    ensures end.Raw? ==> k == key(end.vertex)
    ensures end.Canon? ==> k == ObjectKey
  {
    match end
    case Raw(v) => key(v)
    case Canon(_) => ObjectKey
  }

  /** Every corner is stored under its own id. */
  ghost predicate IdsMatchKeys(corners: map<string, Corner>)
  {
    forall k :: k in corners ==> corners[k].id == k
  }

  /**
   * `_transformEdge` as a value: when both endpoints resolve to corners, the
   * edge rewritten to those corners together with the key it is stored under;
   * otherwise nothing.
   */
  function Transformed(corners: map<string, Corner>, e: Edge, key: Point -> string): (r: Option<(string, Edge)>)
    ensures r.Some? <==> ResolveKey(e.start, key) in corners && ResolveKey(e.end, key) in corners
    ensures r.Some? ==> r.value.1.start.Canon? && r.value.1.end.Canon?
    ensures r.Some? ==> r.value.0 == EdgeKey(r.value.1.start.corner, r.value.1.end.corner)
    ensures r.Some? ==> r.value.1.stroke == e.stroke && r.value.1.thickness == e.thickness
    ensures r.Some? && IdsMatchKeys(corners) ==>
      r.value.1.start.corner in corners && r.value.1.end.corner in corners
  {
    var ks, ke := ResolveKey(e.start, key), ResolveKey(e.end, key);
    if ks in corners && ke in corners then
      var s, t := corners[ks].id, corners[ke].id;
      Some((EdgeKey(s, t), e.(start := Canon(s), end := Canon(t))))
    else
      None
  }

  /** A raw edge whose vertices both have corners is rewritten to exactly those corners. */
  lemma TransformRawEdge(corners: map<string, Corner>, e: Edge, key: Point -> string)
    requires IdsMatchKeys(corners)
    requires e.start.Raw? && e.end.Raw?
    requires key(e.start.vertex) in corners && key(e.end.vertex) in corners
    ensures var s, t := key(e.start.vertex), key(e.end.vertex);
      Transformed(corners, e, key) == Some((EdgeKey(s, t), e.(start := Canon(s), end := Canon(t))))
  {
  }

  /**
   * An edge already rewritten to corners is never rewritten again, unless some
   * vertex key happens to be the string a corner object turns into.
   */
  lemma TransformCanonicalIsStable(corners: map<string, Corner>, e: Edge, key: Point -> string)
    requires ObjectKey !in corners
    requires e.start.Canon? || e.end.Canon?
    ensures Transformed(corners, e, key) == None
  {
  }

  /**
   * `getEdge(a, b)`: the edge stored as "a-b", else the one stored as "b-a",
   * else null.
   */
  function GetEdge(edges: map<string, nat>, a: string, b: string): (r: Option<nat>)
    ensures r.Some? <==> EdgeKey(a, b) in edges || EdgeKey(b, a) in edges
    ensures r.Some? ==> r.value in edges.Values
    ensures EdgeKey(a, b) in edges ==> r == Some(edges[EdgeKey(a, b)])
  {
    if EdgeKey(a, b) in edges then Some(edges[EdgeKey(a, b)])
    else if EdgeKey(b, a) in edges then Some(edges[EdgeKey(b, a)])
    else None
  }

  /**
   * The lookup does not depend on the direction of the query unless both
   * directions are stored, in which case each query gets its own direction.
   */
  lemma GetEdgeDirection(edges: map<string, nat>, a: string, b: string)
    ensures !(EdgeKey(a, b) in edges && EdgeKey(b, a) in edges) ==> GetEdge(edges, a, b) == GetEdge(edges, b, a)
    ensures EdgeKey(a, b) in edges && EdgeKey(b, a) in edges ==>
      GetEdge(edges, a, b) == Some(edges[EdgeKey(a, b)]) && GetEdge(edges, b, a) == Some(edges[EdgeKey(b, a)])
  {
  }

  /** Neighbour relations are symmetric and only name existing polygons. */
  ghost predicate NeighborsSymmetric(centers: map<nat, Polygon>)
  {
    forall l, r :: l in centers && r in centers[l].neighbors ==> r in centers && l in centers[r].neighbors
  }

  /** `left.neighbors[r] = right; right.neighbors[l] = left`. */
  function AddNeighbors(centers: map<nat, Polygon>, l: nat, r: nat): (c: map<nat, Polygon>)
    requires l in centers && r in centers
    ensures c.Keys == centers.Keys
  {
    var c1 := centers[l := centers[l].(neighbors := centers[l].neighbors + {r})];
    c1[r := c1[r].(neighbors := c1[r].neighbors + {l})]
  }

  /** Registering two polygons as neighbours keeps the relation symmetric and adds exactly that pair. */
  lemma AddNeighborsSymmetric(centers: map<nat, Polygon>, l: nat, r: nat)
    requires l in centers && r in centers
    requires NeighborsSymmetric(centers)
    ensures NeighborsSymmetric(AddNeighbors(centers, l, r))
    ensures forall p, q :: p in centers && q in centers ==>
      (q in AddNeighbors(centers, l, r)[p].neighbors <==>
       q in centers[p].neighbors || (p == l && q == r) || (p == r && q == l))
  {
    var c := AddNeighbors(centers, l, r);
    forall p, q | p in c && q in c[p].neighbors
      ensures q in c && p in c[q].neighbors
    {
      if !((p == l && q == r) || (p == r && q == l)) {
        assert q in centers[p].neighbors;
      }
    }
  }

  /** How many times `b` occurs in `a`'s adjacency list. */
  function Occurrences(adjacent: seq<string>, b: string): nat
  {
    multiset(adjacent)[b]
  }

  /** Every adjacency entry names a corner of the map. */
  ghost predicate AdjacencyKnown(corners: map<string, Corner>)
  {
    forall a, i :: a in corners && 0 <= i < |corners[a].adjacent| ==> corners[a].adjacent[i] in corners
  }

  /** Each adjacency is recorded as often from one end as from the other, and only names existing corners. */
  ghost predicate AdjacencySymmetric(corners: map<string, Corner>)
  {
    && (forall a, i :: a in corners && 0 <= i < |corners[a].adjacent| ==> corners[a].adjacent[i] in corners)
    && (forall a, b :: a in corners && b in corners ==>
          Occurrences(corners[a].adjacent, b) == Occurrences(corners[b].adjacent, a))
  }

  /** `A.adjacent.push(B); B.adjacent.push(A)`. */
  function Link(corners: map<string, Corner>, a: string, b: string): (c: map<string, Corner>)
    requires a in corners && b in corners
    ensures c.Keys == corners.Keys
  {
    var c1 := corners[a := corners[a].(adjacent := corners[a].adjacent + [b])];
    c1[b := c1[b].(adjacent := c1[b].adjacent + [a])]
  }

  /** Linking two corners keeps adjacency symmetric, counted with multiplicity. */
  lemma LinkSymmetric(corners: map<string, Corner>, a: string, b: string)
    requires a in corners && b in corners
    requires AdjacencySymmetric(corners)
    ensures AdjacencySymmetric(Link(corners, a, b))
  {
    var c := Link(corners, a, b);
    forall x, y | x in c && y in c
      ensures Occurrences(c[x].adjacent, y) == Occurrences(c[y].adjacent, x)
    {
      LinkSymmetricAt(corners, a, b, x, y);
    }
    forall x, i | x in c && 0 <= i < |c[x].adjacent|
      ensures c[x].adjacent[i] in c
    {
      LinkAdjacentIn(corners, a, b, x, i);
    }
  }

  lemma LinkAdjacentIn(corners: map<string, Corner>, a: string, b: string, x: string, i: int)
    requires a in corners && b in corners && x in corners
    requires forall y, j :: y in corners && 0 <= j < |corners[y].adjacent| ==> corners[y].adjacent[j] in corners
    requires 0 <= i < |Link(corners, a, b)[x].adjacent|
    ensures Link(corners, a, b)[x].adjacent[i] in corners
  {
    LinkAdjacent(corners, a, b, x);
    if i < |corners[x].adjacent| {
      assert Link(corners, a, b)[x].adjacent[i] == corners[x].adjacent[i];
    }
  }

  lemma LinkSymmetricAt(corners: map<string, Corner>, a: string, b: string, x: string, y: string)
    requires a in corners && b in corners && x in corners && y in corners
    requires Occurrences(corners[x].adjacent, y) == Occurrences(corners[y].adjacent, x)
    ensures Occurrences(Link(corners, a, b)[x].adjacent, y) == Occurrences(Link(corners, a, b)[y].adjacent, x)
  {
    OccurrencesAfterLink(corners, a, b, x, y);
    OccurrencesAfterLink(corners, a, b, y, x);
  }

  /** Linking appends `b` to `a`'s list and `a` to `b`'s list (both to the same list when `a == b`). */
  lemma LinkAdjacent(corners: map<string, Corner>, a: string, b: string, x: string)
    requires a in corners && b in corners && x in corners
    ensures Link(corners, a, b)[x].adjacent ==
      corners[x].adjacent + (if x == a then [b] else []) + (if x == b then [a] else [])
    ensures Link(corners, a, b)[x] ==
      corners[x].(adjacent := Link(corners, a, b)[x].adjacent)
  {
    if x == a && x != b {
      assert corners[x].adjacent + [b] + [] == corners[x].adjacent + [b];
    } else if x == b && x != a {
      assert corners[x].adjacent + [] + [a] == corners[x].adjacent + [a];
    } else if x != a && x != b {
      assert corners[x].adjacent + [] + [] == corners[x].adjacent;
    }
  }

  lemma OccurrencesAfterLink(corners: map<string, Corner>, a: string, b: string, x: string, y: string)
    requires a in corners && b in corners && x in corners
    ensures Occurrences(Link(corners, a, b)[x].adjacent, y) ==
      Occurrences(corners[x].adjacent, y)
      + (if x == a && y == b then 1 else 0) + (if x == b && y == a then 1 else 0)
  {
    LinkAdjacent(corners, a, b, x);
    var s := corners[x].adjacent;
    var u: seq<string> := if x == a then [b] else [];
    var v: seq<string> := if x == b then [a] else [];
    assert multiset(s + u + v) == multiset(s) + multiset(u) + multiset(v);
  }
}
