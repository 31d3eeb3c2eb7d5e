/**
 * The graph builder of `Polygons.generate` as values: what a prefix of the
 * raw Voronoi edge list determines (polygons, corners, neighbour and
 * adjacency relations, edge objects), the builder's phases for one raw edge
 * as functions on a snapshot of the graph, and the invariants each phase
 * keeps.
 */
module GraphBuild {
  import opened Wrappers
  import opened Entities

  // ---------------------------------------------------------------------------
  // What a prefix of the raw edge list determines

  /** The site ids of one raw edge. */
  function SiteIds(e: RawEdge): set<nat>
  {
    {e.lSite} + (if e.rSite.Some? then {e.rSite.value} else {})
  }

  /** The cell ids named as a left or right site. */
  ghost function Sites(es: seq<RawEdge>): set<nat>
  {
    set e, id | e in es && id in SiteIds(e) :: id
  }

  /** Some edge has `id` as its left site and no right site. */
  ghost predicate BorderSite(es: seq<RawEdge>, id: nat)
  {
    exists e :: e in es && e.lSite == id && e.rSite.None?
  }

  /** The edge has `l` and `r` as its two sites, in either order. */
  predicate Joins(e: RawEdge, l: nat, r: nat)
  {
    e.rSite.Some? && ((e.lSite == l && e.rSite.value == r) || (e.lSite == r && e.rSite.value == l))
  }

  /** Some edge has `l` and `r` as its two sites. */
  ghost predicate Joined(es: seq<RawEdge>, l: nat, r: nat)
  {
    exists e :: e in es && Joins(e, l, r)
  }

  /** The keys of all edge endpoints. */
  ghost function VertexKeys(es: seq<RawEdge>, key: Point -> string): set<string>
  {
    (set e | e in es :: key(e.va)) + (set e | e in es :: key(e.vb))
  }

  /** The edge has an endpoint keyed `k` and `id` as one of its sites. */
  predicate TouchesAt(e: RawEdge, key: Point -> string, k: string, id: nat)
  {
    (key(e.va) == k || key(e.vb) == k) && id in SiteIds(e)
  }

  /** Some edge with an endpoint keyed `k` has `id` as one of its sites. */
  ghost predicate Touches(es: seq<RawEdge>, key: Point -> string, k: string, id: nat)
  {
    exists e :: e in es && TouchesAt(e, key, k, id)
  }

  /** The edge joins a vertex keyed `a` to one keyed `b`, in either direction. */
  predicate Connects(e: RawEdge, key: Point -> string, a: string, b: string)
  {
    (key(e.va) == a && key(e.vb) == b) || (key(e.va) == b && key(e.vb) == a)
  }

  /** Some edge joins a vertex keyed `a` to one keyed `b`. */
  ghost predicate Linked(es: seq<RawEdge>, key: Point -> string, a: string, b: string)
  {
    exists e :: e in es && Connects(e, key, a, b)
  }

  /** The first vertex keyed `k`, in edge order and `va` before `vb`. */
  function FirstVertex(es: seq<RawEdge>, key: Point -> string, k: string): Option<Point>
  {
    if es == [] then None
    else if key(es[0].va) == k then Some(es[0].va)
    else if key(es[0].vb) == k then Some(es[0].vb)
    else FirstVertex(es[1..], key, k)
  }

  /**
   * Appending an edge does not change a first vertex already found, and
   * otherwise the new edge supplies it; a first vertex exists exactly for the
   * endpoint keys, and carries that key.
   */
  lemma {:induction false} FirstVertexSnoc(es: seq<RawEdge>, e: RawEdge, key: Point -> string, k: string)
    ensures FirstVertex(es + [e], key, k) ==
      if FirstVertex(es, key, k).Some? then FirstVertex(es, key, k)
      else if key(e.va) == k then Some(e.va)
      else if key(e.vb) == k then Some(e.vb)
      else None
    ensures FirstVertex(es, key, k).Some? <==> k in VertexKeys(es, key)
    ensures FirstVertex(es, key, k).Some? ==> key(FirstVertex(es, key, k).value) == k
  {
    if es == [] {
      assert [] + [e] == [e];
    } else {
      assert (es + [e])[1..] == es[1..] + [e];
      FirstVertexSnoc(es[1..], e, key, k);
      assert forall x :: x in es <==> x == es[0] || x in es[1..] by {
        assert es == [es[0]] + es[1..];
      }
    }
  }

  /** What one more raw edge adds to the sites, border sites and joined pairs. */
  lemma SitesSnoc(done: seq<RawEdge>, e: RawEdge)
    ensures Sites(done + [e]) == Sites(done) + SiteIds(e)
    ensures forall id :: BorderSite(done + [e], id) <==> BorderSite(done, id) || (e.lSite == id && e.rSite.None?)
    ensures forall l, r :: Joined(done + [e], l, r) <==> Joined(done, l, r) || Joins(e, l, r)
  {
    assert forall x :: x in done + [e] <==> x in done || x == e;
  }

  /** What one more raw edge adds to the vertex keys, touches and links. */
  lemma KeysSnoc(done: seq<RawEdge>, e: RawEdge, key: Point -> string)
    ensures VertexKeys(done + [e], key) == VertexKeys(done, key) + {key(e.va), key(e.vb)}
    ensures forall k, id :: Touches(done + [e], key, k, id) <==> Touches(done, key, k, id) || TouchesAt(e, key, k, id)
    ensures forall a, b :: Linked(done + [e], key, a, b) <==> Linked(done, key, a, b) || Connects(e, key, a, b)
  {
    assert forall x :: x in done + [e] <==> x in done || x == e;
  }

  lemma TouchesSnoc(done: seq<RawEdge>, e: RawEdge, key: Point -> string, k: string, id: nat)
    ensures Touches(done + [e], key, k, id) <==> Touches(done, key, k, id) || TouchesAt(e, key, k, id)
  {
    assert forall x :: x in done + [e] <==> x in done || x == e;
  }

  lemma LinkedSnoc(done: seq<RawEdge>, e: RawEdge, key: Point -> string, a: string, b: string)
    ensures Linked(done + [e], key, a, b) <==> Linked(done, key, a, b) || Connects(e, key, a, b)
  {
    assert forall x :: x in done + [e] <==> x in done || x == e;
  }

  /** A key that is no endpoint of `es` touches nothing. */
  lemma NotTouched(es: seq<RawEdge>, key: Point -> string, k: string, id: nat)
    requires k !in VertexKeys(es, key)
    ensures !Touches(es, key, k, id)
  {
  }

  /** A key that is no endpoint of `es` is linked to nothing. */
  lemma NotLinked(es: seq<RawEdge>, key: Point -> string, a: string, b: string)
    requires a !in VertexKeys(es, key)
    ensures !Linked(es, key, a, b)
  {
  }

  /** Only sites are border sites or joined. */
  lemma SitesCover(es: seq<RawEdge>)
    ensures forall id :: BorderSite(es, id) ==> id in Sites(es)
    ensures forall l, r :: Joined(es, l, r) ==> l in Sites(es) && r in Sites(es)
  {
    forall l, r | Joined(es, l, r) ensures l in Sites(es) && r in Sites(es) {
      var e :| e in es && Joins(e, l, r);
      assert l in SiteIds(e) && r in SiteIds(e);
    }
    forall id | BorderSite(es, id) ensures id in Sites(es) {
      var e :| e in es && e.lSite == id && e.rSite.None?;
      assert id in SiteIds(e);
    }
  }

  // ---------------------------------------------------------------------------
  // Edge objects

  /** The edge objects `util.getEdges` makes for a cell: raw, unstroked copies of its half-edges. */
  function RawEdges(hs: seq<HalfEdge>): (r: seq<Edge>)
    ensures |r| == |hs|
    ensures forall j :: 0 <= j < |hs| ==> r[j] == Edge(Raw(hs[j].start), Raw(hs[j].end), None, None)
  {
    seq(|hs|, j requires 0 <= j < |hs| => Edge(Raw(hs[j].start), Raw(hs[j].end), None, None))
  }

  /** The store indices `n`, `n + 1`, ..., `n + count - 1`. */
  function Indices(n: nat, count: nat): (r: seq<nat>)
    ensures |r| == count
    ensures forall j :: 0 <= j < count ==> r[j] == n + j
  {
    seq(count, j requires 0 <= j < count => n + j)
  }

  /** An edge object of a cell: still its raw half-edge, or rewritten to corners; never stroked. */
  ghost predicate FromHalfEdge(ed: Edge, h: HalfEdge)
  {
    && ed.stroke.None? && ed.thickness.None?
    && ((ed.start == Raw(h.start) && ed.end == Raw(h.end)) || IsCanonical(ed))
  }

  /** Both endpoints have been rewritten to corners. */
  predicate IsCanonical(ed: Edge)
  {
    ed.start.Canon? && ed.end.Canon?
  }

  /** Canonical endpoints name existing corners. */
  ghost predicate EndsKnown(ed: Edge, corners: map<string, Corner>)
  {
    (ed.start.Canon? ==> ed.start.corner in corners) && (ed.end.Canon? ==> ed.end.corner in corners)
  }

  /** One `_transformEdge` call on the store and the `edges` map. */
  function TransformOne(store: seq<Edge>, edges: map<string, nat>, index: nat,
                        corners: map<string, Corner>, key: Point -> string): (r: (seq<Edge>, map<string, nat>))
    requires index < |store|
    ensures |r.0| == |store|
    ensures forall x :: 0 <= x < |store| && x != index ==> r.0[x] == store[x]
  {
    match Transformed(corners, store[index], key)
    case Some((k, ed)) => (store[index := ed], edges[k := index])
    case None => (store, edges)
  }

  /** `iter(polygon.edges, this, this._transformEdge)`: one call per index, in order. */
  function TransformAll(store: seq<Edge>, edges: map<string, nat>, idxs: seq<nat>,
                        corners: map<string, Corner>, key: Point -> string): (r: (seq<Edge>, map<string, nat>))
    requires forall j :: 0 <= j < |idxs| ==> idxs[j] < |store|
    ensures |r.0| == |store|
    decreases |idxs|
  {
    if idxs == [] then (store, edges)
    else
      var p := TransformAll(store, edges, idxs[..|idxs| - 1], corners, key);
      TransformOne(p.0, p.1, idxs[|idxs| - 1], corners, key)
  }

  /**
   * A pass of `_transformEdge` keeps every edge object derived from its
   * half-edge, keeps canonical endpoints pointing at corners, and leaves
   * every `edges` entry it adds or overwrites pointing at a rewritten edge.
   */
  lemma {:induction false} TransformAllKeeps(store: seq<Edge>, edges: map<string, nat>, idxs: seq<nat>,
                                             corners: map<string, Corner>, key: Point -> string)
    requires forall j :: 0 <= j < |idxs| ==> idxs[j] < |store|
    requires IdsMatchKeys(corners)
    ensures var r := TransformAll(store, edges, idxs, corners, key);
      && (forall x, h :: 0 <= x < |store| && FromHalfEdge(store[x], h) ==> FromHalfEdge(r.0[x], h))
      && (forall x :: 0 <= x < |store| && EndsKnown(store[x], corners) ==> EndsKnown(r.0[x], corners))
      && (forall x :: 0 <= x < |store| && IsCanonical(store[x]) ==> IsCanonical(r.0[x]))
      && (forall k :: k in r.1 ==> (k in edges && r.1[k] == edges[k]) || (r.1[k] < |store| && IsCanonical(r.0[r.1[k]])))
    decreases |idxs|
  {
    if idxs != [] {
      var init := idxs[..|idxs| - 1];
      TransformAllKeeps(store, edges, init, corners, key);
      var p := TransformAll(store, edges, init, corners, key);
      var i := idxs[|idxs| - 1];
      var r := TransformOne(p.0, p.1, i, corners, key);
      assert r == TransformAll(store, edges, idxs, corners, key);
      match Transformed(corners, p.0[i], key)
      case None =>
      case Some((k, ed)) =>
        assert r.0 == p.0[i := ed];
        forall x, h | 0 <= x < |store| && FromHalfEdge(store[x], h)
          ensures FromHalfEdge(r.0[x], h)
        {
          assert FromHalfEdge(p.0[x], h);
        }
    }
  }

  /** The rewrite reads corners only through their keys and ids. */
  lemma {:induction false} TransformAllIgnoresPolygons(store: seq<Edge>, edges: map<string, nat>, idxs: seq<nat>,
      corners: map<string, Corner>, corners': map<string, Corner>, key: Point -> string)
    requires forall j :: 0 <= j < |idxs| ==> idxs[j] < |store|
    requires corners.Keys == corners'.Keys
    requires forall k :: k in corners ==> corners[k].id == corners'[k].id
    ensures TransformAll(store, edges, idxs, corners, key) == TransformAll(store, edges, idxs, corners', key)
    decreases |idxs|
  {
    if idxs != [] {
      TransformAllIgnoresPolygons(store, edges, idxs[..|idxs| - 1], corners, corners', key);
    }
  }

  // ---------------------------------------------------------------------------
  // Snapshots of the graph and their invariants

  /** The graph fields of the `Polygons` object, as one value. */
  datatype GraphState = GraphState(
    centers: map<nat, Polygon>, centersLength: nat,
    corners: map<string, Corner>, cornerOrder: seq<string>,
    edges: map<string, nat>, edgeStore: seq<Edge>)

  /** Polygons sit under their own id below the array length, own edges in the store, and neighbour symmetrically. */
  ghost predicate CentersValid(centers: map<nat, Polygon>, length: nat, storeSize: nat)
  {
    && (forall id :: id in centers ==> centers[id].id == id && id < length)
    && (length == 0 || length - 1 in centers)
    && (forall id, j :: id in centers && 0 <= j < |centers[id].edges| ==> centers[id].edges[j] < storeSize)
    && NeighborsSymmetric(centers)
  }

  /**
   * Every slot of the `centers` array below its length holds a polygon. The
   * stages that walk the array with `iter` read a field of every slot and
   * throw on a hole, so they rely on this.
   */
  ghost predicate Dense(centers: map<nat, Polygon>, length: nat)
  {
    forall id :: 0 <= id < length ==> id in centers
  }

  /** Every corner has at least one adjacent corner. */
  ghost predicate AllLinked(corners: map<string, Corner>)
  {
    forall k :: k in corners ==> |corners[k].adjacent| > 0
  }

  /** Corners only touch known polygons. */
  ghost predicate PolygonsKnown(corners: map<string, Corner>, centerIds: set<nat>)
  {
    forall k :: k in corners ==> corners[k].polygons <= centerIds
  }

  /** The iteration order lists every corner key exactly once. */
  ghost predicate OrderExact(corners: map<string, Corner>, order: seq<string>)
  {
    && (forall i, j :: 0 <= i < j < |order| ==> order[i] != order[j])
    && (forall k :: k in corners <==> k in order)
  }

  /** Corners sit under their own key, have a neighbour, touch known polygons, link symmetrically, and are listed once each. */
  ghost predicate CornersValid(corners: map<string, Corner>, order: seq<string>, centerIds: set<nat>)
  {
    IdsMatchKeys(corners) && AllLinked(corners) && PolygonsKnown(corners, centerIds)
    && AdjacencySymmetric(corners) && OrderExact(corners, order)
  }

  /** Edge objects name existing corners; the `edges` map points at rewritten edge objects. */
  ghost predicate StoreValid(store: seq<Edge>, edges: map<string, nat>, corners: map<string, Corner>)
  {
    && (forall x :: 0 <= x < |store| ==> EndsKnown(store[x], corners))
    && (forall k :: k in edges ==> edges[k] < |store| && IsCanonical(store[edges[k]]))
  }

  /** The structural invariant every stage relies on. */
  ghost predicate Valid(g: GraphState)
  {
    && CentersValid(g.centers, g.centersLength, |g.edgeStore|)
    && CornersValid(g.corners, g.cornerOrder, g.centers.Keys)
    && StoreValid(g.edgeStore, g.edges, g.corners)
  }

  /** A polygon as `generate` creates it, before any later stage. */
  ghost predicate FreshPolygon(p: Polygon, cells: seq<Cell>)
  {
    && p.id < |cells| && p.pos == cells[p.id].site && |p.edges| == |cells[p.id].halfedges|
    && !p.ocean && p.fill.None? && p.stroke.None? && p.elevation.None?
  }

  /** The polygons are exactly the sites of `es`, each created from its cell, border exactly when some edge has no right site. */
  ghost predicate CentersBuilt(centers: map<nat, Polygon>, es: seq<RawEdge>, cells: seq<Cell>)
  {
    && centers.Keys == Sites(es)
    && (forall id :: id in centers ==> FreshPolygon(centers[id], cells) && (centers[id].border <==> BorderSite(es, id)))
  }

  /** Two polygons are neighbours exactly when some edge joins them. */
  ghost predicate NeighborsBuilt(centers: map<nat, Polygon>, es: seq<RawEdge>)
  {
    forall l, r :: l in centers ==> (r in centers[l].neighbors <==> Joined(es, l, r))
  }

  /** A corner as `generate` creates it, before any later stage. */
  ghost predicate FreshCorner(c: Corner)
  {
    !c.coast && !c.ocean && !c.land && c.elevation.None?
  }

  /** The corners are exactly the endpoint keys of `es`, each at the first vertex with its key. */
  ghost predicate CornersBuilt(corners: map<string, Corner>, es: seq<RawEdge>, key: Point -> string)
  {
    && corners.Keys == VertexKeys(es, key)
    && (forall k :: k in corners ==> Some(corners[k].pos) == FirstVertex(es, key, k) && FreshCorner(corners[k]))
  }

  /** A corner touches a polygon exactly when some edge with that endpoint has that site. */
  ghost predicate TouchesBuilt(corners: map<string, Corner>, es: seq<RawEdge>, key: Point -> string)
  {
    forall k, id :: k in corners ==> (id in corners[k].polygons <==> Touches(es, key, k, id))
  }

  /** Two corners are adjacent exactly when some edge joins their vertices. */
  ghost predicate AdjacentBuilt(corners: map<string, Corner>, es: seq<RawEdge>, key: Point -> string)
  {
    forall a, b :: a in corners ==> (b in corners[a].adjacent <==> Linked(es, key, a, b))
  }

  /** The edge list of polygon `id` holds one edge object per half-edge of its cell, in order. */
  ghost predicate EdgesFrom(edges: seq<nat>, id: nat, store: seq<Edge>, cells: seq<Cell>)
  {
    && id < |cells| && |edges| == |cells[id].halfedges|
    && forall j :: 0 <= j < |edges| ==> edges[j] < |store| && FromHalfEdge(store[edges[j]], cells[id].halfedges[j])
  }

  /** Each polygon's edge objects come from its cell's half-edges, in order. */
  ghost predicate EdgesBuilt(centers: map<nat, Polygon>, store: seq<Edge>, cells: seq<Cell>)
  {
    forall id :: id in centers ==> EdgesFrom(centers[id].edges, id, store, cells)
  }

  /** The graph `generate` has built from the edge prefix `es`. */
  ghost predicate Built(g: GraphState, es: seq<RawEdge>, cells: seq<Cell>, key: Point -> string)
  {
    && Valid(g)
    && CentersBuilt(g.centers, es, cells) && NeighborsBuilt(g.centers, es)
    && CornersBuilt(g.corners, es, key) && TouchesBuilt(g.corners, es, key) && AdjacentBuilt(g.corners, es, key)
    && EdgesBuilt(g.centers, g.edgeStore, cells)
  }

  /** The raw edge names cells that exist. */
  predicate SitesInRange(e: RawEdge, cells: seq<Cell>)
  {
    e.lSite < |cells| && (e.rSite.Some? ==> e.rSite.value < |cells|)
  }

  // ---------------------------------------------------------------------------
  // The phases of one loop iteration

  /** The empty graph `generate` starts from. */
  function Empty(): GraphState
  {
    GraphState(map[], 0, map[], [], map[], [])
  }

  /** The polygon object created for cell `id`, whose edge objects start at store index `n`. */
  function NewPolygon(id: nat, cells: seq<Cell>, border: bool, n: nat): (p: Polygon)
    requires id < |cells|
    ensures FreshPolygon(p, cells) && p.id == id && p.neighbors == {} && p.border == border
  {
    Polygon(id, cells[id].site, {}, border, Indices(n, |cells[id].halfedges|), false, None, None, None)
  }

  /** `if (!this.centers[id]) this.centers[id] = {...}`, with fresh edge objects from `util.getEdges`. */
  function EnsureCenter(g: GraphState, id: nat, cells: seq<Cell>, border: bool): (r: GraphState)
    requires id < |cells|
    ensures r.centers.Keys == g.centers.Keys + {id}
    ensures forall p :: p in g.centers ==> r.centers[p] == g.centers[p]
    ensures id !in g.centers ==> r.centers[id] == NewPolygon(id, cells, border, |g.edgeStore|)
    ensures id !in g.centers ==> r.edgeStore == g.edgeStore + RawEdges(cells[id].halfedges)
    ensures id !in g.centers ==> r.centersLength == if id < g.centersLength then g.centersLength else id + 1
    ensures id in g.centers ==> r == g
    ensures r == g.(centers := r.centers, centersLength := r.centersLength, edgeStore := r.edgeStore)
  {
    if id in g.centers then g
    else
      g.(centers := g.centers[id := NewPolygon(id, cells, border, |g.edgeStore|)],
         centersLength := if id < g.centersLength then g.centersLength else id + 1,
         edgeStore := g.edgeStore + RawEdges(cells[id].halfedges))
  }

  /** Both site polygons of a raw edge, created if missing (the right one never as a border polygon). */
  function WithSites(g: GraphState, e: RawEdge, cells: seq<Cell>): (r: GraphState)
    requires SitesInRange(e, cells)
    ensures r.centers.Keys == g.centers.Keys + SiteIds(e)
    ensures forall p :: p in g.centers ==> r.centers[p] == g.centers[p]
    ensures forall p :: p in r.centers && p !in g.centers ==>
      && r.centers[p].id == p && r.centers[p].neighbors == {} && FreshPolygon(r.centers[p], cells)
      && (r.centers[p].border <==> p == e.lSite && e.rSite.None?)
    ensures r == g.(centers := r.centers, centersLength := r.centersLength, edgeStore := r.edgeStore)
  {
    var g1 := EnsureCenter(g, e.lSite, cells, e.rSite.None?);
    if e.rSite.Some? then EnsureCenter(g1, e.rSite.value, cells, false) else g1
  }

  /** Register the two sites as neighbours, or mark the left site as a border polygon. */
  function Connect(g: GraphState, e: RawEdge): (r: GraphState)
    requires e.lSite in g.centers && (e.rSite.Some? ==> e.rSite.value in g.centers)
    ensures r.centers.Keys == g.centers.Keys
    ensures forall p :: p in g.centers ==>
      r.centers[p] == g.centers[p].(neighbors := r.centers[p].neighbors, border := r.centers[p].border)
    ensures forall p :: p in g.centers ==> (r.centers[p].border <==> g.centers[p].border || (p == e.lSite && e.rSite.None?))
    ensures r == g.(centers := r.centers)
  {
    if e.rSite.Some? then g.(centers := AddNeighbors(g.centers, e.lSite, e.rSite.value))
    else g.(centers := g.centers[e.lSite := g.centers[e.lSite].(border := true)])
  }

  /** Centers phase of one raw edge: create the site polygons, then neighbours or border. */
  function CentersStep(g: GraphState, e: RawEdge, cells: seq<Cell>): (r: GraphState)
    requires SitesInRange(e, cells)
    ensures r.centers.Keys == g.centers.Keys + SiteIds(e)
    ensures r == g.(centers := r.centers, centersLength := r.centersLength, edgeStore := r.edgeStore)
  {
    Connect(WithSites(g, e, cells), e)
  }

  /** `if (!this.corners[k]) this.corners[k] = {...}`. */
  function WithCorner(g: GraphState, k: string, v: Point): (r: GraphState)
    ensures r.corners.Keys == g.corners.Keys + {k}
    ensures forall j :: j in g.corners ==> r.corners[j] == g.corners[j]
    ensures k !in g.corners ==> r.corners[k] == Corner(k, v, [], {}, false, false, false, None)
    ensures r.cornerOrder == if k in g.corners then g.cornerOrder else g.cornerOrder + [k]
    ensures r == g.(corners := r.corners, cornerOrder := r.cornerOrder)
  {
    if k in g.corners then g
    else g.(corners := g.corners[k := Corner(k, v, [], {}, false, false, false, None)], cornerOrder := g.cornerOrder + [k])
  }

  /** Both corners of a raw edge, created if missing. */
  function BothCorners(g: GraphState, e: RawEdge, key: Point -> string): (r: GraphState)
    ensures r.corners.Keys == g.corners.Keys + {key(e.va), key(e.vb)}
    ensures forall k :: k in g.corners ==> r.corners[k] == g.corners[k]
    ensures forall k :: k in r.corners && k !in g.corners ==>
      r.corners[k] == Corner(k, if k == key(e.va) then e.va else e.vb, [], {}, false, false, false, None)
    ensures r == g.(corners := r.corners, cornerOrder := r.cornerOrder)
  {
    WithCorner(WithCorner(g, key(e.va), e.va), key(e.vb), e.vb)
  }

  /** `corner.polygons[id] = polygon` for every id in `ids`. */
  function Register(corners: map<string, Corner>, k: string, ids: set<nat>): (r: map<string, Corner>)
    requires k in corners
    ensures r.Keys == corners.Keys
  {
    corners[k := corners[k].(polygons := corners[k].polygons + ids)]
  }

  /** Register the polygons `ids` with corners `a` and `b`. */
  function RegisterBoth(g: GraphState, a: string, b: string, ids: set<nat>): (r: GraphState)
    requires a in g.corners && b in g.corners
    ensures r.corners.Keys == g.corners.Keys
    ensures forall k :: k in g.corners ==>
      r.corners[k] == g.corners[k].(polygons := g.corners[k].polygons + (if k == a || k == b then ids else {}))
    ensures r == g.(corners := r.corners)
  {
    g.(corners := Register(Register(g.corners, a, ids), b, ids))
  }

  /** Registering `x` and then `y` registers `x + y`. */
  lemma RegisterBothTwice(g: GraphState, a: string, b: string, x: set<nat>, y: set<nat>)
    requires a in g.corners && b in g.corners
    ensures RegisterBoth(RegisterBoth(g, a, b, x), a, b, y) == RegisterBoth(g, a, b, x + y)
  {
    var mid := RegisterBoth(g, a, b, x);
    var lhs, rhs := RegisterBoth(mid, a, b, y), RegisterBoth(g, a, b, x + y);
    forall k | k in g.corners ensures lhs.corners[k] == rhs.corners[k] {
      RegisterUnion(g.corners[k], x, y, k == a || k == b);
    }
    assert lhs.corners == rhs.corners;
  }

  /** Adding `x` and then `y` to a corner's polygons adds `x + y`. */
  lemma RegisterUnion(c: Corner, x: set<nat>, y: set<nat>, hit: bool)
    ensures var once := c.(polygons := c.polygons + (if hit then x else {}));
      once.(polygons := once.polygons + (if hit then y else {}))
      == c.(polygons := c.polygons + (if hit then x + y else {}))
  {
    if hit {
      assert c.polygons + x + y == c.polygons + (x + y);
    } else {
      assert c.polygons + {} + {} == c.polygons + {};
    }
  }

  /** Corners phase of one raw edge: create both corners, link them, register the given polygons with both. */
  function CornersStep(g: GraphState, e: RawEdge, key: Point -> string, ids: set<nat>): (r: GraphState)
    ensures r.corners.Keys == g.corners.Keys + {key(e.va), key(e.vb)}
    ensures r == g.(corners := r.corners, cornerOrder := r.cornerOrder)
  {
    var a, b, g2 := key(e.va), key(e.vb), BothCorners(g, e, key);
    RegisterBoth(g2.(corners := Link(g2.corners, a, b)), a, b, ids)
  }

  /** Edge phase for polygon `id`: `_transformEdge` over its edge list. */
  function TransformStep(g: GraphState, id: nat, key: Point -> string): (r: GraphState)
    requires id in g.centers
    requires forall j :: 0 <= j < |g.centers[id].edges| ==> g.centers[id].edges[j] < |g.edgeStore|
    ensures r == g.(edgeStore := r.edgeStore, edges := r.edges) && |r.edgeStore| == |g.edgeStore|
  {
    var p := TransformAll(g.edgeStore, g.edges, g.centers[id].edges, g.corners, key);
    g.(edgeStore := p.0, edges := p.1)
  }

  /**
   * One iteration of the loop over raw edges, in the order of the source:
   * centers, corners with the left polygon, the left polygon's edges, then
   * for a right site its registration and its edges.
   */
  function Step(g: GraphState, e: RawEdge, cells: seq<Cell>, key: Point -> string): (r: GraphState)
    requires SitesInRange(e, cells)
    requires CentersValid(g.centers, g.centersLength, |g.edgeStore|)
  {
    CentersStepValid(g, e, cells);
    var g2 := CornersStep(CentersStep(g, e, cells), e, key, {e.lSite});
    var g3 := TransformStep(g2, e.lSite, key);
    if e.rSite.Some? then TransformStep(RegisterBoth(g3, key(e.va), key(e.vb), {e.rSite.value}), e.rSite.value, key)
    else g3
  }

  /** The same iteration with both polygons registered before any edge is rewritten. */
  function StepByPhase(g: GraphState, e: RawEdge, cells: seq<Cell>, key: Point -> string): (r: GraphState)
    requires SitesInRange(e, cells)
    requires CentersValid(g.centers, g.centersLength, |g.edgeStore|)
  {
    CentersStepValid(g, e, cells);
    var g2 := CornersStep(CentersStep(g, e, cells), e, key, SiteIds(e));
    var g3 := TransformStep(g2, e.lSite, key);
    if e.rSite.Some? then TransformStep(g3, e.rSite.value, key) else g3
  }

  /** Rewriting the left polygon's edges before registering the right polygon makes no difference. */
  lemma StepReordered(g: GraphState, e: RawEdge, cells: seq<Cell>, key: Point -> string)
    requires SitesInRange(e, cells)
    requires CentersValid(g.centers, g.centersLength, |g.edgeStore|)
    ensures Step(g, e, cells, key) == StepByPhase(g, e, cells, key)
  {
    CentersStepValid(g, e, cells);
    if e.rSite.Some? {
      var a, b, l, r := key(e.va), key(e.vb), e.lSite, e.rSite.value;
      var g1 := CentersStep(g, e, cells);
      var gl, gs := CornersStep(g1, e, key, {l}), CornersStep(g1, e, key, SiteIds(e));
      var g2 := BothCorners(g1, e, key);
      var linked := g2.(corners := Link(g2.corners, a, b));
      RegisterBothTwice(linked, a, b, {l}, {r});
      assert {l} + {r} == SiteIds(e);
      assert RegisterBoth(gl, a, b, {r}) == gs;
      TransformAllIgnoresPolygons(gl.edgeStore, gl.edges, gl.centers[l].edges, gl.corners, gs.corners, key);
      assert RegisterBoth(TransformStep(gl, l, key), a, b, {r}) == TransformStep(gs, l, key);
    } else {
      assert SiteIds(e) == {e.lSite};
    }
  }

  /** The graph of a whole raw edge list. */
  function Build(cells: seq<Cell>, raw: seq<RawEdge>, key: Point -> string): (r: GraphState)
    requires forall e :: e in raw ==> SitesInRange(e, cells)
    ensures CentersValid(r.centers, r.centersLength, |r.edgeStore|)
    decreases |raw|
  {
    if raw == [] then Empty()
    else
      var prefix := raw[..|raw| - 1];
      assert forall e :: e in prefix ==> e in raw;
      var g := Build(cells, prefix, key);
      StepCentersValid(g, raw[|raw| - 1], cells, key);
      Step(g, raw[|raw| - 1], cells, key)
  }

  lemma StepCentersValid(g: GraphState, e: RawEdge, cells: seq<Cell>, key: Point -> string)
    requires SitesInRange(e, cells)
    requires CentersValid(g.centers, g.centersLength, |g.edgeStore|)
    ensures var r := Step(g, e, cells, key); CentersValid(r.centers, r.centersLength, |r.edgeStore|)
  {
    CentersStepValid(g, e, cells);
    StepReordered(g, e, cells, key);
  }

  // ---------------------------------------------------------------------------
  // The main theorem: every prefix builds the graph it determines

  /** After the loop has handled `raw`, the graph is exactly the one `raw` determines. */
  lemma {:induction false} BuildIsBuilt(cells: seq<Cell>, raw: seq<RawEdge>, key: Point -> string)
    requires forall e :: e in raw ==> SitesInRange(e, cells)
    ensures Built(Build(cells, raw, key), raw, cells, key)
    decreases |raw|
  {
    if raw == [] {
      EmptyBuilt(cells, key);
    } else {
      var prefix := raw[..|raw| - 1];
      var e := raw[|raw| - 1];
      assert forall x :: x in prefix ==> x in raw;
      var g := Build(cells, prefix, key);
      BuildIsBuilt(cells, prefix, key);
      BuildSnoc(cells, raw, key);
      SnocPrefix(raw);
      StepKeepsBuilt(g, e, cells, key, prefix);
    }
  }

  /** A non-empty sequence is its last element appended to the rest. */
  lemma SnocPrefix<T>(s: seq<T>)
    requires s != []
    ensures s[..|s| - 1] + [s[|s| - 1]] == s
  {
  }

  /** Growing a prefix by one element. */
  lemma PrefixGrows<T>(s: seq<T>, i: nat)
    requires i < |s|
    ensures s[..i + 1][..i] == s[..i] && s[..i + 1][i] == s[i] && |s[..i + 1]| == i + 1
    ensures forall x :: x in s[..i + 1] ==> x in s
  {
  }

  /** The graph of no edges, for the start of a loop over `raw` by index. */
  lemma BuildNone(cells: seq<Cell>, raw: seq<RawEdge>, key: Point -> string)
    ensures raw[..0] == []
    ensures Build(cells, raw[..0], key) == Empty()
  {
  }

  /** The graph of one more edge, for a loop over `raw` by index. */
  lemma BuildNext(cells: seq<Cell>, raw: seq<RawEdge>, i: nat, key: Point -> string)
    requires forall e :: e in raw ==> SitesInRange(e, cells)
    requires i < |raw|
    ensures forall e :: e in raw[..i] ==> SitesInRange(e, cells)
    ensures forall e :: e in raw[..i + 1] ==> SitesInRange(e, cells)
    ensures Build(cells, raw[..i + 1], key) == Step(Build(cells, raw[..i], key), raw[i], cells, key)
  {
    PrefixGrows(raw, i);
    BuildSnoc(cells, raw[..i + 1], key);
  }

  /** The whole sequence is its own longest prefix. */
  lemma WholePrefix<T>(s: seq<T>)
    ensures s[..|s|] == s
  {
  }

  /** The last edge of the list is handled by one more iteration. */
  lemma BuildSnoc(cells: seq<Cell>, raw: seq<RawEdge>, key: Point -> string)
    requires forall e :: e in raw ==> SitesInRange(e, cells)
    requires raw != []
    ensures forall e :: e in raw[..|raw| - 1] ==> SitesInRange(e, cells)
    ensures Build(cells, raw, key) == Step(Build(cells, raw[..|raw| - 1], key), raw[|raw| - 1], cells, key)
  {
    assert forall e :: e in raw[..|raw| - 1] ==> e in raw;
  }

  /** The empty graph is the graph of no edges. */
  lemma EmptyBuilt(cells: seq<Cell>, key: Point -> string)
    ensures Built(Empty(), [], cells, key)
  {
    assert Sites([]) == {};
    assert VertexKeys([], key) == {};
  }

  /** One iteration turns the graph of `done` into the graph of `done + [e]`. */
  lemma StepKeepsBuilt(g: GraphState, e: RawEdge, cells: seq<Cell>, key: Point -> string, done: seq<RawEdge>)
    requires SitesInRange(e, cells)
    requires Built(g, done, cells, key)
    ensures Built(Step(g, e, cells, key), done + [e], cells, key)
  {
    StepReordered(g, e, cells, key);
    var g1 := CentersStep(g, e, cells);
    CentersPhase(g, e, cells, key, done);
    var g2 := CornersStep(g1, e, key, SiteIds(e));
    CornersPhase(g1, e, cells, key, done);
    var g3 := TransformStep(g2, e.lSite, key);
    TransformPhase(g2, e.lSite, cells, key, done + [e]);
    if e.rSite.Some? {
      TransformPhase(g3, e.rSite.value, cells, key, done + [e]);
    }
  }

  // ---------------------------------------------------------------------------
  // Centers phase

  /** What the centers phase leaves behind: the polygons of `done + [e]`, the corners still of `done`. */
  ghost predicate CentersDone(g: GraphState, done: seq<RawEdge>, e: RawEdge, cells: seq<Cell>, key: Point -> string)
  {
    && Valid(g)
    && CentersBuilt(g.centers, done + [e], cells) && NeighborsBuilt(g.centers, done + [e])
    && CornersBuilt(g.corners, done, key) && TouchesBuilt(g.corners, done, key) && AdjacentBuilt(g.corners, done, key)
    && EdgesBuilt(g.centers, g.edgeStore, cells)
    && SiteIds(e) <= g.centers.Keys
  }

  lemma CentersPhase(g: GraphState, e: RawEdge, cells: seq<Cell>, key: Point -> string, done: seq<RawEdge>)
    requires SitesInRange(e, cells)
    requires Built(g, done, cells, key)
    ensures CentersDone(CentersStep(g, e, cells), done, e, cells, key)
  {
    CentersStepValid(g, e, cells);
    WithSitesKeeps(g, e, cells);
    ConnectKeeps(WithSites(g, e, cells), e, cells);
    CentersStepBuilt(g, e, cells, done);
    CentersStepNeighbors(g, e, cells, done);
  }

  lemma CentersStepValid(g: GraphState, e: RawEdge, cells: seq<Cell>)
    requires SitesInRange(e, cells)
    requires CentersValid(g.centers, g.centersLength, |g.edgeStore|)
    ensures var r := CentersStep(g, e, cells); CentersValid(r.centers, r.centersLength, |r.edgeStore|)
  {
    var g1 := EnsureCenter(g, e.lSite, cells, e.rSite.None?);
    EnsureCenterValid(g, e.lSite, cells, e.rSite.None?);
    if e.rSite.Some? {
      EnsureCenterValid(g1, e.rSite.value, cells, false);
    }
    ConnectValid(WithSites(g, e, cells), e);
  }

  lemma EnsureCenterValid(g: GraphState, id: nat, cells: seq<Cell>, border: bool)
    requires id < |cells|
    requires CentersValid(g.centers, g.centersLength, |g.edgeStore|)
    ensures var r := EnsureCenter(g, id, cells, border); CentersValid(r.centers, r.centersLength, |r.edgeStore|)
  {
    var r := EnsureCenter(g, id, cells, border);
    if id !in g.centers {
      forall l, q | l in r.centers && q in r.centers[l].neighbors
        ensures q in r.centers && l in r.centers[q].neighbors
      {
        assert l != id;
      }
    }
  }

  lemma EnsureCenterStore(g: GraphState, id: nat, cells: seq<Cell>, border: bool)
    requires id < |cells|
    requires StoreValid(g.edgeStore, g.edges, g.corners) && PolygonsKnown(g.corners, g.centers.Keys)
    ensures var r := EnsureCenter(g, id, cells, border);
      StoreValid(r.edgeStore, r.edges, r.corners) && PolygonsKnown(r.corners, r.centers.Keys)
  {
    var r := EnsureCenter(g, id, cells, border);
    if id !in g.centers {
      var n := |g.edgeStore|;
      assert forall x :: 0 <= x < n ==> r.edgeStore[x] == g.edgeStore[x];
      assert forall x :: n <= x < |r.edgeStore| ==> r.edgeStore[x].start.Raw? && r.edgeStore[x].end.Raw?;
    }
  }

  lemma EnsureCenterEdges(g: GraphState, id: nat, cells: seq<Cell>, border: bool)
    requires id < |cells|
    requires CentersValid(g.centers, g.centersLength, |g.edgeStore|) && EdgesBuilt(g.centers, g.edgeStore, cells)
    ensures var r := EnsureCenter(g, id, cells, border); EdgesBuilt(r.centers, r.edgeStore, cells)
  {
    if id !in g.centers {
      var r := EnsureCenter(g, id, cells, border);
      var more := RawEdges(cells[id].halfedges);
      forall p | p in r.centers ensures EdgesFrom(r.centers[p].edges, p, r.edgeStore, cells) {
        if p == id {
          NewPolygonEdges(id, cells, g.edgeStore);
        } else {
          EdgesFromGrow(g.centers[p].edges, p, g.edgeStore, more, cells);
        }
      }
    }
  }

  /** Appending to the store keeps an edge list's objects where they were. */
  lemma EdgesFromGrow(edges: seq<nat>, id: nat, store: seq<Edge>, more: seq<Edge>, cells: seq<Cell>)
    requires EdgesFrom(edges, id, store, cells)
    ensures EdgesFrom(edges, id, store + more, cells)
  {
    forall j | 0 <= j < |edges| ensures (store + more)[edges[j]] == store[edges[j]] {
    }
  }

  /** A new polygon's edge list indexes the edge objects made from its half-edges. */
  lemma NewPolygonEdges(id: nat, cells: seq<Cell>, store: seq<Edge>)
    requires id < |cells|
    ensures var hs := cells[id].halfedges;
      EdgesFrom(Indices(|store|, |hs|), id, store + RawEdges(hs), cells)
  {
    var hs := cells[id].halfedges;
    var s2 := store + RawEdges(hs);
    forall j | 0 <= j < |hs| ensures s2[|store| + j] == RawEdges(hs)[j] {
    }
  }

  lemma EnsureCenterKeeps(g: GraphState, id: nat, cells: seq<Cell>, border: bool)
    requires id < |cells|
    requires Valid(g) && EdgesBuilt(g.centers, g.edgeStore, cells)
    ensures var r := EnsureCenter(g, id, cells, border); Valid(r) && EdgesBuilt(r.centers, r.edgeStore, cells)
  {
    EnsureCenterValid(g, id, cells, border);
    EnsureCenterStore(g, id, cells, border);
    EnsureCenterEdges(g, id, cells, border);
  }

  lemma WithSitesKeeps(g: GraphState, e: RawEdge, cells: seq<Cell>)
    requires SitesInRange(e, cells)
    requires Valid(g) && EdgesBuilt(g.centers, g.edgeStore, cells)
    ensures var r := WithSites(g, e, cells); Valid(r) && EdgesBuilt(r.centers, r.edgeStore, cells)
  {
    var g1 := EnsureCenter(g, e.lSite, cells, e.rSite.None?);
    EnsureCenterKeeps(g, e.lSite, cells, e.rSite.None?);
    if e.rSite.Some? {
      EnsureCenterKeeps(g1, e.rSite.value, cells, false);
    }
  }

  lemma ConnectValid(g: GraphState, e: RawEdge)
    requires e.lSite in g.centers && (e.rSite.Some? ==> e.rSite.value in g.centers)
    requires CentersValid(g.centers, g.centersLength, |g.edgeStore|)
    ensures var r := Connect(g, e); CentersValid(r.centers, r.centersLength, |r.edgeStore|)
  {
    if e.rSite.Some? {
      AddNeighborsSymmetric(g.centers, e.lSite, e.rSite.value);
    }
  }

  lemma ConnectKeeps(g: GraphState, e: RawEdge, cells: seq<Cell>)
    requires e.lSite in g.centers && (e.rSite.Some? ==> e.rSite.value in g.centers)
    requires Valid(g) && EdgesBuilt(g.centers, g.edgeStore, cells)
    ensures var r := Connect(g, e); Valid(r) && EdgesBuilt(r.centers, r.edgeStore, cells)
  {
    ConnectValid(g, e);
    var r := Connect(g, e);
    assert r.corners == g.corners && r.cornerOrder == g.cornerOrder && r.edgeStore == g.edgeStore;
    assert r.edges == g.edges && r.centers.Keys == g.centers.Keys;
    EdgesBuiltSameEdges(g.centers, r.centers, g.edgeStore, cells);
  }

  /** `EdgesBuilt` depends only on each polygon's edge list. */
  lemma EdgesBuiltSameEdges(c: map<nat, Polygon>, d: map<nat, Polygon>, store: seq<Edge>, cells: seq<Cell>)
    requires c.Keys == d.Keys && forall id :: id in c ==> c[id].edges == d[id].edges
    requires EdgesBuilt(c, store, cells)
    ensures EdgesBuilt(d, store, cells)
  {
    forall p | p in d ensures EdgesFrom(d[p].edges, p, store, cells) {
      assert c[p].edges == d[p].edges;
    }
  }

  /** The neighbour relation after `Connect` is the old one plus the pair the edge joins. */
  lemma ConnectNeighbors(g: GraphState, e: RawEdge)
    requires e.lSite in g.centers && (e.rSite.Some? ==> e.rSite.value in g.centers)
    ensures forall p, q :: p in g.centers ==>
      (q in Connect(g, e).centers[p].neighbors <==> q in g.centers[p].neighbors || Joins(e, p, q))
  {
  }

  lemma CentersStepBuilt(g: GraphState, e: RawEdge, cells: seq<Cell>, done: seq<RawEdge>)
    requires SitesInRange(e, cells)
    requires CentersBuilt(g.centers, done, cells)
    ensures CentersBuilt(CentersStep(g, e, cells).centers, done + [e], cells)
  {
    SitesSnoc(done, e);
    SitesCover(done);
    var g2 := WithSites(g, e, cells);
    var r := CentersStep(g, e, cells);
    forall id | id in r.centers
      ensures FreshPolygon(r.centers[id], cells) && (r.centers[id].border <==> BorderSite(done + [e], id))
    {
      assert r.centers[id] == g2.centers[id].(neighbors := r.centers[id].neighbors, border := r.centers[id].border);
    }
  }

  lemma CentersStepNeighbors(g: GraphState, e: RawEdge, cells: seq<Cell>, done: seq<RawEdge>)
    requires SitesInRange(e, cells)
    requires CentersBuilt(g.centers, done, cells) && NeighborsBuilt(g.centers, done)
    ensures NeighborsBuilt(CentersStep(g, e, cells).centers, done + [e])
  {
    SitesSnoc(done, e);
    SitesCover(done);
    var g2 := WithSites(g, e, cells);
    ConnectNeighbors(g2, e);
    var r := CentersStep(g, e, cells);
    forall p, q | p in r.centers
      ensures q in r.centers[p].neighbors <==> Joined(done + [e], p, q)
    {
      if p in g.centers {
        assert q in g2.centers[p].neighbors <==> Joined(done, p, q);
      } else {
        assert !Joined(done, p, q);
      }
    }
  }

  // ---------------------------------------------------------------------------
  // Corners phase

  lemma CornersPhase(g: GraphState, e: RawEdge, cells: seq<Cell>, key: Point -> string, done: seq<RawEdge>)
    requires CentersDone(g, done, e, cells, key)
    ensures Built(CornersStep(g, e, key, SiteIds(e)), done + [e], cells, key)
  {
    CornersStepValid(g, e, key, SiteIds(e));
    CornersStepStore(g, e, key, SiteIds(e));
    CornersStepBuilt(g, e, key, done);
    CornersStepTouches(g, e, key, done);
    CornersStepAdjacent(g, e, key, done);
  }

  /** One corner after the corners phase: its adjacency gains the link entries, its polygons the registered ids. */
  lemma CornerAfterStep(g: GraphState, e: RawEdge, key: Point -> string, ids: set<nat>, k: string)
    requires k in CornersStep(g, e, key, ids).corners
    ensures var a, b, c, r := key(e.va), key(e.vb), BothCorners(g, e, key).corners[k], CornersStep(g, e, key, ids).corners[k];
      && r.adjacent == c.adjacent + (if k == a then [b] else []) + (if k == b then [a] else [])
      && r.polygons == c.polygons + (if k == a || k == b then ids else {})
      && r == c.(adjacent := r.adjacent, polygons := r.polygons)
  {
    var a, b, g2 := key(e.va), key(e.vb), BothCorners(g, e, key);
    LinkAdjacent(g2.corners, a, b, k);
  }

  lemma WithCornerValid(g: GraphState, k: string, v: Point, centerIds: set<nat>)
    requires IdsMatchKeys(g.corners) && PolygonsKnown(g.corners, centerIds)
    requires AdjacencySymmetric(g.corners) && OrderExact(g.corners, g.cornerOrder)
    ensures var r := WithCorner(g, k, v);
      && IdsMatchKeys(r.corners) && PolygonsKnown(r.corners, centerIds)
      && AdjacencySymmetric(r.corners) && OrderExact(r.corners, r.cornerOrder)
  {
    if k !in g.corners {
      var c := Corner(k, v, [], {}, false, false, false, None);
      assert WithCorner(g, k, v).corners == g.corners[k := c];
      NewCornerSymmetric(g.corners, k, c);
      NewCornerOrder(g.corners, g.cornerOrder, k, c);
    }
  }

  /** A corner with no adjacency keeps the adjacency symmetric. */
  lemma NewCornerSymmetric(corners: map<string, Corner>, k: string, c: Corner)
    requires k !in corners && c.adjacent == []
    requires AdjacencySymmetric(corners)
    ensures AdjacencySymmetric(corners[k := c])
  {
    var r := corners[k := c];
    forall x, y | x in r && y in r
      ensures Occurrences(r[x].adjacent, y) == Occurrences(r[y].adjacent, x)
    {
      if x == k && y != k {
        assert k !in corners[y].adjacent;
      } else if y == k && x != k {
        assert k !in corners[x].adjacent;
      }
    }
  }

  /** A new key appended to the order keeps it exact. */
  lemma NewCornerOrder(corners: map<string, Corner>, order: seq<string>, k: string, c: Corner)
    requires k !in corners && OrderExact(corners, order)
    ensures OrderExact(corners[k := c], order + [k])
  {
    assert k !in order;
  }

  lemma LinkValid(c: map<string, Corner>, a: string, b: string, centerIds: set<nat>)
    requires a in c && b in c
    requires IdsMatchKeys(c) && PolygonsKnown(c, centerIds) && AdjacencySymmetric(c)
    requires forall k :: k in c ==> |c[k].adjacent| > 0 || k == a || k == b
    ensures IdsMatchKeys(Link(c, a, b)) && PolygonsKnown(Link(c, a, b), centerIds)
    ensures AdjacencySymmetric(Link(c, a, b)) && AllLinked(Link(c, a, b))
  {
    LinkSymmetric(c, a, b);
    forall k | k in c ensures Link(c, a, b)[k] == c[k].(adjacent := Link(c, a, b)[k].adjacent)
      ensures |Link(c, a, b)[k].adjacent| > 0
    {
      LinkAdjacent(c, a, b, k);
    }
  }

  lemma RegisterValid(g: GraphState, a: string, b: string, ids: set<nat>, centerIds: set<nat>)
    requires a in g.corners && b in g.corners && ids <= centerIds
    requires CornersValid(g.corners, g.cornerOrder, centerIds)
    ensures var r := RegisterBoth(g, a, b, ids); CornersValid(r.corners, r.cornerOrder, centerIds)
  {
    var r := RegisterBoth(g, a, b, ids);
    SameAdjacency(g.corners, r.corners, g.cornerOrder);
  }

  /** Changing only the polygons of corners keeps the adjacency and key invariants. */
  lemma SameAdjacency(c: map<string, Corner>, d: map<string, Corner>, order: seq<string>)
    requires c.Keys == d.Keys
    requires forall k :: k in c ==> d[k].adjacent == c[k].adjacent && d[k].id == c[k].id
    requires IdsMatchKeys(c) && AllLinked(c) && AdjacencySymmetric(c) && OrderExact(c, order)
    ensures IdsMatchKeys(d) && AllLinked(d) && AdjacencySymmetric(d) && OrderExact(d, order)
  {
    SameAdjacencySymmetric(c, d);
  }

  lemma SameAdjacencySymmetric(c: map<string, Corner>, d: map<string, Corner>)
    requires c.Keys == d.Keys
    requires forall k :: k in c ==> d[k].adjacent == c[k].adjacent
    requires AdjacencySymmetric(c)
    ensures AdjacencySymmetric(d)
  {
    forall x, y | x in d && y in d
      ensures Occurrences(d[x].adjacent, y) == Occurrences(d[y].adjacent, x)
    {
      assert d[x].adjacent == c[x].adjacent && d[y].adjacent == c[y].adjacent;
    }
  }

  lemma CornersStepValid(g: GraphState, e: RawEdge, key: Point -> string, ids: set<nat>)
    requires CornersValid(g.corners, g.cornerOrder, g.centers.Keys) && ids <= g.centers.Keys
    ensures var r := CornersStep(g, e, key, ids); CornersValid(r.corners, r.cornerOrder, r.centers.Keys)
  {
    var a, b, C := key(e.va), key(e.vb), g.centers.Keys;
    var g2 := BothCorners(g, e, key);
    BothCornersValid(g, e, key);
    LinkValid(g2.corners, a, b, C);
    var linked := g2.(corners := Link(g2.corners, a, b));
    assert CornersValid(linked.corners, linked.cornerOrder, C);
    RegisterValid(linked, a, b, ids, C);
    var r, r' := CornersStep(g, e, key, ids), RegisterBoth(linked, a, b, ids);
    assert r.corners == r'.corners && r.cornerOrder == r'.cornerOrder && r.centers.Keys == C;
  }

  lemma BothCornersValid(g: GraphState, e: RawEdge, key: Point -> string)
    requires CornersValid(g.corners, g.cornerOrder, g.centers.Keys)
    ensures var r, a, b := BothCorners(g, e, key), key(e.va), key(e.vb);
      && IdsMatchKeys(r.corners) && PolygonsKnown(r.corners, g.centers.Keys)
      && AdjacencySymmetric(r.corners) && OrderExact(r.corners, r.cornerOrder)
      && (forall k :: k in r.corners ==> |r.corners[k].adjacent| > 0 || k == a || k == b)
      && r.centers == g.centers
  {
    var C := g.centers.Keys;
    var g1 := WithCorner(g, key(e.va), e.va);
    WithCornerValid(g, key(e.va), e.va, C);
    WithCornerValid(g1, key(e.vb), e.vb, C);
  }

  lemma CornersStepStore(g: GraphState, e: RawEdge, key: Point -> string, ids: set<nat>)
    requires StoreValid(g.edgeStore, g.edges, g.corners)
    ensures var r := CornersStep(g, e, key, ids); StoreValid(r.edgeStore, r.edges, r.corners)
  {
    var r := CornersStep(g, e, key, ids);
    forall x | 0 <= x < |r.edgeStore| ensures EndsKnown(r.edgeStore[x], r.corners) {
      assert EndsKnown(g.edgeStore[x], g.corners);
    }
  }

  lemma CornersStepBuilt(g: GraphState, e: RawEdge, key: Point -> string, done: seq<RawEdge>)
    requires CornersBuilt(g.corners, done, key)
    ensures CornersBuilt(CornersStep(g, e, key, SiteIds(e)).corners, done + [e], key)
  {
    var r := CornersStep(g, e, key, SiteIds(e));
    KeysSnoc(done, e, key);
    forall k | k in r.corners
      ensures Some(r.corners[k].pos) == FirstVertex(done + [e], key, k) && FreshCorner(r.corners[k])
    {
      CornerAfterStep(g, e, key, SiteIds(e), k);
      FirstVertexSnoc(done, e, key, k);
    }
  }

  lemma CornersStepTouches(g: GraphState, e: RawEdge, key: Point -> string, done: seq<RawEdge>)
    requires CornersBuilt(g.corners, done, key) && TouchesBuilt(g.corners, done, key)
    ensures TouchesBuilt(CornersStep(g, e, key, SiteIds(e)).corners, done + [e], key)
  {
    var r := CornersStep(g, e, key, SiteIds(e));
    forall k, id | k in r.corners
      ensures id in r.corners[k].polygons <==> Touches(done + [e], key, k, id)
    {
      if k in g.corners {
        assert id in g.corners[k].polygons <==> Touches(done, key, k, id);
      } else {
        NotTouched(done, key, k, id);
      }
      CornerTouches(g, e, key, done, k, id);
    }
  }

  /** `TouchesBuilt` after the corners phase, for one corner and one polygon. */
  lemma CornerTouches(g: GraphState, e: RawEdge, key: Point -> string, done: seq<RawEdge>, k: string, id: nat)
    requires k in g.corners ==> (id in g.corners[k].polygons <==> Touches(done, key, k, id))
    requires k !in g.corners ==> !Touches(done, key, k, id)
    requires k in CornersStep(g, e, key, SiteIds(e)).corners
    ensures id in CornersStep(g, e, key, SiteIds(e)).corners[k].polygons <==> Touches(done + [e], key, k, id)
  {
    CornerAfterStep(g, e, key, SiteIds(e), k);
    TouchesSnoc(done, e, key, k, id);
  }

  lemma CornersStepAdjacent(g: GraphState, e: RawEdge, key: Point -> string, done: seq<RawEdge>)
    requires CornersBuilt(g.corners, done, key) && AdjacentBuilt(g.corners, done, key)
    ensures AdjacentBuilt(CornersStep(g, e, key, SiteIds(e)).corners, done + [e], key)
  {
    var r := CornersStep(g, e, key, SiteIds(e));
    forall x, y | x in r.corners
      ensures y in r.corners[x].adjacent <==> Linked(done + [e], key, x, y)
    {
      if x in g.corners {
        assert y in g.corners[x].adjacent <==> Linked(done, key, x, y);
      } else {
        NotLinked(done, key, x, y);
      }
      CornerAdjacent(g, e, key, done, x, y);
    }
  }

  /** Membership in an adjacency list after `Link` pushed `b` onto `a` and `a` onto `b`. */
  lemma PushedMember(s: seq<string>, a: string, b: string, x: string, y: string)
    ensures var t := s + (if x == a then [b] else []) + (if x == b then [a] else []);
      y in t <==> y in s || (x == a && y == b) || (x == b && y == a)
  {
  }

  /** `AdjacentBuilt` after the corners phase, for one pair of corners. */
  lemma CornerAdjacent(g: GraphState, e: RawEdge, key: Point -> string, done: seq<RawEdge>, x: string, y: string)
    requires x in g.corners ==> (y in g.corners[x].adjacent <==> Linked(done, key, x, y))
    requires x !in g.corners ==> !Linked(done, key, x, y)
    requires x in CornersStep(g, e, key, SiteIds(e)).corners
    ensures y in CornersStep(g, e, key, SiteIds(e)).corners[x].adjacent <==> Linked(done + [e], key, x, y)
  {
    CornerAfterStep(g, e, key, SiteIds(e), x);
    LinkedSnoc(done, e, key, x, y);
    PushedMember(BothCorners(g, e, key).corners[x].adjacent, key(e.va), key(e.vb), x, y);
  }

  // ---------------------------------------------------------------------------
  // Edge phase

  lemma TransformPhase(g: GraphState, id: nat, cells: seq<Cell>, key: Point -> string, es: seq<RawEdge>)
    requires id in g.centers
    requires Built(g, es, cells, key)
    ensures Built(TransformStep(g, id, key), es, cells, key)
  {
    TransformAllKeeps(g.edgeStore, g.edges, g.centers[id].edges, g.corners, key);
    TransformEdgesBuilt(g, id, cells, key);
  }

  lemma TransformEdgesBuilt(g: GraphState, id: nat, cells: seq<Cell>, key: Point -> string)
    requires id in g.centers && IdsMatchKeys(g.corners)
    requires EdgesBuilt(g.centers, g.edgeStore, cells)
    ensures var r := TransformStep(g, id, key); EdgesBuilt(r.centers, r.edgeStore, cells)
  {
    var r := TransformStep(g, id, key);
    TransformAllKeeps(g.edgeStore, g.edges, g.centers[id].edges, g.corners, key);
    forall p | p in r.centers ensures EdgesFrom(r.centers[p].edges, p, r.edgeStore, cells) {
      var ix := g.centers[p].edges;
      assert EdgesFrom(ix, p, g.edgeStore, cells);
      forall j | 0 <= j < |ix| ensures FromHalfEdge(r.edgeStore[ix[j]], cells[p].halfedges[j]) {
        assert FromHalfEdge(g.edgeStore[ix[j]], cells[p].halfedges[j]);
      }
    }
  }

  // ---------------------------------------------------------------------------
  // Where the rewritten edge objects point

  /** An edge object of half-edge `h`: still raw, or rewritten to the corners keyed by its two vertices. */
  ghost predicate Resolved(ed: Edge, h: HalfEdge, key: Point -> string)
  {
    || (ed.start == Raw(h.start) && ed.end == Raw(h.end))
    || (ed.start == Canon(key(h.start)) && ed.end == Canon(key(h.end)))
  }

  /** Every polygon's edge objects are resolved against the half-edges of its cell. */
  ghost predicate EdgesResolved(centers: map<nat, Polygon>, store: seq<Edge>, cells: seq<Cell>, key: Point -> string)
  {
    forall id, j ::
      (id in centers && id < |cells| && 0 <= j < |centers[id].edges| && j < |cells[id].halfedges|
       && centers[id].edges[j] < |store|) ==> Resolved(store[centers[id].edges[j]], cells[id].halfedges[j], key)
  }

  /** Every `edges` entry is filed under the key of the two corners its edge object joins. */
  ghost predicate EdgesJoin(store: seq<Edge>, edges: map<string, nat>)
  {
    forall k :: k in edges ==>
      && edges[k] < |store| && IsCanonical(store[edges[k]])
      && k == EdgeKey(store[edges[k]].start.corner, store[edges[k]].end.corner)
  }

  /** No vertex of the raw edges is keyed by the string a corner object turns into. */
  ghost predicate PlainKeys(raw: seq<RawEdge>, key: Point -> string)
  {
    ObjectKey !in VertexKeys(raw, key)
  }

  /**
   * While no corner sits under the key a corner object turns into, a pass of
   * `_transformEdge` rewrites a raw edge object to the corners of its own
   * vertices, and files every edge it rewrites under the key of the corners
   * it now joins.
   */
  lemma {:induction false} TransformAllResolves(store: seq<Edge>, edges: map<string, nat>, idxs: seq<nat>,
                                                corners: map<string, Corner>, key: Point -> string)
    requires forall j :: 0 <= j < |idxs| ==> idxs[j] < |store|
    requires IdsMatchKeys(corners) && ObjectKey !in corners
    requires EdgesJoin(store, edges)
    ensures var r := TransformAll(store, edges, idxs, corners, key);
      && (forall x, h :: 0 <= x < |store| && Resolved(store[x], h, key) ==> Resolved(r.0[x], h, key))
      && EdgesJoin(r.0, r.1)
    decreases |idxs|
  {
    if idxs != [] {
      var init := idxs[..|idxs| - 1];
      TransformAllResolves(store, edges, init, corners, key);
      var p := TransformAll(store, edges, init, corners, key);
      var i := idxs[|idxs| - 1];
      var r := TransformOne(p.0, p.1, i, corners, key);
      assert r == TransformAll(store, edges, idxs, corners, key);
      match Transformed(corners, p.0[i], key)
      case None =>
      case Some((k, ed)) =>
        assert r.0 == p.0[i := ed] && r.1 == p.1[k := i];
        if p.0[i].start.Canon? || p.0[i].end.Canon? {
          TransformCanonicalIsStable(corners, p.0[i], key);
          assert false;
        }
        forall x, h | 0 <= x < |store| && Resolved(store[x], h, key) ensures Resolved(r.0[x], h, key) {
          assert Resolved(p.0[x], h, key);
        }
        forall k' | k' in r.1 && k' != k ensures r.1[k'] != i {
          assert IsCanonical(p.0[p.1[k']]);
        }
    }
  }

  /** The edge phase for one polygon keeps the edge objects resolved and the `edges` map filed by corners. */
  lemma TransformStepResolves(g: GraphState, id: nat, cells: seq<Cell>, key: Point -> string)
    requires id in g.centers
    requires forall j :: 0 <= j < |g.centers[id].edges| ==> g.centers[id].edges[j] < |g.edgeStore|
    requires IdsMatchKeys(g.corners) && ObjectKey !in g.corners
    requires EdgesResolved(g.centers, g.edgeStore, cells, key) && EdgesJoin(g.edgeStore, g.edges)
    ensures var r := TransformStep(g, id, key);
      EdgesResolved(r.centers, r.edgeStore, cells, key) && EdgesJoin(r.edgeStore, r.edges)
  {
    TransformAllResolves(g.edgeStore, g.edges, g.centers[id].edges, g.corners, key);
  }

  /** A new polygon's edge objects are raw copies of its half-edges; the others keep theirs. */
  lemma EnsureCenterResolves(g: GraphState, id: nat, cells: seq<Cell>, border: bool, key: Point -> string)
    requires id < |cells|
    requires CentersValid(g.centers, g.centersLength, |g.edgeStore|)
    requires EdgesResolved(g.centers, g.edgeStore, cells, key) && EdgesJoin(g.edgeStore, g.edges)
    ensures var r := EnsureCenter(g, id, cells, border);
      EdgesResolved(r.centers, r.edgeStore, cells, key) && EdgesJoin(r.edgeStore, r.edges)
  {
    if id !in g.centers {
      var r := EnsureCenter(g, id, cells, border);
      var n, hs := |g.edgeStore|, cells[id].halfedges;
      assert forall x :: 0 <= x < n ==> r.edgeStore[x] == g.edgeStore[x];
      forall p, j | p in r.centers && p < |cells| && 0 <= j < |r.centers[p].edges| && j < |cells[p].halfedges|
          && r.centers[p].edges[j] < |r.edgeStore|
        ensures Resolved(r.edgeStore[r.centers[p].edges[j]], cells[p].halfedges[j], key)
      {
        if p == id {
          assert r.centers[p].edges[j] == n + j;
          assert r.edgeStore[n + j] == RawEdges(hs)[j];
        } else {
          assert r.centers[p] == g.centers[p];
        }
      }
    }
  }

  /** The centers phase keeps the edge objects resolved and the `edges` map filed by corners. */
  lemma CentersStepResolves(g: GraphState, e: RawEdge, cells: seq<Cell>, key: Point -> string)
    requires SitesInRange(e, cells)
    requires CentersValid(g.centers, g.centersLength, |g.edgeStore|)
    requires EdgesResolved(g.centers, g.edgeStore, cells, key) && EdgesJoin(g.edgeStore, g.edges)
    ensures var r := CentersStep(g, e, cells);
      EdgesResolved(r.centers, r.edgeStore, cells, key) && EdgesJoin(r.edgeStore, r.edges)
  {
    var g1 := EnsureCenter(g, e.lSite, cells, e.rSite.None?);
    EnsureCenterValid(g, e.lSite, cells, e.rSite.None?);
    EnsureCenterResolves(g, e.lSite, cells, e.rSite.None?, key);
    if e.rSite.Some? {
      EnsureCenterResolves(g1, e.rSite.value, cells, false, key);
    }
    var g2 := WithSites(g, e, cells);
    var r := Connect(g2, e);
    assert forall p :: p in r.centers ==> r.centers[p].edges == g2.centers[p].edges;
  }

  /** One iteration keeps the edge objects resolved and the `edges` map filed by corners. */
  lemma StepResolves(g: GraphState, e: RawEdge, cells: seq<Cell>, key: Point -> string, done: seq<RawEdge>)
    requires SitesInRange(e, cells)
    requires Built(g, done, cells, key) && PlainKeys(done + [e], key)
    requires EdgesResolved(g.centers, g.edgeStore, cells, key) && EdgesJoin(g.edgeStore, g.edges)
    ensures var r := Step(g, e, cells, key);
      EdgesResolved(r.centers, r.edgeStore, cells, key) && EdgesJoin(r.edgeStore, r.edges)
  {
    StepReordered(g, e, cells, key);
    CentersStepResolves(g, e, cells, key);
    var g1 := CentersStep(g, e, cells);
    CentersPhase(g, e, cells, key, done);
    CornersPhase(g1, e, cells, key, done);
    var g2 := CornersStep(g1, e, key, SiteIds(e));
    assert ObjectKey !in g2.corners;
    TransformStepResolves(g2, e.lSite, cells, key);
    if e.rSite.Some? {
      TransformStepResolves(TransformStep(g2, e.lSite, key), e.rSite.value, cells, key);
    }
  }

  /**
   * The graph built from a raw edge list whose vertex keys are plain: each
   * polygon's edge objects are either raw copies of its half-edges or
   * rewritten to exactly the corners keyed by the half-edge's two vertices,
   * and every `edges` entry is filed under the key of the two corners its
   * edge object joins.
   */
  lemma {:induction false} BuildResolves(cells: seq<Cell>, raw: seq<RawEdge>, key: Point -> string)
    requires forall e :: e in raw ==> SitesInRange(e, cells)
    requires PlainKeys(raw, key)
    ensures var g := Build(cells, raw, key);
      EdgesResolved(g.centers, g.edgeStore, cells, key) && EdgesJoin(g.edgeStore, g.edges)
    decreases |raw|
  {
    if raw != [] {
      var prefix, e := raw[..|raw| - 1], raw[|raw| - 1];
      assert forall x :: x in prefix ==> x in raw;
      SnocPrefix(raw);
      KeysSnoc(prefix, e, key);
      BuildResolves(cells, prefix, key);
      BuildIsBuilt(cells, prefix, key);
      BuildSnoc(cells, raw, key);
      StepResolves(Build(cells, prefix, key), e, cells, key, prefix);
    }
  }

  /**
   * With separator-free corner ids, the edge object `getEdge(a, b)` finds
   * joins corners `a` and `b`, in one direction or the other.
   */
  lemma GetEdgeJoins(store: seq<Edge>, edges: map<string, nat>, a: string, b: string)
    requires EdgesJoin(store, edges)
    requires '-' !in a && '-' !in b
    requires forall x :: 0 <= x < |store| && IsCanonical(store[x]) ==>
      '-' !in store[x].start.corner && '-' !in store[x].end.corner
    ensures GetEdge(edges, a, b).Some? ==>
      var ed := store[GetEdge(edges, a, b).value];
      (ed.start.corner == a && ed.end.corner == b) || (ed.start.corner == b && ed.end.corner == a)
  {
    if EdgeKey(a, b) in edges {
      var ed := store[edges[EdgeKey(a, b)]];
      EdgeKeyInjective(ed.start.corner, ed.end.corner, a, b);
    } else if EdgeKey(b, a) in edges {
      var ed := store[edges[EdgeKey(b, a)]];
      EdgeKeyInjective(ed.start.corner, ed.end.corner, b, a);
    }
  }
}
