/**
 * The `Polygons` namespace object: the graph maps it holds and the methods
 * that fill them (`generate` after the Voronoi call, `_transformEdge`) or
 * read them (`getEdge`).
 */
module Polygons {
  import opened Wrappers
  import opened Entities
  import opened GraphBuild

  // ---------------------------------------------------------------------------
  // The object

  /** The `Polygons` object: map size, the three graph maps and the loaded modules. */
  class Graph {
    var mapWidth: real
    var mapHeight: real
    /** `centers`, a JavaScript array indexed by cell id; `centersLength` is its `length`. */
    var centers: map<nat, Polygon>
    var centersLength: nat
    /** `corners` and the order in which their keys were inserted (the iteration order). */
    var corners: map<string, Corner>
    var cornerOrder: seq<string>
    /** `edges`: edge-store index by "startId-endId". */
    var edges: map<string, nat>
    /** Every edge object made by `util.getEdges`; an edge reference is an index here. */
    var edgeStore: seq<Edge>
    /** Names of the modules `load` attached (lower case). */
    var loadedModules: set<string>

    /** The graph fields as one value. */
    function State(): GraphState
      reads this
    {
      GraphState(centers, centersLength, corners, cornerOrder, edges, edgeStore)
    }

    /** An empty graph with the given modules loaded (`load` itself is not modelled). */
    constructor (modules: set<string>)
      ensures State() == Empty() && loadedModules == modules
    {
      mapWidth, mapHeight := 0.0, 0.0;
      centers, centersLength := map[], 0;
      corners, cornerOrder := map[], [];
      edges, edgeStore := map[], [];
      loadedModules := modules;
    }

    /**
     * `generate` from line 203 on: the graph of the final Voronoi `cells` and
     * `raw` edges, built from empty maps.
     */
    method Generate(height: real, width: real, cells: seq<Cell>, raw: seq<RawEdge>, key: Point -> string)
      requires forall e :: e in raw ==> SitesInRange(e, cells)
      modifies this`mapHeight, this`mapWidth, this`centers, this`centersLength, this`corners,
        this`cornerOrder, this`edges, this`edgeStore
      ensures State() == Build(cells, raw, key)
      ensures mapHeight == height && mapWidth == width
    {
      mapHeight, mapWidth := height, width;
      centers, centersLength := map[], 0;
      corners, cornerOrder := map[], [];
      edges, edgeStore := map[], [];
      BuildNone(cells, raw, key);
      var i := 0;
      while i < |raw|
        invariant 0 <= i <= |raw|
        invariant mapHeight == height && mapWidth == width
        invariant forall e :: e in raw[..i] ==> SitesInRange(e, cells)
        invariant State() == Build(cells, raw[..i], key)
      {
        BuildNext(cells, raw, i, key);
        AddRawEdge(raw[i], cells, key);
        i := i + 1;
      }
      WholePrefix(raw);
    }

    /** The body of the loop over raw edges, for one edge. */
    method AddRawEdge(e: RawEdge, cells: seq<Cell>, key: Point -> string)
      requires SitesInRange(e, cells)
      requires CentersValid(centers, centersLength, |edgeStore|)
      modifies this`centers, this`centersLength, this`corners, this`cornerOrder, this`edges, this`edgeStore
      ensures State() == Step(old(State()), e, cells, key)
    {
      CentersStepValid(State(), e, cells);
      AddCenters(e, cells);
      AddCorners(e, key);
      TransformEdges(e.lSite, key);
      if e.rSite.Some? {
        RegisterPolygon(key(e.va), key(e.vb), e.rSite.value);
        TransformEdges(e.rSite.value, key);
      }
    }

    /** The centers part of the loop body: create both site polygons, then neighbours or border. */
    method AddCenters(e: RawEdge, cells: seq<Cell>)
      requires SitesInRange(e, cells)
      modifies this`centers, this`centersLength, this`edgeStore
      ensures State() == CentersStep(old(State()), e, cells)
    {
      var l := e.lSite;
      if l !in centers {
        CreateCenter(l, cells, e.rSite.None?);
      }
      if e.rSite.Some? && e.rSite.value !in centers {
        CreateCenter(e.rSite.value, cells, false);
      }
      if e.rSite.Some? {
        centers := AddNeighbors(centers, l, e.rSite.value);
      } else {
        centers := centers[l := centers[l].(border := true)];
      }
    }

    /** A new polygon for cell `id` with fresh raw edge objects (`util.getEdges`). */
    method CreateCenter(id: nat, cells: seq<Cell>, border: bool)
      requires id < |cells| && id !in centers
      modifies this`centers, this`centersLength, this`edgeStore
      ensures State() == EnsureCenter(old(State()), id, cells, border)
    {
      var n := |edgeStore|;
      var hs := cells[id].halfedges;
      edgeStore := edgeStore + RawEdges(hs);
      centers := centers[id := Polygon(id, cells[id].site, {}, border, Indices(n, |hs|), false, None, None, None)];
      if centersLength <= id {
        centersLength := id + 1;
      }
    }

    /** The corners part of the loop body: create both corners, link them, register the left polygon. */
    method AddCorners(e: RawEdge, key: Point -> string)
      modifies this`corners, this`cornerOrder
      ensures State() == CornersStep(old(State()), e, key, {e.lSite})
    {
      var vA, vB := key(e.va), key(e.vb);
      if vA !in corners {
        corners := corners[vA := Corner(vA, e.va, [], {}, false, false, false, None)];
        cornerOrder := cornerOrder + [vA];
      }
      if vB !in corners {
        corners := corners[vB := Corner(vB, e.vb, [], {}, false, false, false, None)];
        cornerOrder := cornerOrder + [vB];
      }
      corners := Link(corners, vA, vB);
      corners := Register(corners, vA, {e.lSite});
      corners := Register(corners, vB, {e.lSite});
    }

    /** `corners[vA].polygons[id] = ...; corners[vB].polygons[id] = ...`. */
    method RegisterPolygon(vA: string, vB: string, id: nat)
      requires vA in corners && vB in corners
      modifies this`corners
      ensures State() == RegisterBoth(old(State()), vA, vB, {id})
    {
      corners := Register(corners, vA, {id});
      corners := Register(corners, vB, {id});
    }

    /** `_transformEdge(index, edge)`: rewrite the edge to its corners when both resolve, and store it. */
    method TransformEdge(index: nat, key: Point -> string)
      requires index < |edgeStore|
      modifies this`edgeStore, this`edges
      ensures (edgeStore, edges) == TransformOne(old(edgeStore), old(edges), index, corners, key)
      ensures match Transformed(corners, old(edgeStore[index]), key)
        case Some((k, ed)) => edgeStore[index] == ed && edges[k] == index
        case None => edgeStore == old(edgeStore) && edges == old(edges)
    {
      var ks, ke := ResolveKey(edgeStore[index].start, key), ResolveKey(edgeStore[index].end, key);
      if ks in corners && ke in corners {
        var s, t := corners[ks].id, corners[ke].id;
        var edgeId := EdgeKey(s, t);
        edgeStore := edgeStore[index := edgeStore[index].(start := Canon(s), end := Canon(t))];
        edges := edges[edgeId := index];
      }
    }

    /** `iter(this.centers[id].edges, this, this._transformEdge)`. */
    method TransformEdges(id: nat, key: Point -> string)
      requires id in centers
      requires forall j :: 0 <= j < |centers[id].edges| ==> centers[id].edges[j] < |edgeStore|
      modifies this`edgeStore, this`edges
      ensures State() == TransformStep(old(State()), id, key)
    {
      var idxs := centers[id].edges;
      var j := 0;
      while j < |idxs|
        invariant 0 <= j <= |idxs|
        invariant |edgeStore| == old(|edgeStore|)
        invariant (edgeStore, edges) == TransformAll(old(edgeStore), old(edges), idxs[..j], corners, key)
      {
        assert idxs[..j + 1][..j] == idxs[..j];
        TransformEdge(idxs[j], key);
        j := j + 1;
      }
      assert idxs[..j] == idxs;
    }

    /** `getEdge(start, end)`, read from the graph's `edges` map. */
    function EdgeBetween(a: string, b: string): (r: Option<nat>)
      reads this
      requires StoreValid(edgeStore, edges, corners)
      ensures r.Some? ==> r.value < |edgeStore| && IsCanonical(edgeStore[r.value])
      ensures r.Some? <==> EdgeKey(a, b) in edges || EdgeKey(b, a) in edges
      ensures r.Some? && EdgesJoin(edgeStore, edges) ==>
        EdgeKey(edgeStore[r.value].start.corner, edgeStore[r.value].end.corner)
          == if EdgeKey(a, b) in edges then EdgeKey(a, b) else EdgeKey(b, a)
    {
      GetEdge(edges, a, b)
    }
  }
}
