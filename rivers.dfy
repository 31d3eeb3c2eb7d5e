/**
 * `Polygons.Rivers` (modules/rivers.js): each river starts at the first edge
 * corner of a random land polygon and follows the lowest neighbouring corner
 * until it leaves the land, painting every edge it crosses.
 *
 * `Math.random()` is an input: `random(k)` is the value of the stage's `k`-th
 * call. The two `while` loops of the source need not end (a resampling loop
 * that keeps hitting ocean, a walk that cycles on land); each is given a
 * budget `fuel` of iterations and reports `OutOfFuel` when it runs out.
 */
module Rivers {
  import opened Wrappers
  import opened Entities
  import opened GraphBuild
  import opened Polygons
  import Elevation

  const RiverStroke: string := "#0000FF"
  const RiverThickness: int := 5

  /** How a piece of the stage ended: normally, by a JavaScript `TypeError`, or by exhausting its budget. */
  datatype Outcome = Done | TypeError | OutOfFuel

  // ---------------------------------------------------------------------------
  // `_lowestNeighbor`

  /** JavaScript `x < y` on elevations: a comparison with `undefined` is false. */
  predicate Below(x: Option<real>, y: Option<real>)
  {
    x.Some? && y.Some? && x.value < y.value
  }

  /**
   * The index `reduce((a, b) => b.elevation < a.elevation ? b : a)` ends on:
   * a later corner replaces the running one only when it is strictly lower.
   */
  function LowestAt(corners: map<string, Corner>, adj: seq<string>): (i: nat)
    requires adj != [] && forall a :: a in adj ==> a in corners
    ensures i < |adj|
  {
    if |adj| == 1 then 0
    else
      var i := LowestAt(corners, adj[..|adj| - 1]);
      if Below(corners[adj[|adj| - 1]].elevation, corners[adj[i]].elevation) then |adj| - 1 else i
  }

  /** `_lowestNeighbor(corner)`; `reduce` without a seed throws on an empty list. */
  function LowestNeighbor(corners: map<string, Corner>, k: string): (r: Option<string>)
    requires AdjacencyKnown(corners)
    requires k in corners
    ensures r.Some? <==> corners[k].adjacent != []
    ensures r.Some? ==> r.value in corners[k].adjacent && r.value in corners
  {
    var adj := corners[k].adjacent;
    if adj == [] then None else Some(adj[LowestAt(corners, adj)])
  }

  /**
   * With every elevation defined the reduction picks the first lowest corner:
   * none is lower, and every earlier one is strictly higher.
   */
  lemma {:induction false} LowestIsFirstMinimum(corners: map<string, Corner>, adj: seq<string>)
    requires adj != [] && forall a :: a in adj ==> a in corners && corners[a].elevation.Some?
    ensures var i := LowestAt(corners, adj);
      && (forall j :: 0 <= j < |adj| ==> corners[adj[i]].elevation.value <= corners[adj[j]].elevation.value)
      && (forall j :: 0 <= j < i ==> corners[adj[i]].elevation.value < corners[adj[j]].elevation.value)
  {
    if |adj| > 1 {
      var init := adj[..|adj| - 1];
      assert forall a :: a in init ==> a in adj;
      LowestIsFirstMinimum(corners, init);
      var i := LowestAt(corners, init);
      assert forall j :: 0 <= j < |init| ==> adj[j] == init[j];
    }
  }

  /** An undefined running value is never replaced: a first corner without elevation wins. */
  lemma {:induction false} UndefinedFirstSticks(corners: map<string, Corner>, adj: seq<string>)
    requires adj != [] && forall a :: a in adj ==> a in corners
    requires corners[adj[0]].elevation.None?
    ensures LowestAt(corners, adj) == 0
  {
    if |adj| > 1 {
      var init := adj[..|adj| - 1];
      assert forall a :: a in init ==> a in adj;
      UndefinedFirstSticks(corners, init);
    }
  }

  // ---------------------------------------------------------------------------
  // Following the slope

  /**
   * The result of one river walk: how it ended, the edge store after it, the
   * corners it passed and the store indices of the edges it crossed.
   */
  datatype Trace = Trace(outcome: Outcome, store: seq<Edge>, path: seq<string>, crossed: seq<nat>)

  /** `edge.stroke = RiverStroke; edge.thickness = 5`. */
  function Paint(ed: Edge): (r: Edge)
    ensures r.start == ed.start && r.end == ed.end
    ensures r.stroke == Some(RiverStroke) && r.thickness == Some(RiverThickness)
  {
    ed.(stroke := Some(RiverStroke), thickness := Some(RiverThickness))
  }

  /** `store2` is `store1` with some edges painted. */
  ghost predicate PaintedFrom(store1: seq<Edge>, store2: seq<Edge>)
  {
    |store2| == |store1| && forall x :: 0 <= x < |store1| ==> store2[x] == store1[x] || store2[x] == Paint(store1[x])
  }

  lemma PaintedFromTrans(s1: seq<Edge>, s2: seq<Edge>, s3: seq<Edge>)
    requires PaintedFrom(s1, s2) && PaintedFrom(s2, s3)
    ensures PaintedFrom(s1, s3)
  {
    forall x | 0 <= x < |s1| ensures s3[x] == s1[x] || s3[x] == Paint(s1[x]) {
      if s2[x] != s1[x] {
        assert Paint(Paint(s1[x])) == Paint(s1[x]);
      }
    }
  }

  /** `store2` is `store1` with exactly the edges at the indices in `crossed` painted. */
  ghost predicate PaintedAlong(store1: seq<Edge>, store2: seq<Edge>, crossed: seq<nat>)
  {
    |store2| == |store1| && forall x :: 0 <= x < |store1| ==> store2[x] == if x in crossed then Paint(store1[x]) else store1[x]
  }

  /** Painting along one path and then another paints along both. */
  lemma PaintedAlongTrans(s1: seq<Edge>, s2: seq<Edge>, s3: seq<Edge>, a: seq<nat>, b: seq<nat>)
    requires PaintedAlong(s1, s2, a) && PaintedAlong(s2, s3, b)
    ensures PaintedAlong(s1, s3, a + b)
  {
    forall x | 0 <= x < |s1| ensures s3[x] == if x in a + b then Paint(s1[x]) else s1[x] {
      assert Paint(Paint(s1[x])) == Paint(s1[x]);
    }
  }

  ghost predicate EdgesIndexed(edges: map<string, nat>, store: seq<Edge>)
  {
    forall k :: k in edges ==> edges[k] < |store|
  }

  /**
   * `path` runs downhill from land corner to lowest neighbour, and `crossed[i]`
   * is the edge `getEdge` finds between `path[i]` and `path[i + 1]`.
   */
  ghost predicate Descends(corners: map<string, Corner>, edges: map<string, nat>, path: seq<string>, crossed: seq<nat>)
    requires AdjacencyKnown(corners)
  {
    && path != [] && (forall k :: k in path ==> k in corners)
    && |crossed| == |path| - 1
    && forall i :: 0 <= i < |crossed| ==>
      && corners[path[i]].land
      && LowestNeighbor(corners, path[i]) == Some(path[i + 1])
      && GetEdge(edges, corners[path[i]].id, corners[path[i + 1]].id) == Some(crossed[i])
  }

  /** One more downhill step in front of a descending path. */
  lemma DescendsCons(corners: map<string, Corner>, edges: map<string, nat>, k: string, x: nat,
                     path: seq<string>, crossed: seq<nat>)
    requires AdjacencyKnown(corners) && Descends(corners, edges, path, crossed)
    requires k in corners && corners[k].land && LowestNeighbor(corners, k) == Some(path[0])
    requires GetEdge(edges, corners[k].id, corners[path[0]].id) == Some(x)
    ensures Descends(corners, edges, [k] + path, [x] + crossed)
  {
    var p, c := [k] + path, [x] + crossed;
    forall i | 0 <= i < |c|
      ensures corners[p[i]].land && LowestNeighbor(corners, p[i]) == Some(p[i + 1])
      ensures GetEdge(edges, corners[p[i]].id, corners[p[i + 1]].id) == Some(c[i])
    {
      if i > 0 {
        assert p[i] == path[i - 1] && p[i + 1] == path[i] && c[i] == crossed[i - 1];
      }
    }
  }

  /** `while (current.land) { ... }` from the corner `current`, as a value. */
  function Walk(corners: map<string, Corner>, edges: map<string, nat>, store: seq<Edge>, current: string, fuel: nat)
    : (t: Trace)
    requires AdjacencyKnown(corners) && current in corners && EdgesIndexed(edges, store)
    ensures PaintedFrom(store, t.store)
    ensures t.path != [] && t.path[0] == current && forall k :: k in t.path ==> k in corners
    ensures forall i :: 0 <= i < |t.path| - 1 ==>
      corners[t.path[i]].land && LowestNeighbor(corners, t.path[i]) == Some(t.path[i + 1])
    ensures t.outcome == Done ==> !corners[t.path[|t.path| - 1]].land
    decreases fuel
  {
    if !corners[current].land then Trace(Done, store, [current], [])
    else if fuel == 0 then Trace(OutOfFuel, store, [current], [])
    else match LowestNeighbor(corners, current)
      case None => Trace(TypeError, store, [current], [])
      case Some(next) =>
        match GetEdge(edges, corners[current].id, corners[next].id)
        case None => Trace(TypeError, store, [current], [])
        case Some(x) =>
          var store' := store[x := Paint(store[x])];
          var t := Walk(corners, edges, store', next, fuel - 1);
          PaintedFromTrans(store, store', t.store);
          Trace(t.outcome, t.store, [current] + t.path, [x] + t.crossed)
  }

  /** A walk that takes a step: it paints the edge crossed and walks on from the lowest neighbour. */
  lemma WalkStep(corners: map<string, Corner>, edges: map<string, nat>, store: seq<Edge>, current: string,
                 fuel: nat, next: string, x: nat)
    requires AdjacencyKnown(corners) && current in corners && EdgesIndexed(edges, store)
    requires corners[current].land && fuel > 0 && LowestNeighbor(corners, current) == Some(next)
    requires GetEdge(edges, corners[current].id, corners[next].id) == Some(x)
    ensures next in corners && x < |store| && EdgesIndexed(edges, store[x := Paint(store[x])])
    ensures var u := Walk(corners, edges, store[x := Paint(store[x])], next, fuel - 1);
      Walk(corners, edges, store, current, fuel) == Trace(u.outcome, u.store, [current] + u.path, [x] + u.crossed)
  {
  }

  /** A walk that stops where it starts. */
  lemma WalkStops(corners: map<string, Corner>, edges: map<string, nat>, store: seq<Edge>, current: string, fuel: nat)
    requires AdjacencyKnown(corners) && current in corners && EdgesIndexed(edges, store)
    requires || !corners[current].land || fuel == 0 || LowestNeighbor(corners, current).None?
             || GetEdge(edges, corners[current].id, corners[LowestNeighbor(corners, current).value].id).None?
    ensures var t := Walk(corners, edges, store, current, fuel);
      t.path == [current] && t.crossed == [] && t.store == store
  {
  }

  /**
   * `t` went downhill, painted exactly the edges it crossed, and ended on the
   * first corner that is not land, after `fuel` steps, or on a land corner
   * without neighbours or without an edge to its lowest one.
   */
  ghost predicate Traced(corners: map<string, Corner>, edges: map<string, nat>, store: seq<Edge>, fuel: nat, t: Trace)
    requires AdjacencyKnown(corners)
  {
    && Descends(corners, edges, t.path, t.crossed)
    && PaintedAlong(store, t.store, t.crossed)
    && var last := t.path[|t.path| - 1];
      && (t.outcome == Done <==> !corners[last].land)
      && (t.outcome == OutOfFuel ==> |t.crossed| == fuel)
      && (t.outcome == TypeError ==>
            || LowestNeighbor(corners, last).None?
            || GetEdge(edges, corners[last].id, corners[LowestNeighbor(corners, last).value].id).None?)
  }

  /** A walk from `current` is traced. */
  lemma {:induction false} WalkTraced(corners: map<string, Corner>, edges: map<string, nat>, store: seq<Edge>,
                                      current: string, fuel: nat)
    requires AdjacencyKnown(corners) && current in corners && EdgesIndexed(edges, store)
    ensures Traced(corners, edges, store, fuel, Walk(corners, edges, store, current, fuel))
    decreases fuel
  {
    var t := Walk(corners, edges, store, current, fuel);
    if !corners[current].land || fuel == 0 || LowestNeighbor(corners, current).None? {
      assert t.path == [current] && t.crossed == [] && t.store == store;
    } else {
      var next := LowestNeighbor(corners, current).value;
      var x := GetEdge(edges, corners[current].id, corners[next].id);
      if x.None? {
        assert t == Trace(TypeError, store, [current], []);
      } else {
        WalkStep(corners, edges, store, current, fuel, next, x.value);
        var store' := store[x.value := Paint(store[x.value])];
        WalkTraced(corners, edges, store', next, fuel - 1);
        var u := Walk(corners, edges, store', next, fuel - 1);
        TracedCons(corners, edges, store, current, fuel, x.value, store', u, t);
      }
    }
  }

  /** One downhill step in front of a traced walk is a traced walk. */
  lemma TracedCons(corners: map<string, Corner>, edges: map<string, nat>, store: seq<Edge>, current: string,
                   fuel: nat, x: nat, store': seq<Edge>, u: Trace, t: Trace)
    requires AdjacencyKnown(corners) && current in corners && corners[current].land && fuel > 0
    requires x < |store| && store' == store[x := Paint(store[x])]
    requires u.path != [] && LowestNeighbor(corners, current) == Some(u.path[0])
    requires GetEdge(edges, corners[current].id, corners[u.path[0]].id) == Some(x)
    requires Traced(corners, edges, store', fuel - 1, u)
    requires t == Trace(u.outcome, u.store, [current] + u.path, [x] + u.crossed)
    ensures Traced(corners, edges, store, fuel, t)
  {
    assert PaintedAlong(store, store', [x]);
    PaintedAlongTrans(store, store', u.store, [x], u.crossed);
    DescendsCons(corners, edges, current, x, u.path, u.crossed);
    assert u.path[|u.path| - 1] == t.path[|t.path| - 1];
  }

  /** The walk of one river, on the graph's edge store. */
  method WalkRiver(g: Graph, start: string, fuel: nat) returns (outcome: Outcome)
    requires AdjacencyKnown(g.corners) && start in g.corners && EdgesIndexed(g.edges, g.edgeStore)
    modifies g`edgeStore
    ensures var t := Walk(g.corners, g.edges, old(g.edgeStore), start, fuel);
      outcome == t.outcome && g.edgeStore == t.store
  {
    var current, budget := start, fuel;
    while true
      invariant current in g.corners && EdgesIndexed(g.edges, g.edgeStore)
      invariant Walk(g.corners, g.edges, old(g.edgeStore), start, fuel).outcome
             == Walk(g.corners, g.edges, g.edgeStore, current, budget).outcome
      invariant Walk(g.corners, g.edges, old(g.edgeStore), start, fuel).store
             == Walk(g.corners, g.edges, g.edgeStore, current, budget).store
      decreases budget
    {
      if !g.corners[current].land {
        return Done;
      }
      if budget == 0 {
        return OutOfFuel;
      }
      var next := LowestNeighbor(g.corners, current);
      if next.None? {
        return TypeError;
      }
      var edge := GetEdge(g.edges, g.corners[current].id, g.corners[next.value].id);
      if edge.None? {
        return TypeError;
      }
      g.edgeStore := g.edgeStore[edge.value := Paint(g.edgeStore[edge.value])];
      current, budget := next.value, budget - 1;
    }
  }

  // ---------------------------------------------------------------------------
  // Where rivers drain

  /** The corners with a defined elevation below `e`. */
  function Lower(corners: map<string, Corner>, e: real): set<string>
  {
    set k | k in corners && corners[k].elevation.Some? && corners[k].elevation.value < e
  }

  /**
   * Every reached land corner has a defined elevation, only reached neighbours
   * with defined elevations, and one of them strictly lower.
   */
  ghost predicate Drains(corners: map<string, Corner>, reached: set<string>)
  {
    forall k :: k in reached && k in corners && corners[k].land ==>
      && corners[k].elevation.Some?
      && (forall a :: a in corners[k].adjacent ==> a in reached && a in corners && corners[a].elevation.Some?)
      && (exists a :: a in corners[k].adjacent && corners[a].elevation.value < corners[k].elevation.value)
  }

  /** On a draining map the lowest neighbour of a reached land corner is reached and strictly lower. */
  lemma LowestDescends(corners: map<string, Corner>, reached: set<string>, k: string)
    requires AdjacencyKnown(corners) && Drains(corners, reached)
    requires k in reached && k in corners && corners[k].land
    ensures LowestNeighbor(corners, k).Some?
    ensures var n := LowestNeighbor(corners, k).value;
      n in reached && corners[n].elevation.Some? && corners[n].elevation.value < corners[k].elevation.value
  {
    var adj := corners[k].adjacent;
    var a :| a in adj && corners[a].elevation.value < corners[k].elevation.value;
    var j :| 0 <= j < |adj| && adj[j] == a;
    LowestIsFirstMinimum(corners, adj);
  }

  /**
   * On a draining map a river from a reached corner never runs out of a
   * budget above the number of corners: it descends strictly at each step, so
   * it ends on a corner that is not land, or on a missing edge.
   */
  lemma {:induction false} WalkEnds(corners: map<string, Corner>, edges: map<string, nat>, store: seq<Edge>,
                                    current: string, reached: set<string>, fuel: nat)
    requires AdjacencyKnown(corners) && Drains(corners, reached) && EdgesIndexed(edges, store)
    requires current in reached && current in corners
    requires corners[current].land ==> |Lower(corners, corners[current].elevation.value)| < fuel
    ensures Walk(corners, edges, store, current, fuel).outcome != OutOfFuel
    decreases fuel
  {
    if corners[current].land {
      LowestDescends(corners, reached, current);
      var next := LowestNeighbor(corners, current).value;
      var e, f := corners[current].elevation.value, corners[next].elevation.value;
      assert |Lower(corners, f)| < |Lower(corners, e)| by {
        assert next in Lower(corners, e) && next !in Lower(corners, f);
        assert Lower(corners, f) <= Lower(corners, e) - {next};
        SubsetCard(Lower(corners, f), Lower(corners, e) - {next});
      }
      var x := GetEdge(edges, corners[current].id, corners[next].id);
      if x.Some? {
        assert EdgesIndexed(edges, store[x.value := Paint(store[x.value])]);
        WalkEnds(corners, edges, store[x.value := Paint(store[x.value])], next, reached, fuel - 1);
      }
    }
  }

  /** Every corner of `p` is reached and has an elevation, each one strictly below the one before. */
  ghost predicate Falling(corners: map<string, Corner>, reached: set<string>, p: seq<string>)
  {
    && (forall i :: 0 <= i < |p| ==> p[i] in reached && p[i] in corners && corners[p[i]].elevation.Some?)
    && (forall i :: 0 < i < |p| ==> corners[p[i]].elevation.value < corners[p[i - 1]].elevation.value)
  }

  lemma {:induction false} SubsetCard(a: set<string>, b: set<string>)
    requires a <= b
    ensures |a| <= |b|
    decreases |b|
  {
    if b != {} {
      var x :| x in b;
      SubsetCard(a - {x}, b - {x});
    }
  }

  /** Along a draining walk from a reached corner with an elevation, elevations fall strictly. */
  lemma {:induction false} WalkDescends(corners: map<string, Corner>, edges: map<string, nat>, store: seq<Edge>,
                                        current: string, reached: set<string>, fuel: nat)
    requires AdjacencyKnown(corners) && Drains(corners, reached) && EdgesIndexed(edges, store)
    requires current in reached && current in corners && corners[current].elevation.Some?
    ensures Falling(corners, reached, Walk(corners, edges, store, current, fuel).path)
    decreases fuel
  {
    if !corners[current].land || fuel == 0 || LowestNeighbor(corners, current).None? {
      WalkStops(corners, edges, store, current, fuel);
    } else {
      LowestDescends(corners, reached, current);
      var next := LowestNeighbor(corners, current).value;
      var x := GetEdge(edges, corners[current].id, corners[next].id);
      if x.None? {
        WalkStops(corners, edges, store, current, fuel);
      } else {
        WalkStep(corners, edges, store, current, fuel, next, x.value);
        var store' := store[x.value := Paint(store[x.value])];
        WalkDescends(corners, edges, store', next, reached, fuel - 1);
        FallingCons(corners, reached, current, Walk(corners, edges, store', next, fuel - 1).path);
      }
    }
  }

  lemma FallingCons(corners: map<string, Corner>, reached: set<string>, k: string, p: seq<string>)
    requires Falling(corners, reached, p) && p != []
    requires k in reached && k in corners && corners[k].elevation.Some?
    requires corners[p[0]].elevation.value < corners[k].elevation.value
    ensures Falling(corners, reached, [k] + p)
  {
    var q := [k] + p;
    forall i | 0 < i < |q| ensures corners[q[i]].elevation.value < corners[q[i - 1]].elevation.value {
      assert q[i] == p[i - 1];
      if i > 1 {
        assert q[i - 1] == p[i - 2];
      }
    }
  }

  /**
   * The elevation stage leaves a draining map: a reached land corner is not a
   * coast corner, so it was discovered from a processed neighbour one positive
   * step below it, and all its neighbours were reached.
   */
  lemma ElevatedDrains(c0: map<string, Corner>, order: seq<string>, p0: map<nat, Polygon>, length: nat, step: real,
                       cs: map<string, Corner>, ps: map<nat, Polygon>, visited: seq<string>)
    requires Elevation.Elevated(c0, order, p0, length, step, cs, ps, visited)
    requires AdjacencySymmetric(c0) && step > 0.0
    requires forall k :: k in c0 && c0[k].land ==> !c0[k].coast && !c0[k].ocean
    ensures Drains(cs, Elevation.Elems(visited))
  {
    forall k | k in Elevation.Elems(visited) && k in cs && cs[k].land
      ensures && cs[k].elevation.Some?
              && (forall a :: a in cs[k].adjacent ==> a in Elevation.Elems(visited) && a in cs && cs[a].elevation.Some?)
              && (exists a :: a in cs[k].adjacent && cs[a].elevation.value < cs[k].elevation.value)
    {
      ElevatedDrainsAt(c0, order, p0, length, step, cs, ps, visited, k);
    }
  }

  /** One reached land corner of an elevated map drains into its parent. */
  lemma ElevatedDrainsAt(c0: map<string, Corner>, order: seq<string>, p0: map<nat, Polygon>, length: nat, step: real,
                         cs: map<string, Corner>, ps: map<nat, Polygon>, visited: seq<string>, k: string)
    requires Elevation.Elevated(c0, order, p0, length, step, cs, ps, visited)
    requires AdjacencySymmetric(c0) && step > 0.0
    requires forall k :: k in c0 && c0[k].land ==> !c0[k].coast && !c0[k].ocean
    requires k in Elevation.Elems(visited) && k in cs && cs[k].land
    ensures cs[k].elevation.Some?
    ensures forall a :: a in cs[k].adjacent ==> a in Elevation.Elems(visited) && a in cs && cs[a].elevation.Some?
    ensures exists a :: a in cs[k].adjacent && cs[a].elevation.value < cs[k].elevation.value
  {
    assert k in c0;
    Elevation.ElevatedParent(c0, order, p0, length, step, cs, ps, visited, k);
    var p := visited[Elevation.Parent(c0, visited, k)];
    assert Occurrences(c0[p].adjacent, k) > 0;
    assert p in cs[k].adjacent;
    assert cs[p].elevation.value < cs[k].elevation.value;
  }

  // ---------------------------------------------------------------------------
  // Choosing where a river starts

  /** `centers[Math.floor(u * centers.length)]`: the id drawn, when that slot holds a polygon. */
  function Draw(centers: map<nat, Polygon>, length: nat, u: real): (r: Option<nat>)
    ensures r.Some? <==> 0 <= (u * length as real).Floor && (u * length as real).Floor as nat in centers
    ensures r.Some? ==> r.value as int == (u * length as real).Floor
  {
    var i := (u * length as real).Floor;
    if 0 <= i && i as nat in centers then Some(i as nat) else None
  }

  /** With no holes in the array and a value of `Math.random()` in [0, 1), a draw lands on a polygon. */
  lemma DrawLands(centers: map<nat, Polygon>, length: nat, u: real)
    requires Dense(centers, length) && length > 0 && 0.0 <= u < 1.0
    ensures Draw(centers, length, u).Some? && Draw(centers, length, u).value < length
  {
    var x := u * length as real;
    assert 0.0 <= x < length as real by {
      assert u * length as real < 1.0 * length as real;
    }
  }

  /** The polygon a river starts from, or how choosing it failed; `draws` counts the `Math.random()` calls so far. */
  datatype Choice = Chosen(id: nat, draws: nat) | Failed(outcome: Outcome, draws: nat)

  /** `while (polygon.ocean) { polygon = centers[...]; }` from the polygon `id`, after `d` draws. */
  function Settle(centers: map<nat, Polygon>, length: nat, random: nat -> real, id: nat, d: nat, fuel: nat)
    : (r: Choice)
    requires id in centers
    ensures r.Chosen? ==> r.id in centers && !centers[r.id].ocean
    ensures r.Failed? ==> r.outcome != Done
    ensures d <= r.draws <= d + fuel
    decreases fuel
  {
    if !centers[id].ocean then Chosen(id, d)
    else if fuel == 0 then Failed(OutOfFuel, d)
    else match Draw(centers, length, random(d))
      case None => Failed(TypeError, d + 1)
      case Some(j) => Settle(centers, length, random, j, d + 1, fuel - 1)
  }

  /** The first draw of a river and the resampling loop after it. */
  function Choose(centers: map<nat, Polygon>, length: nat, random: nat -> real, d: nat, fuel: nat): (r: Choice)
    ensures r.Chosen? ==> r.id in centers && !centers[r.id].ocean
    ensures r.Failed? ==> r.outcome != Done
    ensures d < r.draws <= d + 1 + fuel
  {
    match Draw(centers, length, random(d))
    case None => Failed(TypeError, d + 1)
    case Some(i) => Settle(centers, length, random, i, d + 1, fuel)
  }

  /** The choice of a start polygon as the source computes it, reading the graph's `centers`. */
  method Pick(g: Graph, random: nat -> real, d: nat, fuel: nat) returns (c: Choice)
    ensures c == Choose(g.centers, g.centersLength, random, d, fuel)
  {
    var p := Draw(g.centers, g.centersLength, random(d));
    if p.None? {
      return Failed(TypeError, d + 1);
    }
    var id: nat, draws: nat, budget: nat := p.value, d + 1, fuel;
    while g.centers[id].ocean
      invariant id in g.centers
      invariant Choose(g.centers, g.centersLength, random, d, fuel)
             == Settle(g.centers, g.centersLength, random, id, draws, budget)
      decreases budget
    {
      if budget == 0 {
        return Failed(OutOfFuel, draws);
      }
      p := Draw(g.centers, g.centersLength, random(draws));
      if p.None? {
        return Failed(TypeError, draws + 1);
      }
      id, draws, budget := p.value, draws + 1, budget - 1;
    }
    return Chosen(id, draws);
  }

  // ---------------------------------------------------------------------------
  // The stage

  /** What the graph must satisfy for the stage's lookups to stay in the maps. */
  ghost predicate Ready(centers: map<nat, Polygon>, corners: map<string, Corner>, edges: map<string, nat>, store: seq<Edge>)
  {
    && AdjacencyKnown(corners) && StoreValid(store, edges, corners)
    && (forall id, j :: id in centers && 0 <= j < |centers[id].edges| ==> centers[id].edges[j] < |store|)
  }

  lemma PaintedReady(centers: map<nat, Polygon>, corners: map<string, Corner>, edges: map<string, nat>,
                     store: seq<Edge>, store': seq<Edge>)
    requires Ready(centers, corners, edges, store) && PaintedFrom(store, store')
    ensures Ready(centers, corners, edges, store')
  {
    forall x | 0 <= x < |store'| ensures EndsKnown(store'[x], corners) {
      assert EndsKnown(store[x], corners);
    }
  }

  /** One river as it ran: the polygon it started from, the corners it passed and the edges it crossed. */
  datatype Course = Course(polygon: nat, path: seq<string>, crossed: seq<nat>)

  /**
   * How the stage (or part of it) ended, the edge store it left, the number
   * of `Math.random()` calls, and the rivers that walked.
   */
  datatype Run = Run(outcome: Outcome, store: seq<Edge>, draws: nat, courses: seq<Course>)

  /** The edges crossed by the courses, one course after the other. */
  function AllCrossed(courses: seq<Course>): seq<nat>
  {
    if courses == [] then [] else courses[0].crossed + AllCrossed(courses[1..])
  }

  lemma AllCrossedAppend(a: seq<Course>, b: seq<Course>)
    requires |a| <= 1
    ensures AllCrossed(a + b) == AllCrossed(a) + AllCrossed(b)
  {
    if a != [] {
      assert (a + b)[1..] == b;
    } else {
      assert a + b == b;
    }
  }

  /**
   * A course starts at the start corner of the first edge of its land polygon
   * and runs downhill from there.
   */
  ghost predicate Flows(centers: map<nat, Polygon>, corners: map<string, Corner>, edges: map<string, nat>,
                        store: seq<Edge>, c: Course)
    requires AdjacencyKnown(corners)
  {
    && Descends(corners, edges, c.path, c.crossed)
    && c.polygon in centers && !centers[c.polygon].ocean
    && centers[c.polygon].edges != [] && centers[c.polygon].edges[0] < |store|
    && store[centers[c.polygon].edges[0]].start == Canon(c.path[0])
  }

  /** Painting leaves edge endpoints, and so where a course starts, alone. */
  lemma FlowsPainted(centers: map<nat, Polygon>, corners: map<string, Corner>, edges: map<string, nat>,
                     store: seq<Edge>, store': seq<Edge>, crossed: seq<nat>, c: Course)
    requires AdjacencyKnown(corners) && PaintedAlong(store, store', crossed)
    requires Flows(centers, corners, edges, store', c)
    ensures Flows(centers, corners, edges, store, c)
  {
    var x := centers[c.polygon].edges[0];
    assert store'[x].start == store[x].start;
  }

  /**
   * One iteration of the `for` loop: choose a polygon, start at its first
   * edge's start, and walk. A start that was never rewritten to a corner is a
   * bare point whose `land` is undefined, so no walk happens.
   */
  function River(centers: map<nat, Polygon>, length: nat, corners: map<string, Corner>, edges: map<string, nat>,
                 store: seq<Edge>, random: nat -> real, d: nat, fuel: nat): (r: Run)
    requires Ready(centers, corners, edges, store)
    ensures PaintedFrom(store, r.store) && d < r.draws
  {
    match Choose(centers, length, random, d, fuel)
    case Failed(o, d') => Run(o, store, d', [])
    case Chosen(id, d') =>
      var es := centers[id].edges;
      if es == [] then Run(TypeError, store, d', [])
      else match store[es[0]].start
        case Raw(_) => Run(Done, store, d', [])
        case Canon(k) =>
          assert EndsKnown(store[es[0]], corners);
          var t := Walk(corners, edges, store, k, fuel);
          Run(t.outcome, t.store, d', [Course(id, t.path, t.crossed)])
  }

  /**
   * A river walks exactly when the chosen polygon's first edge starts at a
   * corner; it then starts there, runs downhill, paints exactly the edges it
   * crosses, and ends normally exactly when it reaches a corner off the land.
   */
  lemma RiverTraced(centers: map<nat, Polygon>, length: nat, corners: map<string, Corner>, edges: map<string, nat>,
                    store: seq<Edge>, random: nat -> real, d: nat, fuel: nat)
    requires Ready(centers, corners, edges, store)
    ensures var r, c := River(centers, length, corners, edges, store, random, d, fuel), Choose(centers, length, random, d, fuel);
      && |r.courses| <= 1 && r.draws == c.draws
      && PaintedAlong(store, r.store, AllCrossed(r.courses))
      && (forall co :: co in r.courses ==> Flows(centers, corners, edges, store, co))
      && (r.courses == [] <==> c.Failed? || centers[c.id].edges == [] || store[centers[c.id].edges[0]].start.Raw?)
      && (r.courses != [] ==> c.Chosen? && c.id == r.courses[0].polygon)
      && (r.courses != [] ==>
            (r.outcome == Done <==> !corners[r.courses[0].path[|r.courses[0].path| - 1]].land))
      && (c.Failed? ==> r.outcome == c.outcome)
      && (c.Chosen? && centers[c.id].edges == [] ==> r.outcome == TypeError)
      && (c.Chosen? && centers[c.id].edges != [] && store[centers[c.id].edges[0]].start.Raw? ==> r.outcome == Done)
  {
    var r, c := River(centers, length, corners, edges, store, random, d, fuel), Choose(centers, length, random, d, fuel);
    match c
    case Failed(o, d') =>
      assert r == Run(o, store, d', []);
    case Chosen(id, d') =>
      var es := centers[id].edges;
      if es == [] {
        assert r == Run(TypeError, store, d', []);
      } else if store[es[0]].start.Raw? {
        assert r == Run(Done, store, d', []);
      } else {
        var k := store[es[0]].start.corner;
        assert EndsKnown(store[es[0]], corners);
        WalkTraced(corners, edges, store, k, fuel);
        var t := Walk(corners, edges, store, k, fuel);
        assert r == Run(t.outcome, t.store, d', [Course(id, t.path, t.crossed)]);
        assert AllCrossed(r.courses) == t.crossed + AllCrossed([]);
      }
  }

  /** The remaining `n` iterations of the `for` loop; an exception ends the stage. */
  function Rivers(centers: map<nat, Polygon>, length: nat, corners: map<string, Corner>, edges: map<string, nat>,
                  store: seq<Edge>, random: nat -> real, d: nat, n: nat, fuel: nat): (r: Run)
    requires Ready(centers, corners, edges, store)
    ensures PaintedFrom(store, r.store) && d <= r.draws
    decreases n
  {
    if n == 0 then Run(Done, store, d, [])
    else
      var r := River(centers, length, corners, edges, store, random, d, fuel);
      if r.outcome != Done then r
      else
        PaintedReady(centers, corners, edges, store, r.store);
        var rest := Rivers(centers, length, corners, edges, r.store, random, r.draws, n - 1, fuel);
        PaintedFromTrans(store, r.store, rest.store);
        rest.(courses := r.courses + rest.courses)
  }

  /**
   * The stage paints exactly the edges its rivers crossed, and every river
   * that walked started at the first edge corner of a land polygon and ran
   * downhill; there is at most one river per iteration.
   */
  lemma {:induction false} RiversTraced(centers: map<nat, Polygon>, length: nat, corners: map<string, Corner>,
                                        edges: map<string, nat>, store: seq<Edge>, random: nat -> real, d: nat,
                                        n: nat, fuel: nat)
    requires Ready(centers, corners, edges, store)
    ensures var r := Rivers(centers, length, corners, edges, store, random, d, n, fuel);
      && |r.courses| <= n
      && PaintedAlong(store, r.store, AllCrossed(r.courses))
      && (forall co :: co in r.courses ==> Flows(centers, corners, edges, store, co))
    decreases n
  {
    if n > 0 {
      var r := River(centers, length, corners, edges, store, random, d, fuel);
      RiverTraced(centers, length, corners, edges, store, random, d, fuel);
      if r.outcome == Done {
        PaintedReady(centers, corners, edges, store, r.store);
        RiversTraced(centers, length, corners, edges, r.store, random, r.draws, n - 1, fuel);
        var rest := Rivers(centers, length, corners, edges, r.store, random, r.draws, n - 1, fuel);
        PaintedAlongTrans(store, r.store, rest.store, AllCrossed(r.courses), AllCrossed(rest.courses));
        AllCrossedAppend(r.courses, rest.courses);
        forall co | co in rest.courses ensures Flows(centers, corners, edges, store, co) {
          FlowsPainted(centers, corners, edges, store, r.store, AllCrossed(r.courses), co);
        }
      }
    }
  }

  /** One river, on the graph. */
  method TraceRiver(g: Graph, random: nat -> real, d: nat, fuel: nat) returns (outcome: Outcome, draws: nat)
    requires Ready(g.centers, g.corners, g.edges, g.edgeStore)
    modifies g`edgeStore
    ensures var r := River(g.centers, g.centersLength, g.corners, g.edges, old(g.edgeStore), random, d, fuel);
      outcome == r.outcome && g.edgeStore == r.store && draws == r.draws
  {
    var c := Pick(g, random, d, fuel);
    if c.Failed? {
      return c.outcome, c.draws;
    }
    draws := c.draws;
    var es := g.centers[c.id].edges;
    if es == [] {
      return TypeError, draws;
    }
    var start := g.edgeStore[es[0]].start;
    if start.Raw? {
      return Done, draws;
    }
    assert EndsKnown(g.edgeStore[es[0]], g.corners);
    outcome := WalkRiver(g, start.corner, fuel);
  }

  /** Two runs agree on everything the program can observe: outcome, edge store and draws. */
  predicate Same(r: Run, r': Run)
  {
    r.outcome == r'.outcome && r.store == r'.store && r.draws == r'.draws
  }

  /** `Polygons.Rivers.generate(count)`: `count` rivers, stopping at the first exception. */
  method Generate(g: Graph, count: int, random: nat -> real, fuel: nat) returns (outcome: Outcome, draws: nat)
    requires Ready(g.centers, g.corners, g.edges, g.edgeStore)
    modifies g`edgeStore
    ensures var r := Rivers(g.centers, g.centersLength, g.corners, g.edges, old(g.edgeStore), random, 0,
                            if count > 0 then count else 0, fuel);
      outcome == r.outcome && g.edgeStore == r.store && draws == r.draws
  {
    var n := if count > 0 then count else 0;
    var i := 0;
    draws := 0;
    while i < n
      invariant 0 <= i <= n && Ready(g.centers, g.corners, g.edges, g.edgeStore)
      invariant Same(Rivers(g.centers, g.centersLength, g.corners, g.edges, old(g.edgeStore), random, 0, n, fuel),
                     Rivers(g.centers, g.centersLength, g.corners, g.edges, g.edgeStore, random, draws, n - i, fuel))
    {
      ghost var before := g.edgeStore;
      var o;
      o, draws := TraceRiver(g, random, draws, fuel);
      if o != Done {
        return o, draws;
      }
      PaintedReady(g.centers, g.corners, g.edges, before, g.edgeStore);
      i := i + 1;
    }
    return Done, draws;
  }
}
