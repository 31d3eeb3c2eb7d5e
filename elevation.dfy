/**
 * `Polygons.Elevation` (modules/elevation.js): a breadth-first walk from the
 * coast corners that gives every reached corner an elevation one step above
 * (or, for an ocean corner, below) the corner it was discovered from; each
 * processed corner folds its elevation into the rolling average of the
 * polygons around it; land polygons are then coloured by elevation band.
 */
module Elevation {
  import opened Wrappers
  import opened Entities
  import opened GraphBuild
  import opened Polygons

  const DefaultStep: real := 10.0
  const CoastElevation: real := 0.0
  /** The land palette, lowest band first. */
  const Colors: seq<string> := ["#6a965c", "#85a979", "#9cb993", "#c7d8c2", "#e0e9de", "#fbfcfb"]

  // ---------------------------------------------------------------------------
  // Sequences used as queues

  function Elems(s: seq<string>): (r: set<string>)
    ensures forall x :: x in r <==> x in s
  {
    set x | x in s
  }

  lemma ElemsAppend(s: seq<string>, t: seq<string>)
    ensures Elems(s + t) == Elems(s) + Elems(t)
  {
  }

  predicate Distinct(s: seq<string>)
  {
    forall i, j :: 0 <= i < j < |s| ==> s[i] != s[j]
  }

  // ---------------------------------------------------------------------------
  // Seeding: `_initCoasts`

  /** The coast corners, in iteration order. */
  function CoastsIn(corners: map<string, Corner>, order: seq<string>): (r: seq<string>)
    ensures |r| <= |order|
  {
    if order == [] then []
    else
      var last := order[|order| - 1];
      CoastsIn(corners, order[..|order| - 1]) + (if last in corners && corners[last].coast then [last] else [])
  }

  /** The seeds are exactly the coast corners of the order. */
  lemma {:induction false} CoastsInMembers(corners: map<string, Corner>, order: seq<string>)
    ensures forall k :: k in CoastsIn(corners, order) <==> k in order && k in corners && corners[k].coast
  {
    if order != [] {
      var init := order[..|order| - 1];
      CoastsInMembers(corners, init);
      assert order == init + [order[|order| - 1]];
    }
  }

  /** Each seed is queued once when the order lists each corner once. */
  lemma {:induction false} CoastsInDistinct(corners: map<string, Corner>, order: seq<string>)
    requires forall i, j :: 0 <= i < j < |order| ==> order[i] != order[j]
    ensures Distinct(CoastsIn(corners, order))
  {
    if order != [] {
      var init, last := order[..|order| - 1], order[|order| - 1];
      CoastsInDistinct(corners, init);
      CoastsInMembers(corners, init);
      assert last !in init;
    }
  }

  /** A coast corner is placed at sea level; any other corner is left alone. */
  function Seed(c: Corner): (r: Corner)
    ensures r == c.(elevation := r.elevation)
    ensures c.coast ==> r.elevation == Some(CoastElevation)
    ensures !c.coast ==> r == c
  {
    if c.coast then c.(elevation := Some(CoastElevation)) else c
  }

  /** The corners after seeding. */
  function Seeded(corners: map<string, Corner>): (r: map<string, Corner>)
    ensures r.Keys == corners.Keys
    ensures forall k :: k in corners ==> r[k] == Seed(corners[k])
  {
    map k | k in corners :: Seed(corners[k])
  }

  lemma CoastsInNext(corners: map<string, Corner>, order: seq<string>, i: nat)
    requires i < |order| && order[i] in corners
    ensures CoastsIn(corners, order[..i + 1])
         == CoastsIn(corners, order[..i]) + (if corners[order[i]].coast then [order[i]] else [])
  {
    assert order[..i + 1][..i] == order[..i];
  }

  /** The state of `_initCoasts` after the first `i` corners of the order. */
  ghost predicate SeedingState(corners: map<string, Corner>, order: seq<string>, i: nat,
                               cs: map<string, Corner>, processing: seq<string>, seen: set<string>)
  {
    && i <= |order|
    && processing == CoastsIn(corners, order[..i]) && seen == Elems(processing)
    && cs.Keys == corners.Keys
    && (forall k :: k in corners ==> cs[k] == if k in seen then Seed(corners[k]) else corners[k])
  }

  lemma SeedingStep(corners: map<string, Corner>, order: seq<string>, i: nat,
                    cs: map<string, Corner>, processing: seq<string>, seen: set<string>)
    requires OrderExact(corners, order) && i < |order|
    requires SeedingState(corners, order, i, cs, processing, seen)
    ensures order[i] in cs && order[i] !in seen && cs[order[i]] == corners[order[i]]
    ensures var k := order[i];
      if cs[k].coast then
        SeedingState(corners, order, i + 1, cs[k := cs[k].(elevation := Some(CoastElevation))], processing + [k], seen + {k})
      else
        SeedingState(corners, order, i + 1, cs, processing, seen)
  {
    var k := order[i];
    CoastsInNext(corners, order, i);
    assert k !in seen by {
      CoastsInMembers(corners, order[..i]);
      assert forall j :: 0 <= j < i ==> order[..i][j] != k;
    }
    ElemsAppend(processing, [k]);
  }

  /** `_initCoasts(processing, seen)` over the corners in key insertion order. */
  method InitCoasts(corners: map<string, Corner>, order: seq<string>)
    returns (cs: map<string, Corner>, processing: seq<string>, seen: set<string>)
    requires OrderExact(corners, order)
    ensures cs == Seeded(corners)
    ensures processing == CoastsIn(corners, order) && Distinct(processing)
    ensures seen == Elems(processing) && seen == set k | k in corners && corners[k].coast
  {
    CoastsInDistinct(corners, order);
    cs, processing, seen := corners, [], {};
    var i := 0;
    assert order[..0] == [];
    while i < |order|
      invariant SeedingState(corners, order, i, cs, processing, seen)
    {
      SeedingStep(corners, order, i, cs, processing, seen);
      var k := order[i];
      if cs[k].coast {
        processing := processing + [k];
        seen := seen + {k};
        cs := cs[k := cs[k].(elevation := Some(CoastElevation))];
      }
      i := i + 1;
    }
    assert order[..i] == order;
    CoastsInMembers(corners, order);
    SeededWhole(corners, cs, seen);
  }

  lemma SeededWhole(corners: map<string, Corner>, cs: map<string, Corner>, seen: set<string>)
    requires cs.Keys == corners.Keys
    requires forall k :: k in corners ==> cs[k] == if k in seen then Seed(corners[k]) else corners[k]
    requires forall k :: k in seen <==> k in corners && corners[k].coast
    ensures cs == Seeded(corners)
    ensures seen == set k | k in corners && corners[k].coast
  {
    var s := Seeded(corners);
    forall k | k in corners ensures cs[k] == s[k] {
      if k !in seen {
        assert cs[k] == corners[k];
      }
    }
  }

  // ---------------------------------------------------------------------------
  // Rolling averages

  /** `polygon.elevation = ((polygon.elevation || 0) + e) / 2`. */
  function Rolled(p: Polygon, e: real): (r: Polygon)
    ensures r == p.(elevation := r.elevation) && r.elevation.Some?
  {
    p.(elevation := Some((OrDefault(p.elevation, 0.0) + e) / 2.0))
  }

  /** Every polygon in `ids` rolls the elevation `e` into its average. */
  function AverageAround(ps: map<nat, Polygon>, ids: set<nat>, e: real): (r: map<nat, Polygon>)
    ensures r.Keys == ps.Keys
    ensures forall id :: id in ps ==> r[id] == if id in ids then Rolled(ps[id], e) else ps[id]
  {
    map id | id in ps :: if id in ids then Rolled(ps[id], e) else ps[id]
  }

  /** The corners of `vs` all carry an elevation and touch known polygons. */
  ghost predicate Processable(vs: seq<string>, cs: map<string, Corner>, ids: set<nat>)
  {
    forall k :: k in vs ==> k in cs && cs[k].elevation.Some? && cs[k].polygons <= ids
  }

  /** The polygons after the corners of `vs` were processed in order. */
  ghost function Averaged(ps: map<nat, Polygon>, vs: seq<string>, cs: map<string, Corner>): (r: map<nat, Polygon>)
    requires Processable(vs, cs, ps.Keys)
    ensures r.Keys == ps.Keys
    decreases |vs|
  {
    if vs == [] then ps
    else
      var init, last := vs[..|vs| - 1], vs[|vs| - 1];
      assert forall k :: k in init ==> k in vs;
      AverageAround(Averaged(ps, init, cs), cs[last].polygons, cs[last].elevation.value)
  }

  /** `Averaged` reads only the corners in `vs`. */
  lemma {:induction false} AveragedFrame(ps: map<nat, Polygon>, vs: seq<string>, cs: map<string, Corner>, ds: map<string, Corner>)
    requires Processable(vs, cs, ps.Keys)
    requires forall k :: k in vs ==> k in ds && ds[k] == cs[k]
    ensures Processable(vs, ds, ps.Keys)
    ensures Averaged(ps, vs, ds) == Averaged(ps, vs, cs)
    decreases |vs|
  {
    if vs != [] {
      var init := vs[..|vs| - 1];
      assert forall k :: k in init ==> k in vs;
      AveragedFrame(ps, init, cs, ds);
    }
  }

  lemma AveragedSnoc(ps: map<nat, Polygon>, vs: seq<string>, k: string, cs: map<string, Corner>)
    requires Processable(vs, cs, ps.Keys) && Processable([k], cs, ps.Keys)
    ensures Processable(vs + [k], cs, ps.Keys)
    ensures Averaged(ps, vs + [k], cs) == AverageAround(Averaged(ps, vs, cs), cs[k].polygons, cs[k].elevation.value)
  {
    assert (vs + [k])[..|vs|] == vs;
  }

  /** The inner `iter(next.polygons, ...)`; the updates touch distinct polygons, so their order is immaterial. */
  method AverageLoop(ps0: map<nat, Polygon>, ids: set<nat>, e: real) returns (ps: map<nat, Polygon>)
    requires ids <= ps0.Keys
    ensures ps == AverageAround(ps0, ids, e)
  {
    ps := ps0;
    var rest := ids;
    while rest != {}
      invariant rest <= ids
      invariant ps.Keys == ps0.Keys
      invariant forall id :: id in ps0 ==> ps[id] == if id in ids && id !in rest then Rolled(ps0[id], e) else ps0[id]
      decreases rest
    {
      var id :| id in rest;
      ps := ps[id := Rolled(ps[id], e)];
      rest := rest - {id};
    }
  }

  // ---------------------------------------------------------------------------
  // Discovery

  /** The elevation change from a corner's parent: down one step into the ocean, up one on land. */
  function Rise(c: Corner, step: real): real
  {
    if c.ocean then -step else step
  }

  /** `cs` is `cs0` with the corners of `added` placed `Rise` above the elevation `e`. */
  ghost predicate Discovered(cs0: map<string, Corner>, cs: map<string, Corner>, added: seq<string>, e: real, step: real)
  {
    && cs.Keys == cs0.Keys
    && (forall k :: k in cs0 ==>
          cs[k] == if k in added then cs0[k].(elevation := Some(e + Rise(cs0[k], step))) else cs0[k])
  }

  /** The corners of `adj` not in `seen`, each at its first occurrence, in the order of `adj`. */
  function Unseen(seen: set<string>, adj: seq<string>): (r: seq<string>)
    ensures |r| <= |adj|
    decreases |adj|
  {
    if adj == [] then []
    else (if adj[0] in seen then [] else [adj[0]]) + Unseen(seen + {adj[0]}, adj[1..])
  }

  /** `Unseen` keeps exactly the corners of `adj` outside `seen`, each once. */
  lemma {:induction false} UnseenElems(seen: set<string>, adj: seq<string>)
    ensures Elems(Unseen(seen, adj)) == Elems(adj) - seen
    ensures Distinct(Unseen(seen, adj))
    decreases |adj|
  {
    if adj != [] {
      var a := adj[0];
      var rest := Unseen(seen + {a}, adj[1..]);
      UnseenElems(seen + {a}, adj[1..]);
      assert adj == [a] + adj[1..];
      ElemsAppend([a], adj[1..]);
      if a !in seen {
        ElemsAppend([a], rest);
        assert a !in rest;
      }
    }
  }

  /** Placing one more corner that was not placed yet. */
  lemma DiscoveredNext(cs0: map<string, Corner>, cs: map<string, Corner>, added: seq<string>, a: string, e: real, step: real)
    requires Discovered(cs0, cs, added, e, step) && a in cs0 && a !in added
    ensures Discovered(cs0, cs[a := cs[a].(elevation := Some(e + Rise(cs[a], step)))], added + [a], e, step)
  {
  }

  /**
   * The inner `iter(next.adjacent, ...)`: the adjacent corners not seen yet are
   * queued in adjacency order, each once, marked seen and placed `Rise` above
   * the elevation `e` of the corner they came from.
   */
  method Discover(cs0: map<string, Corner>, seen0: set<string>, adj: seq<string>, e: real, step: real)
    returns (cs: map<string, Corner>, seen: set<string>, added: seq<string>)
    requires forall a :: a in adj ==> a in cs0
    ensures seen == seen0 + Elems(adj)
    ensures added == Unseen(seen0, adj)
    ensures Distinct(added) && Elems(added) == seen - seen0
    ensures Discovered(cs0, cs, added, e, step)
  {
    cs, seen, added := cs0, seen0, [];
    var j := 0;
    DiscoverStart(cs0, seen0, adj, e, step);
    while j < |adj|
      invariant DiscoverState(cs0, seen0, adj, e, step, j, cs, seen, added)
      invariant cs.Keys == cs0.Keys
    {
      var a := adj[j];
      if a !in seen {
        assert a in cs0;
        var cs', seen', added' := cs[a := cs[a].(elevation := Some(e + Rise(cs[a], step)))], seen + {a}, added + [a];
        DiscoverFresh(cs0, seen0, adj, e, step, j, cs, seen, added, cs', seen', added');
        cs, seen, added := cs', seen', added';
      } else {
        DiscoverSeen(cs0, seen0, adj, e, step, j, cs, seen, added);
      }
      j := j + 1;
    }
    DiscoverDone(cs0, seen0, adj, e, step, cs, seen, added);
  }

  /** The state of `Discover` after the first `j` adjacent corners. */
  ghost predicate DiscoverState(cs0: map<string, Corner>, seen0: set<string>, adj: seq<string>, e: real, step: real,
                                j: nat, cs: map<string, Corner>, seen: set<string>, added: seq<string>)
  {
    && j <= |adj| && seen == seen0 + Elems(adj[..j]) && Elems(added) == seen - seen0
    && added + Unseen(seen, adj[j..]) == Unseen(seen0, adj) && Discovered(cs0, cs, added, e, step)
  }

  lemma UnseenAt(seen: set<string>, adj: seq<string>, j: nat)
    requires j < |adj|
    ensures Unseen(seen, adj[j..]) == (if adj[j] in seen then [] else [adj[j]]) + Unseen(seen + {adj[j]}, adj[j + 1..])
  {
    assert adj[j..][1..] == adj[j + 1..];
  }

  lemma PrefixElems(seen0: set<string>, adj: seq<string>, j: nat)
    requires j < |adj|
    ensures seen0 + Elems(adj[..j + 1]) == seen0 + Elems(adj[..j]) + {adj[j]}
  {
    assert adj[..j + 1] == adj[..j] + [adj[j]];
    ElemsAppend(adj[..j], [adj[j]]);
  }

  /** A corner not seen yet is queued, marked seen and placed. */
  lemma DiscoverFresh(cs0: map<string, Corner>, seen0: set<string>, adj: seq<string>, e: real, step: real,
                      j: nat, cs: map<string, Corner>, seen: set<string>, added: seq<string>,
                      cs': map<string, Corner>, seen': set<string>, added': seq<string>)
    requires forall a :: a in adj ==> a in cs0
    requires DiscoverState(cs0, seen0, adj, e, step, j, cs, seen, added) && j < |adj| && adj[j] !in seen
    requires adj[j] in cs && cs' == cs[adj[j] := cs[adj[j]].(elevation := Some(e + Rise(cs[adj[j]], step)))]
    requires seen' == seen + {adj[j]} && added' == added + [adj[j]]
    ensures DiscoverState(cs0, seen0, adj, e, step, j + 1, cs', seen', added')
  {
    var a := adj[j];
    assert a in adj;
    PrefixElems(seen0, adj, j);
    UnseenAt(seen, adj, j);
    DiscoveredNext(cs0, cs, added, a, e, step);
    ElemsAppend(added, [a]);
    assert added + Unseen(seen, adj[j..]) == (added + [a]) + Unseen(seen + {a}, adj[j + 1..]);
  }

  /** A corner already seen changes nothing. */
  lemma DiscoverSeen(cs0: map<string, Corner>, seen0: set<string>, adj: seq<string>, e: real, step: real,
                     j: nat, cs: map<string, Corner>, seen: set<string>, added: seq<string>)
    requires DiscoverState(cs0, seen0, adj, e, step, j, cs, seen, added) && j < |adj| && adj[j] in seen
    ensures DiscoverState(cs0, seen0, adj, e, step, j + 1, cs, seen, added)
  {
    PrefixElems(seen0, adj, j);
    UnseenAt(seen, adj, j);
    assert seen + {adj[j]} == seen;
  }

  lemma DiscoverStart(cs0: map<string, Corner>, seen0: set<string>, adj: seq<string>, e: real, step: real)
    ensures DiscoverState(cs0, seen0, adj, e, step, 0, cs0, seen0, [])
  {
    assert adj[..0] == [] && adj[0..] == adj;
    assert [] + Unseen(seen0, adj) == Unseen(seen0, adj);
  }

  lemma DiscoverDone(cs0: map<string, Corner>, seen0: set<string>, adj: seq<string>, e: real, step: real,
                     cs: map<string, Corner>, seen: set<string>, added: seq<string>)
    requires DiscoverState(cs0, seen0, adj, e, step, |adj|, cs, seen, added)
    ensures seen == seen0 + Elems(adj)
    ensures added == Unseen(seen0, adj)
    ensures Distinct(added) && Elems(added) == seen - seen0
    ensures Discovered(cs0, cs, added, e, step)
  {
    assert adj[..|adj|] == adj;
    assert adj[|adj|..] == [];
    assert added + [] == added;
    UnseenElems(seen0, adj);
  }

  // ---------------------------------------------------------------------------
  // The breadth-first walk

  /** `p` lists `k` among its adjacent corners. */
  predicate Adjoins(c0: map<string, Corner>, p: string, k: string)
  {
    p in c0 && k in c0[p].adjacent
  }

  /**
   * The position in `visited` of the first processed corner that lists `k` as
   * adjacent, `|visited|` if none does: the corner whose dequeue discovered `k`.
   */
  function Parent(c0: map<string, Corner>, visited: seq<string>, k: string): (j: nat)
    ensures j <= |visited|
    ensures j < |visited| ==> Adjoins(c0, visited[j], k)
    ensures forall i :: 0 <= i < j ==> !Adjoins(c0, visited[i], k)
    decreases |visited|
  {
    if visited == [] then 0
    else if Adjoins(c0, visited[0], k) then 0
    else 1 + Parent(c0, visited[1..], k)
  }

  /** Processing one more corner does not move a parent already found. */
  lemma {:induction false} ParentSnoc(c0: map<string, Corner>, visited: seq<string>, p: string, k: string)
    ensures Parent(c0, visited + [p], k) ==
      if Parent(c0, visited, k) < |visited| then Parent(c0, visited, k)
      else if Adjoins(c0, p, k) then |visited| else |visited| + 1
    decreases |visited|
  {
    if visited != [] {
      assert (visited + [p])[1..] == visited[1..] + [p];
      ParentSnoc(c0, visited[1..], p, k);
    }
  }

  /** Every reached corner that was not a seed sits one step below or above its parent. */
  ghost predicate Stepped(cs: map<string, Corner>, c0: map<string, Corner>, seeds: set<string>, reached: set<string>,
                          visited: seq<string>, step: real)
    requires reached <= cs.Keys && cs.Keys == c0.Keys
  {
    forall k :: k in reached && k !in seeds ==>
      && Parent(c0, visited, k) < |visited|
      && cs[visited[Parent(c0, visited, k)]].elevation.Some? && cs[k].elevation.Some?
      && cs[k].elevation.value == cs[visited[Parent(c0, visited, k)]].elevation.value + Rise(c0[k], step)
  }

  // ---------------------------------------------------------------------------
  // The order of the walk

  /**
   * The order in which the `while` loop dequeues corners, from the queue
   * `queue` and the seen set `seen`: the head, then the walk from the rest of
   * the queue followed by the head's unseen neighbours.
   */
  ghost function Bfs(c0: map<string, Corner>, queue: seq<string>, seen: set<string>): (r: seq<string>)
    requires AdjacencyKnown(c0) && seen <= c0.Keys && Elems(queue) <= seen
    decreases c0.Keys - seen, |queue|
  {
    if queue == [] then []
    else
      var next := queue[0];
      var added := Unseen(seen, c0[next].adjacent);
      var seen' := seen + Elems(c0[next].adjacent);
      assert next in queue;
      UnseenElems(seen, c0[next].adjacent);
      ShrinkStep(c0.Keys, seen, seen', added);
      [next] + Bfs(c0, queue[1..] + added, seen')
  }

  /** The corners dequeued so far, followed by the walk from the queue, are the walk from the seeds. */
  ghost predicate InBfsOrder(c0: map<string, Corner>, seeds: seq<string>, queue: seq<string>, seen: set<string>,
                             visited: seq<string>)
  {
    && AdjacencyKnown(c0) && Elems(seeds) <= c0.Keys && seen <= c0.Keys && Elems(queue) <= seen
    && Bfs(c0, seeds, Elems(seeds)) == visited + Bfs(c0, queue, seen)
  }

  /** Dequeuing the head and queuing its unseen neighbours keeps the walk in breadth-first order. */
  lemma InBfsOrderStep(c0: map<string, Corner>, seeds: seq<string>, queue: seq<string>, seen: set<string>,
                       visited: seq<string>, added: seq<string>)
    requires InBfsOrder(c0, seeds, queue, seen, visited) && queue != []
    requires added == Unseen(seen, c0[queue[0]].adjacent)
    ensures InBfsOrder(c0, seeds, queue[1..] + added, seen + Elems(c0[queue[0]].adjacent), visited + [queue[0]])
  {
    var next := queue[0];
    var seen' := seen + Elems(c0[next].adjacent);
    assert next in queue;
    UnseenElems(seen, c0[next].adjacent);
    assert Bfs(c0, queue, seen) == [next] + Bfs(c0, queue[1..] + added, seen');
    assert visited + ([next] + Bfs(c0, queue[1..] + added, seen')) == (visited + [next]) + Bfs(c0, queue[1..] + added, seen');
  }

  /** The state of the walk: queue, seen set and processed corners agree. */
  ghost predicate WalkState(c0: map<string, Corner>, cs: map<string, Corner>, seeds: set<string>,
                            queue: seq<string>, seen: set<string>, visited: seq<string>)
  {
    && seen <= c0.Keys && seeds <= seen
    && Distinct(visited + queue) && Elems(visited + queue) == seen
    && cs.Keys == c0.Keys
    && (forall k :: k in c0 ==> cs[k] == c0[k].(elevation := cs[k].elevation))
    && (forall k :: k in c0 && (k !in seen || k in seeds) ==> cs[k] == c0[k])
    && (forall k :: k in seen ==> cs[k].elevation.Some?)
  }

  /** The invariant of the walk started from `seeds`. */
  ghost predicate Walk(c0: map<string, Corner>, p0: map<nat, Polygon>, seeds: seq<string>, step: real,
                       cs: map<string, Corner>, ps: map<nat, Polygon>, queue: seq<string>, seen: set<string>,
                       visited: seq<string>)
  {
    && WalkState(c0, cs, Elems(seeds), queue, seen, visited)
    && |seeds| <= |visited + queue| && (visited + queue)[..|seeds|] == seeds
    && (forall v, a :: v in visited && a in c0[v].adjacent ==> a in seen)
    && Stepped(cs, c0, Elems(seeds), seen, visited, step)
    && Processable(visited, cs, p0.Keys) && ps == Averaged(p0, visited, cs)
  }

  /**
   * The `while (processing.length > 0)` loop: dequeue a corner, roll its
   * elevation into its polygons, discover its unseen neighbours.
   */
  method Spread(c0: map<string, Corner>, p0: map<nat, Polygon>, step: real, seeds: seq<string>)
    returns (cs: map<string, Corner>, ps: map<nat, Polygon>, visited: seq<string>)
    requires AdjacencyKnown(c0) && PolygonsKnown(c0, p0.Keys)
    requires Elems(seeds) <= c0.Keys && Distinct(seeds)
    requires forall k :: k in seeds ==> c0[k].elevation.Some?
    ensures WalkState(c0, cs, Elems(seeds), [], Elems(visited), visited)
    ensures |seeds| <= |visited| && visited[..|seeds|] == seeds
    ensures forall v, a :: v in visited && a in c0[v].adjacent ==> a in visited
    ensures Stepped(cs, c0, Elems(seeds), Elems(visited), visited, step)
    ensures Processable(visited, cs, p0.Keys) && ps == Averaged(p0, visited, cs)
    ensures visited == Bfs(c0, seeds, Elems(seeds))
  {
    cs, ps, visited := c0, p0, [];
    var queue, seen := seeds, Elems(seeds);
    WalkStart(c0, p0, seeds, step);
    assert [] + Bfs(c0, seeds, seen) == Bfs(c0, seeds, seen);
    while queue != []
      invariant Walk(c0, p0, seeds, step, cs, ps, queue, seen, visited)
      invariant InBfsOrder(c0, seeds, queue, seen, visited)
      decreases c0.Keys - seen, |queue|
    {
      var next := queue[0];
      WalkHead(c0, p0, seeds, step, cs, ps, queue, seen, visited);
      var e := cs[next].elevation.value;
      var ps', cs', seen', added;
      ps' := AverageLoop(ps, cs[next].polygons, e);
      cs', seen', added := Discover(cs, seen, cs[next].adjacent, e, step);
      WalkStep(c0, p0, seeds, step, cs, ps, queue, seen, visited, cs', ps', seen', added);
      InBfsOrderStep(c0, seeds, queue, seen, visited, added);
      cs, ps, seen := cs', ps', seen';
      queue := queue[1..] + added;
      visited := visited + [next];
    }
    WalkDone(c0, p0, seeds, step, cs, ps, seen, visited);
    assert visited + [] == visited;
  }

  lemma WalkStart(c0: map<string, Corner>, p0: map<nat, Polygon>, seeds: seq<string>, step: real)
    requires Elems(seeds) <= c0.Keys && Distinct(seeds)
    requires forall k :: k in seeds ==> c0[k].elevation.Some?
    ensures Walk(c0, p0, seeds, step, c0, p0, seeds, Elems(seeds), [])
  {
    assert [] + seeds == seeds;
  }

  lemma WalkHead(c0: map<string, Corner>, p0: map<nat, Polygon>, seeds: seq<string>, step: real,
                 cs: map<string, Corner>, ps: map<nat, Polygon>, queue: seq<string>, seen: set<string>,
                 visited: seq<string>)
    requires AdjacencyKnown(c0) && PolygonsKnown(c0, p0.Keys)
    requires Walk(c0, p0, seeds, step, cs, ps, queue, seen, visited) && queue != []
    ensures queue[0] in seen && queue[0] in cs && cs[queue[0]].elevation.Some?
    ensures cs[queue[0]].polygons <= ps.Keys && cs[queue[0]].adjacent == c0[queue[0]].adjacent
    ensures forall a :: a in cs[queue[0]].adjacent ==> a in cs
  {
    assert queue[0] in visited + queue;
  }

  /** One iteration of `Spread` keeps `Walk` and shrinks the unseen corners or the queue. */
  lemma WalkStep(c0: map<string, Corner>, p0: map<nat, Polygon>, seeds: seq<string>, step: real,
                 cs: map<string, Corner>, ps: map<nat, Polygon>, queue: seq<string>, seen: set<string>,
                 visited: seq<string>, cs': map<string, Corner>, ps': map<nat, Polygon>, seen': set<string>,
                 added: seq<string>)
    requires AdjacencyKnown(c0) && PolygonsKnown(c0, p0.Keys)
    requires Walk(c0, p0, seeds, step, cs, ps, queue, seen, visited) && queue != []
    requires queue[0] in cs && cs[queue[0]].elevation.Some? && cs[queue[0]].polygons <= ps.Keys
    requires var next := queue[0]; var e := cs[next].elevation.value;
      && ps' == AverageAround(ps, cs[next].polygons, e)
      && seen' == seen + Elems(cs[next].adjacent) && Distinct(added) && Elems(added) == seen' - seen
      && Discovered(cs, cs', added, e, step)
    ensures Walk(c0, p0, seeds, step, cs', ps', queue[1..] + added, seen', visited + [queue[0]])
    ensures c0.Keys - seen' < c0.Keys - seen || (seen' == seen && added == [])
  {
    var next := queue[0];
    var e := cs[next].elevation.value;
    assert next in visited + queue;
    WalkStateStep(c0, cs, cs', Elems(seeds), seen, seen', visited, queue, added, e, step);
    SteppedStep(c0, cs, cs', Elems(seeds), seen, seen', visited, next, added, e, step);
    AveragedStep(p0, visited, next, cs, cs', ps, ps');
    PrefixStep(seeds, visited, queue, added);
    ShrinkStep(c0.Keys, seen, seen', added);
  }

  lemma AveragedStep(p0: map<nat, Polygon>, visited: seq<string>, next: string, cs: map<string, Corner>,
                     cs': map<string, Corner>, ps: map<nat, Polygon>, ps': map<nat, Polygon>)
    requires Processable(visited, cs, p0.Keys) && ps == Averaged(p0, visited, cs)
    requires next in cs && cs[next].elevation.Some? && cs[next].polygons <= p0.Keys
    requires ps' == AverageAround(ps, cs[next].polygons, cs[next].elevation.value)
    requires forall k :: k in visited + [next] ==> k in cs' && cs'[k] == cs[k]
    ensures Processable(visited + [next], cs', p0.Keys) && ps' == Averaged(p0, visited + [next], cs')
  {
    assert Processable([next], cs, p0.Keys);
    AveragedSnoc(p0, visited, next, cs);
    AveragedFrame(p0, visited + [next], cs, cs');
  }

  lemma PrefixStep(seeds: seq<string>, visited: seq<string>, queue: seq<string>, added: seq<string>)
    requires queue != [] && |seeds| <= |visited + queue| && (visited + queue)[..|seeds|] == seeds
    ensures var w := visited + [queue[0]] + (queue[1..] + added);
      |seeds| <= |w| && w[..|seeds|] == seeds
  {
    assert visited + [queue[0]] + (queue[1..] + added) == (visited + queue) + added;
  }

  lemma ShrinkStep(K: set<string>, seen0: set<string>, seen: set<string>, added: seq<string>)
    requires seen0 <= seen <= K && Elems(added) == seen - seen0
    ensures K - seen < K - seen0 || (seen == seen0 && added == [])
  {
    if added != [] {
      assert added[0] in seen - seen0;
    }
  }

  lemma WalkDone(c0: map<string, Corner>, p0: map<nat, Polygon>, seeds: seq<string>, step: real,
                 cs: map<string, Corner>, ps: map<nat, Polygon>, seen: set<string>, visited: seq<string>)
    requires Walk(c0, p0, seeds, step, cs, ps, [], seen, visited)
    ensures seen == Elems(visited)
    ensures WalkState(c0, cs, Elems(seeds), [], Elems(visited), visited)
    ensures |seeds| <= |visited| && visited[..|seeds|] == seeds
    ensures forall v, a :: v in visited && a in c0[v].adjacent ==> a in visited
    ensures Stepped(cs, c0, Elems(seeds), Elems(visited), visited, step)
  {
    assert visited + [] == visited;
  }

  /** The walk-state part of one iteration of `Spread`. */
  lemma WalkStateStep(c0: map<string, Corner>, before: map<string, Corner>, cs: map<string, Corner>, S: set<string>,
                      seen0: set<string>, seen: set<string>, visited: seq<string>, queue: seq<string>,
                      added: seq<string>, e: real, step: real)
    requires queue != [] && WalkState(c0, before, S, queue, seen0, visited)
    requires AdjacencyKnown(c0) && queue[0] in c0 && before[queue[0]].elevation == Some(e)
    requires seen == seen0 + Elems(c0[queue[0]].adjacent) && Distinct(added) && Elems(added) == seen - seen0
    requires Discovered(before, cs, added, e, step)
    requires forall v, a :: v in visited && a in c0[v].adjacent ==> a in seen0
    ensures WalkState(c0, cs, S, queue[1..] + added, seen, visited + [queue[0]])
    ensures forall v, a :: v in visited + [queue[0]] && a in c0[v].adjacent ==> a in seen
    ensures forall k :: k in visited + [queue[0]] ==> k in cs && cs[k] == before[k]
    ensures forall k :: k in seen0 ==> cs[k] == before[k]
    ensures forall k :: k in visited ==> k in seen0
  {
    var next := queue[0];
    assert seen <= c0.Keys;
    QueueStep(visited, queue, added, seen0, seen);
    CornersStep(c0, before, cs, S, seen0, seen, added, e, step);
    assert forall k :: k in visited + [next] ==> k in visited + queue;
  }

  /** Dequeuing the head and queuing the newly seen corners keeps the queue and the seen set in step. */
  lemma QueueStep(visited: seq<string>, queue: seq<string>, added: seq<string>, seen0: set<string>, seen: set<string>)
    requires queue != [] && Distinct(visited + queue) && Elems(visited + queue) == seen0
    requires Distinct(added) && Elems(added) == seen - seen0 && seen0 <= seen
    ensures Distinct(visited + [queue[0]] + (queue[1..] + added))
    ensures Elems(visited + [queue[0]] + (queue[1..] + added)) == seen
  {
    assert visited + [queue[0]] + (queue[1..] + added) == (visited + queue) + added;
    DistinctAppend(visited + queue, added, seen0);
  }

  /** Discovery only gives elevations to corners it marks seen. */
  lemma CornersStep(c0: map<string, Corner>, before: map<string, Corner>, cs: map<string, Corner>, S: set<string>,
                    seen0: set<string>, seen: set<string>, added: seq<string>, e: real, step: real)
    requires seen0 <= c0.Keys && S <= seen0 && seen <= c0.Keys && seen0 <= seen
    requires before.Keys == c0.Keys
    requires forall k :: k in c0 ==> before[k] == c0[k].(elevation := before[k].elevation)
    requires forall k :: k in c0 && (k !in seen0 || k in S) ==> before[k] == c0[k]
    requires forall k :: k in seen0 ==> before[k].elevation.Some?
    requires Elems(added) == seen - seen0 && Discovered(before, cs, added, e, step)
    ensures cs.Keys == c0.Keys
    ensures forall k :: k in c0 ==> cs[k] == c0[k].(elevation := cs[k].elevation)
    ensures forall k :: k in c0 && (k !in seen || k in S) ==> cs[k] == c0[k]
    ensures forall k :: k in seen ==> cs[k].elevation.Some?
    ensures forall k :: k in seen0 ==> cs[k] == before[k]
  {
  }

  /** A newly seen corner hangs from the dequeued corner; earlier ones keep their parents. */
  lemma SteppedStep(c0: map<string, Corner>, before: map<string, Corner>, cs: map<string, Corner>, S: set<string>,
                    seen0: set<string>, seen: set<string>, visited: seq<string>, next: string,
                    added: seq<string>, e: real, step: real)
    requires seen0 <= c0.Keys && seen <= c0.Keys && before.Keys == c0.Keys && cs.Keys == c0.Keys
    requires next in seen0 && before[next].elevation == Some(e)
    requires seen == seen0 + Elems(c0[next].adjacent) && Elems(added) == seen - seen0
    requires forall k :: k in c0 ==> before[k].ocean == c0[k].ocean
    requires forall k :: k in seen0 ==> cs[k] == before[k]
    requires Discovered(before, cs, added, e, step)
    requires forall k :: k in visited ==> k in seen0
    requires forall v, a :: v in visited && a in c0[v].adjacent ==> a in seen0
    requires Stepped(before, c0, S, seen0, visited, step)
    ensures Stepped(cs, c0, S, seen, visited + [next], step)
  {
    var vs := visited + [next];
    forall k | k in seen && k !in S
      ensures var j := Parent(c0, vs, k);
        && j < |vs| && cs[vs[j]].elevation.Some? && cs[k].elevation.Some?
        && cs[k].elevation.value == cs[vs[j]].elevation.value + Rise(c0[k], step)
    {
      ParentSnoc(c0, visited, next, k);
      var j := Parent(c0, visited, k);
      if k in added {
        if j < |visited| {
          assert false;
        }
        assert Adjoins(c0, next, k);
        assert vs[|visited|] == next;
      } else {
        assert k in seen0;
        assert vs[j] == visited[j] && visited[j] in visited;
      }
    }
  }

  lemma DistinctAppend(s: seq<string>, t: seq<string>, seen0: set<string>)
    requires Distinct(s) && Distinct(t) && Elems(s) == seen0
    requires forall k :: k in t ==> k !in seen0
    ensures Distinct(s + t) && Elems(s + t) == seen0 + Elems(t)
  {
    forall i, j | 0 <= i < j < |s + t| ensures (s + t)[i] != (s + t)[j] {
      if j >= |s| && i < |s| {
        assert (s + t)[i] in seen0 && (s + t)[j] == t[j - |s|];
      }
    }
  }

  // ---------------------------------------------------------------------------
  // Colouring

  /** Truncation toward zero, the rounding of JavaScript `%` and of `(e - e % 13) / 13`. */
  function Trunc(x: real): int
  {
    if x >= 0.0 then x.Floor else -((-x).Floor)
  }

  /** JavaScript `e % 13` on numbers: the remainder takes the sign of `e`. */
  function JsRem(e: real, d: real): real
    requires d > 0.0
  {
    e - d * (Trunc(e / d) as real)
  }

  /** `(e - e % 13) / 13`, which is `e / 13` truncated toward zero. */
  function PaletteIndex(e: real): (i: int)
    ensures (e - JsRem(e, 13.0)) / 13.0 == i as real
  {
    Trunc(e / 13.0)
  }

  /**
   * `colors[Math.min(index, colors.length - 1)]`: the band of the elevation,
   * clamped above; a negative index reads past the array (`undefined`), and
   * so does an undefined elevation (`NaN`).
   */
  function PaletteFill(elevation: Option<real>): (fill: Option<string>)
  {
    match elevation
    case None => None
    case Some(e) =>
      var i := if PaletteIndex(e) < |Colors| - 1 then PaletteIndex(e) else |Colors| - 1;
      if i < 0 then None else Some(Colors[i])
  }

  /** The colour bands: 13 elevation units each from sea level, the last band open above. */
  lemma PaletteBands(e: real)
    ensures 0.0 <= e ==> PaletteFill(Some(e)) == Some(Colors[if (e / 13.0).Floor < 5 then (e / 13.0).Floor else 5])
    ensures -13.0 < e < 0.0 ==> PaletteFill(Some(e)) == Some(Colors[0])
    ensures e <= -13.0 ==> PaletteFill(Some(e)) == None
  {
    if e <= -13.0 {
      assert -e / 13.0 >= 1.0;
    } else if e < 0.0 {
      assert 0.0 < -e / 13.0 < 1.0;
    }
  }

  /** A higher polygon never gets a lower band index, above or below sea level. */
  lemma PaletteMonotone(e: real, f: real)
    requires e <= f
    ensures PaletteIndex(e) <= PaletteIndex(f)
  {
    var x, y := e / 13.0, f / 13.0;
    assert x <= y;
    if x < 0.0 && 0.0 <= y {
      assert (-x).Floor >= 0;
    } else if y < 0.0 {
      assert -y <= -x;
    }
  }

  /** The polygons after the colouring loop has visited the ids below `n`. */
  function Painted(ps: map<nat, Polygon>, n: nat): (r: map<nat, Polygon>)
    ensures r.Keys == ps.Keys
    ensures forall id :: id in ps ==>
      r[id] == if id < n && !ps[id].ocean then ps[id].(fill := PaletteFill(ps[id].elevation)) else ps[id]
  {
    map id | id in ps :: if id < n && !ps[id].ocean then ps[id].(fill := PaletteFill(ps[id].elevation)) else ps[id]
  }

  /** The last loop of `generate`, over the `centers` array. */
  method Paint(p0: map<nat, Polygon>, length: nat) returns (ps: map<nat, Polygon>)
    requires Dense(p0, length)
    ensures ps == Painted(p0, length)
  {
    ps := p0;
    var i := 0;
    while i < length
      invariant i <= length
      invariant ps.Keys == p0.Keys
      invariant forall id :: id in p0 ==>
        ps[id] == if id < i && !p0[id].ocean then p0[id].(fill := PaletteFill(p0[id].elevation)) else p0[id]
    {
      if !ps[i].ocean {
        ps := ps[i := ps[i].(fill := PaletteFill(ps[i].elevation))];
      }
      i := i + 1;
    }
  }

  // ---------------------------------------------------------------------------
  // The stage

  /**
   * What the stage leaves behind, given the corners `c0`, their iteration
   * `order` and the polygons `p0` before it: the corners dequeued in
   * breadth-first order from the coasts, closed under adjacency, every reached
   * corner one `step` from the corner that discovered it, every coast corner
   * at sea level, and the polygons averaged in that order and then coloured.
   */
  ghost predicate Elevated(c0: map<string, Corner>, order: seq<string>, p0: map<nat, Polygon>, length: nat, step: real,
                           cs: map<string, Corner>, ps: map<nat, Polygon>, visited: seq<string>)
  {
    var seeded, coasts := Seeded(c0), CoastsIn(c0, order);
    && WalkState(seeded, cs, Elems(coasts), [], Elems(visited), visited)
    && AdjacencyKnown(seeded) && Elems(coasts) <= seeded.Keys && visited == Bfs(seeded, coasts, Elems(coasts))
    && |coasts| <= |visited| && visited[..|coasts|] == coasts
    && (forall v, a :: v in visited && a in c0[v].adjacent ==> a in visited)
    && (forall k :: k in c0 && c0[k].coast ==> cs[k].elevation == Some(CoastElevation))
    && (forall k :: k in c0 && k !in visited ==> cs[k] == c0[k])
    && Stepped(cs, seeded, Elems(coasts), Elems(visited), visited, step)
    && Processable(visited, cs, p0.Keys)
    && ps == Painted(Averaged(p0, visited, cs), length)
  }

  /**
   * After the stage, a reached corner that is not a coast corner sits one
   * step above or below its parent, a processed corner listing it as
   * adjacent; all its own neighbours were reached.
   */
  lemma ElevatedParent(c0: map<string, Corner>, order: seq<string>, p0: map<nat, Polygon>, length: nat, step: real,
                       cs: map<string, Corner>, ps: map<nat, Polygon>, visited: seq<string>, k: string)
    requires Elevated(c0, order, p0, length, step, cs, ps, visited)
    requires k in visited && k in c0 && !c0[k].coast
    ensures var j := Parent(c0, visited, k);
      && j < |visited| && visited[j] in c0 && k in c0[visited[j]].adjacent
      && cs[visited[j]].elevation.Some? && cs[k].elevation.Some?
      && cs[k].elevation.value == cs[visited[j]].elevation.value + Rise(c0[k], step)
    ensures cs[k] == c0[k].(elevation := cs[k].elevation)
    ensures forall a :: a in c0[k].adjacent ==> a in visited && a in cs && cs[a].elevation.Some?
  {
    var seeded, coasts := Seeded(c0), CoastsIn(c0, order);
    CoastsInMembers(c0, order);
    assert k !in Elems(coasts);
    ParentSameAdjacency(c0, seeded, visited, k);
  }

  /** `Parent` reads only the adjacency lists. */
  lemma {:induction false} ParentSameAdjacency(c0: map<string, Corner>, c1: map<string, Corner>, visited: seq<string>, k: string)
    requires c0.Keys == c1.Keys && forall p :: p in c0 ==> c1[p].adjacent == c0[p].adjacent
    ensures Parent(c0, visited, k) == Parent(c1, visited, k)
    decreases |visited|
  {
    if visited != [] {
      ParentSameAdjacency(c0, c1, visited[1..], k);
    }
  }

  /** The body of `generate` when the oceans module is loaded, on the graph's maps. */
  method Run(c0: map<string, Corner>, order: seq<string>, p0: map<nat, Polygon>, length: nat, step: real)
    returns (cs: map<string, Corner>, ps: map<nat, Polygon>, visited: seq<string>)
    requires Dense(p0, length)
    requires AdjacencyKnown(c0) && PolygonsKnown(c0, p0.Keys) && OrderExact(c0, order)
    ensures Elevated(c0, order, p0, length, step, cs, ps, visited)
  {
    var seeded, processing, seen := InitCoasts(c0, order);
    SeededKeeps(c0);
    cs, ps, visited := Spread(seeded, p0, step, processing);
    CoastsInMembers(c0, order);
    ps := Paint(ps, length);
  }

  /** `Polygons.Elevation.generate(stepSize)`; `visited` is the order in which corners left the queue. */
  method Generate(g: Graph, stepSize: Option<real>) returns (visited: seq<string>)
    requires "oceans" in g.loadedModules ==> Dense(g.centers, g.centersLength)
    requires AdjacencyKnown(g.corners) && PolygonsKnown(g.corners, g.centers.Keys) && OrderExact(g.corners, g.cornerOrder)
    modifies g`corners, g`centers
    ensures "oceans" !in g.loadedModules ==> g.corners == old(g.corners) && g.centers == old(g.centers) && visited == []
    ensures "oceans" in g.loadedModules ==>
      Elevated(old(g.corners), g.cornerOrder, old(g.centers), g.centersLength, OrDefault(stepSize, DefaultStep),
               g.corners, g.centers, visited)
  {
    visited := [];
    if "oceans" in g.loadedModules {
      var c0, p0, order, length := g.corners, g.centers, g.cornerOrder, g.centersLength;
      var cs, ps;
      cs, ps, visited := Run(c0, order, p0, length, OrDefault(stepSize, DefaultStep));
      g.corners, g.centers := cs, ps;
      assert g.cornerOrder == order && g.centersLength == length;
    }
  }

  /** Seeding changes only elevations, and gives every coast corner one. */
  lemma SeededKeeps(c0: map<string, Corner>)
    requires AdjacencyKnown(c0)
    ensures var s := Seeded(c0);
      && AdjacencyKnown(s)
      && (forall k :: k in c0 ==> s[k].adjacent == c0[k].adjacent && s[k].polygons == c0[k].polygons)
      && (forall k :: k in c0 && c0[k].coast ==> s[k].elevation == Some(CoastElevation))
  {
  }
}
