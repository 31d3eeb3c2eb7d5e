/**
 * `Polygons.Oceans` (modules/oceans.js): mark the polygons near the map
 * border as ocean, with random noise, then flag every corner as coast, ocean
 * or land from the polygons around it.
 *
 * `Math.random()` is an input: `random(k)` is the value of its `k`-th call.
 */
module Oceans {
  import opened Wrappers
  import opened Entities
  import opened GraphBuild
  import opened Polygons

  const OceanFill: string := "#1921B1"
  const OceanStroke: string := "#000"
  const DefaultStepSize: real := 20.0

  function Min(a: real, b: real): real
  {
    if a <= b then a else b
  }

  /** `util.getBorderDistance`: the distance from a site to the nearest map border. */
  function BorderDistance(pos: Point, width: real, height: real): (d: real)
    ensures d <= pos.x && d <= width - pos.x && d <= pos.y && d <= height - pos.y
    ensures d == pos.x || d == width - pos.x || d == pos.y || d == height - pos.y
  {
    Min(Min(pos.x, width - pos.x), Min(pos.y, height - pos.y))
  }

  /** `util.rand`: a `Math.random()` value shifted into [-0.5, 0.5). */
  function Rand(u: real): (r: real)
    ensures 0.0 <= u < 1.0 ==> -0.5 <= r < 0.5
  {
    u - 0.5
  }

  /** The arguments of `generate` after defaulting, and the map size. */
  datatype Settings = Settings(fill: bool, noise: Option<real>, threshold: real, stepSize: real, width: real, height: real)

  /** `threshold || MapWidth / 6` and `stepSize || 20`. */
  function Configure(fill: bool, noise: Option<real>, threshold: Option<real>, stepSize: Option<real>,
                     width: real, height: real): (s: Settings)
    ensures s.fill == fill && s.noise == noise && s.width == width && s.height == height
    ensures s.threshold == if threshold == None || threshold == Some(0.0) then width / 6.0 else threshold.value
    ensures s.stepSize == if stepSize == None || stepSize == Some(0.0) then DefaultStepSize else stepSize.value
  {
    Settings(fill, noise, OrDefault(threshold, width / 6.0), OrDefault(stepSize, DefaultStepSize), width, height)
  }

  // ---------------------------------------------------------------------------
  // Ocean marking

  /** `util.rand()` is evaluated for a polygon only when `fill && polygon.border` is false. */
  predicate DrawsNoise(p: Polygon, fill: bool)
  {
    !(fill && p.border)
  }

  /** The number of `Math.random()` calls made for the polygons with ids below `i`. */
  function DrawsBefore(centers: map<nat, Polygon>, fill: bool, i: nat): (n: nat)
    ensures n <= i
  {
    if i == 0 then 0
    else DrawsBefore(centers, fill, i - 1) + (if i - 1 in centers && DrawsNoise(centers[i - 1], fill) then 1 else 0)
  }

  /**
   * The noisy half of the ocean test: the border distance plus noise is below
   * the threshold. An omitted `noise` makes the sum NaN, which is below nothing.
   */
  predicate NearBorder(p: Polygon, s: Settings, u: real)
  {
    s.noise.Some? && BorderDistance(p.pos, s.width, s.height) + Rand(u) * s.noise.value * s.stepSize < s.threshold
  }

  /** The ocean test of `generate`, for a polygon whose noise draw (if any) is `u`. */
  predicate BecomesOcean(p: Polygon, s: Settings, u: real)
  {
    (s.fill && p.border) || NearBorder(p, s, u)
  }

  /** The polygon after it is made ocean. */
  function MarkOcean(p: Polygon): (r: Polygon)
    ensures r.ocean && r.fill == Some(OceanFill) && r.stroke == Some(OceanStroke)
    ensures r == p.(ocean := true, fill := r.fill, stroke := r.stroke)
  {
    p.(ocean := true, fill := Some(OceanFill), stroke := Some(OceanStroke))
  }

  /** Whether polygon `i` is made ocean, given the draws consumed before it. */
  predicate Hit(centers: map<nat, Polygon>, s: Settings, random: nat -> real, i: nat)
    requires i in centers
  {
    BecomesOcean(centers[i], s, random(DrawsBefore(centers, s.fill, i)))
  }

  /** The polygons after the marking loop has visited the ids below `n`. */
  function Marked(centers: map<nat, Polygon>, s: Settings, random: nat -> real, n: nat): (r: map<nat, Polygon>)
    ensures r.Keys == centers.Keys
    ensures forall i :: i in centers ==>
      r[i] == (if i < n && Hit(centers, s, random, i) then MarkOcean(centers[i]) else centers[i])
  {
    map i | i in centers :: if i < n && Hit(centers, s, random, i) then MarkOcean(centers[i]) else centers[i]
  }

  /**
   * A polygon ends up ocean exactly when it was ocean already or passed the
   * test; only `ocean`, `fill` and `stroke` ever change, and only on a hit.
   */
  lemma MarkedOcean(centers: map<nat, Polygon>, s: Settings, random: nat -> real, n: nat, i: nat)
    requires i in centers
    ensures var r := Marked(centers, s, random, n);
      && (r[i].ocean <==> centers[i].ocean || (i < n && Hit(centers, s, random, i)))
      && r[i] == centers[i].(ocean := r[i].ocean, fill := r[i].fill, stroke := r[i].stroke)
      && (r[i] != centers[i] ==> r[i].fill == Some(OceanFill) && r[i].stroke == Some(OceanStroke))
  {
  }

  /** On a full map with `fill` false every polygon draws once, polygon `i` drawing the `i`-th value. */
  lemma {:induction false} DrawsWithoutFill(centers: map<nat, Polygon>, i: nat)
    requires forall j :: 0 <= j < i ==> j in centers
    ensures DrawsBefore(centers, false, i) == i
  {
    if i > 0 {
      DrawsWithoutFill(centers, i - 1);
    }
  }

  /** With `fill` set, the border polygons draw nothing and are always ocean. */
  lemma BorderAlwaysOcean(centers: map<nat, Polygon>, s: Settings, random: nat -> real, n: nat, i: nat)
    requires s.fill && i in centers && centers[i].border && i < n
    ensures Marked(centers, s, random, n)[i].ocean
    ensures DrawsBefore(centers, s.fill, i + 1) == DrawsBefore(centers, s.fill, i)
  {
  }

  /**
   * Without a `noise` argument only the border polygons of a filled map become
   * ocean, yet every polygon off the filled border still draws its value.
   */
  lemma NoiseOmitted(centers: map<nat, Polygon>, s: Settings, random: nat -> real, n: nat, i: nat)
    requires s.noise.None? && i in centers
    ensures Marked(centers, s, random, n)[i].ocean <==> centers[i].ocean || (i < n && s.fill && centers[i].border)
    ensures DrawsBefore(centers, s.fill, i + 1) == DrawsBefore(centers, s.fill, i) + if s.fill && centers[i].border then 0 else 1
  {
    MarkedOcean(centers, s, random, n, i);
  }

  /** One iteration of the marking loop, on the values it reads. */
  lemma MarkedNext(c0: map<nat, Polygon>, s: Settings, random: nat -> real, i: nat, k: nat)
    requires i in c0 && k == DrawsBefore(c0, s.fill, i)
    ensures var p, hit := c0[i], (s.fill && c0[i].border) || NearBorder(c0[i], s, random(k));
      && (hit ==> Marked(c0, s, random, i + 1) == Marked(c0, s, random, i)[i := MarkOcean(p)])
      && (!hit ==> Marked(c0, s, random, i + 1) == Marked(c0, s, random, i))
      && DrawsBefore(c0, s.fill, i + 1) == k + (if s.fill && p.border then 0 else 1)
      && Marked(c0, s, random, i)[i] == p
  {
    if Hit(c0, s, random, i) {
      MarkedHit(c0, s, random, i);
    } else {
      MarkedMiss(c0, s, random, i);
    }
  }

  lemma MarkedHit(c0: map<nat, Polygon>, s: Settings, random: nat -> real, i: nat)
    requires i in c0 && Hit(c0, s, random, i)
    ensures Marked(c0, s, random, i + 1) == Marked(c0, s, random, i)[i := MarkOcean(c0[i])]
  {
    var a, m := Marked(c0, s, random, i + 1), Marked(c0, s, random, i);
    forall j | j in a ensures a[j] == m[i := MarkOcean(c0[i])][j] {
      if j != i {
        assert a[j] == m[j];
      }
    }
  }

  lemma MarkedMiss(c0: map<nat, Polygon>, s: Settings, random: nat -> real, i: nat)
    requires i in c0 && !Hit(c0, s, random, i)
    ensures Marked(c0, s, random, i + 1) == Marked(c0, s, random, i)
  {
    var a, m := Marked(c0, s, random, i + 1), Marked(c0, s, random, i);
    forall j | j in a ensures a[j] == m[j] {
      if j == i {
        assert a[j] == c0[i] == m[j];
      } else {
        assert (j < i + 1) == (j < i);
      }
    }
  }

  /** The first loop of `generate`, over the `centers` array in index order. */
  method MarkPolygons(g: Graph, s: Settings, random: nat -> real) returns (draws: nat)
    requires Dense(g.centers, g.centersLength)
    modifies g`centers
    ensures g.centers == Marked(old(g.centers), s, random, g.centersLength)
    ensures draws == DrawsBefore(old(g.centers), s.fill, g.centersLength)
  {
    var c0, cs := g.centers, g.centers;
    var i, k := 0, 0;
    while i < g.centersLength
      invariant i <= g.centersLength
      invariant cs == Marked(c0, s, random, i)
      invariant k == DrawsBefore(c0, s.fill, i)
    {
      MarkedNext(c0, s, random, i, k);
      var p := cs[i];
      var ocean := s.fill && p.border;
      if !ocean {
        ocean := NearBorder(p, s, random(k));
        k := k + 1;
      }
      if ocean {
        cs := cs[i := MarkOcean(p)];
      }
      i := i + 1;
    }
    g.centers := cs;
    draws := k;
  }

  // ---------------------------------------------------------------------------
  // Corner classification

  /** Some polygon around the corner is ocean. */
  predicate HasOcean(centers: map<nat, Polygon>, ids: set<nat>)
    requires ids <= centers.Keys
  {
    exists id :: id in ids && centers[id].ocean
  }

  /** Some polygon around the corner is land. */
  predicate HasLand(centers: map<nat, Polygon>, ids: set<nat>)
    requires ids <= centers.Keys
  {
    exists id :: id in ids && !centers[id].ocean
  }

  /** The three flags of one corner, from the polygons around it. */
  function Classify(c: Corner, centers: map<nat, Polygon>): (r: Corner)
    requires c.polygons <= centers.Keys
    ensures r == c.(coast := r.coast, ocean := r.ocean, land := r.land)
  {
    var o, l := HasOcean(centers, c.polygons), HasLand(centers, c.polygons);
    c.(coast := o && l, ocean := o && !l, land := !o && l)
  }

  /** Every corner classified. */
  function Classified(corners: map<string, Corner>, centers: map<nat, Polygon>): (r: map<string, Corner>)
    requires PolygonsKnown(corners, centers.Keys)
    ensures r.Keys == corners.Keys
    ensures forall k :: k in corners ==> r[k] == Classify(corners[k], centers)
  {
    map k | k in corners :: Classify(corners[k], centers)
  }

  /**
   * A corner between polygons is exactly one of coast, ocean and land; a
   * corner with no polygon is none of them.
   */
  lemma FlagsPartition(c: Corner, centers: map<nat, Polygon>)
    requires c.polygons <= centers.Keys
    ensures var r := Classify(c, centers);
      && (c.polygons != {} ==>
            (r.coast || r.ocean || r.land) && !(r.coast && r.ocean) && !(r.coast && r.land) && !(r.ocean && r.land))
      && (c.polygons == {} ==> !r.coast && !r.ocean && !r.land)
  {
    if c.polygons != {} {
      var id :| id in c.polygons;
      assert HasOcean(centers, c.polygons) || HasLand(centers, c.polygons);
    }
  }

  /** A coast corner touches both an ocean polygon and a land polygon, and conversely. */
  lemma CoastIff(c: Corner, centers: map<nat, Polygon>)
    requires c.polygons <= centers.Keys
    ensures Classify(c, centers).coast <==>
      (exists a :: a in c.polygons && centers[a].ocean) && (exists b :: b in c.polygons && !centers[b].ocean)
  {
  }

  /** Whether the corner's polygons include ocean and land ones: the inner `iter` of the corner loop. */
  method Survey(centers: map<nat, Polygon>, ids: set<nat>) returns (hasOcean: bool, hasLand: bool)
    requires ids <= centers.Keys
    ensures hasOcean == HasOcean(centers, ids) && hasLand == HasLand(centers, ids)
  {
    hasOcean, hasLand := false, false;
    var rest := ids;
    while rest != {}
      invariant rest <= ids
      invariant hasOcean <==> exists id :: id in ids && id !in rest && centers[id].ocean
      invariant hasLand <==> exists id :: id in ids && id !in rest && !centers[id].ocean
      decreases rest
    {
      var id :| id in rest;
      if centers[id].ocean {
        hasOcean := true;
      } else {
        hasLand := true;
      }
      rest := rest - {id};
    }
  }

  /** The corners with the keys of `done` classified, the others as they were. */
  function ClassifiedIn(corners: map<string, Corner>, centers: map<nat, Polygon>, done: seq<string>): (r: map<string, Corner>)
    requires PolygonsKnown(corners, centers.Keys)
    ensures r.Keys == corners.Keys
  {
    map k | k in corners :: if k in done then Classify(corners[k], centers) else corners[k]
  }

  lemma ClassifiedInNext(corners: map<string, Corner>, centers: map<nat, Polygon>, order: seq<string>, i: nat)
    requires PolygonsKnown(corners, centers.Keys) && OrderExact(corners, order) && i < |order|
    ensures var cs := ClassifiedIn(corners, centers, order[..i]);
      && order[i] in cs && cs[order[i]] == corners[order[i]]
      && ClassifiedIn(corners, centers, order[..i + 1]) == cs[order[i] := Classify(cs[order[i]], centers)]
  {
    var a, b := order[..i], order[..i + 1];
    assert forall k :: k in b <==> k in a || k == order[i] by {
      assert b == a + [order[i]];
    }
    assert order[i] !in a;
    var cs, ds := ClassifiedIn(corners, centers, a), ClassifiedIn(corners, centers, b);
    var es := cs[order[i] := Classify(cs[order[i]], centers)];
    forall k | k in corners ensures ds[k] == es[k] {
    }
  }

  lemma ClassifiedInAll(corners: map<string, Corner>, centers: map<nat, Polygon>, order: seq<string>)
    requires PolygonsKnown(corners, centers.Keys) && OrderExact(corners, order)
    ensures ClassifiedIn(corners, centers, order[..|order|]) == Classified(corners, centers)
  {
    assert order[..|order|] == order;
  }

  /** The second loop of `generate`, over the corners in key insertion order. */
  method ClassifyCorners(g: Graph)
    requires PolygonsKnown(g.corners, g.centers.Keys) && OrderExact(g.corners, g.cornerOrder)
    modifies g`corners
    ensures g.corners == Classified(old(g.corners), g.centers)
  {
    var c0, cs, order, centers := g.corners, g.corners, g.cornerOrder, g.centers;
    var i := 0;
    while i < |order|
      invariant i <= |order|
      invariant cs == ClassifiedIn(c0, centers, order[..i])
    {
      var k := order[i];
      ClassifiedInNext(c0, centers, order, i);
      var c := cs[k];
      var hasOcean, hasLand := Survey(centers, c.polygons);
      assert c.(coast := hasOcean && hasLand, ocean := hasOcean && !hasLand, land := !hasOcean && hasLand)
          == Classify(c, centers);
      cs := cs[k := c.(coast := hasOcean && hasLand, ocean := hasOcean && !hasLand, land := !hasOcean && hasLand)];
      i := i + 1;
    }
    g.corners := cs;
    ClassifiedInAll(c0, g.centers, g.cornerOrder);
  }

  /** `Polygons.Oceans.generate(fill, noise, threshold, stepSize)`. */
  method Generate(g: Graph, fill: bool, noise: Option<real>, threshold: Option<real>, stepSize: Option<real>,
                  random: nat -> real) returns (draws: nat)
    requires Dense(g.centers, g.centersLength)
    requires PolygonsKnown(g.corners, g.centers.Keys) && OrderExact(g.corners, g.cornerOrder)
    modifies g`centers, g`corners
    ensures var s := Configure(fill, noise, threshold, stepSize, g.mapWidth, g.mapHeight);
      && g.centers == Marked(old(g.centers), s, random, g.centersLength)
      && g.corners == Classified(old(g.corners), g.centers)
      && draws == DrawsBefore(old(g.centers), fill, g.centersLength)
  {
    var s := Configure(fill, noise, threshold, stepSize, g.mapWidth, g.mapHeight);
    draws := MarkPolygons(g, s, random);
    ClassifyCorners(g);
  }
}
