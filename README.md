# Polygons map generator, modelled in Dafny

Polygons draws fantasy maps. It builds a Voronoi diagram and turns it into a
graph of **centers** (polygons), **corners** (Voronoi vertices) and **edges**.
Map modules then work on that graph in turn:

- `Oceans` marks polygons as ocean and classifies each corner as coast, ocean
  or land.
- `Elevation` runs a breadth-first walk out from the coasts. The walk gives
  every reached corner a height and every polygon a rolling-average height.
  Land polygons are then coloured from a six-colour palette.
- `Rivers` picks random land polygons and follows the lowest neighbour
  downhill until it leaves land. Each edge it crosses is painted blue.
- `Paths` is a small list of corners with a stroke and a thickness.

The project has one Dafny module per source file, plus two shared modules:

- `Entities` (`entities.dfy`, which also holds `Wrappers`) holds the data
  model and the pure pieces of the graph builder:
  - edge keys;
  - `_transformEdge` as a value;
  - `getEdge`;
  - symmetric neighbour and adjacency updates.
- `GraphBuild` (`graph_build.dfy`) specifies the graph that `generate` builds
  from a raw edge list. The theorem `BuildIsBuilt` characterises its
  polygons, neighbours, corners, touches and adjacency. `BuildResolves`
  adds where each edge object points and under which key the `edges` map
  files it.
- `Polygons` (`polygons.dfy`) holds the `Graph` class: the `Polygons` object
  whose maps the loop of `generate` updates in place.
- `Oceans`, `Elevation`, `Rivers` and `Paths` each model the module of the
  same name. The stages are methods on the `Graph`. Each stage is proved
  equal to a specification function or predicate, and further lemmas prove
  what the source promises about that specification.

JavaScript objects that refer to one another become values held in the
graph's maps. A polygon reference is its cell id. A corner reference is its
string key. An edge object is an index into the graph's edge store.
Painting an edge found through the `edges` map reaches the polygon whose edge
list holds that object. The neighbouring polygon's own copy of the boundary is
not painted, as in the source.

The following JavaScript behaviour is written out explicitly:

- `x || d` gives `d` on `undefined` and on `0` (`Entities.OrDefault`).
- `<` against `undefined` is false (`Rivers.Below`).
- `reduce` with no seed throws on an empty list and keeps the running value
  on ties.
- `%` truncates toward zero (`Elevation.JsRem`).
- `colors[i]` is `undefined` for an index below 0.
- A `TypeError` from reading a field of `undefined` becomes an explicit
  outcome (`Rivers.Outcome`).

`Math.random()` becomes a parameter `random: nat -> real`, read in call
order. Each stage returns how many values it drew.

## Model

| member | source | states |
|---|---|---|
| Entities.OrDefault | modules/elevation.js:42 | `x \|\| d` on numbers: `undefined` and `0` give the default, any other value is kept |
| Entities.EdgeKeyInjective | polygons.js:61 | edge keys `start.id + '-' + end.id` identify their two corners when the ids contain no `-` |
| Entities.EdgeKeyCollision | polygons.js:61 | with a `-` inside an id, two different corner pairs share one edge key |
| Entities.Transformed | polygons.js:59-66 | `_transformEdge` rewrites an edge exactly when both endpoints resolve to corners; the rewritten edge points at those corners, keeps its stroke and thickness, and is filed under their key |
| Entities.TransformRawEdge | polygons.js:59-66 | a raw edge whose two vertices are corners is rewritten to exactly those corners |
| Entities.TransformCanonicalIsStable | polygons.js:59-66 | an edge already rewritten to corner objects is not touched again: a corner object used as a key becomes "[object Object]", which no corner key equals |
| Entities.GetEdge | polygons.js:316-318 | `getEdge` finds an edge exactly when it is filed under either direction, returns a stored index, and prefers the `start-end` direction |
| Entities.GetEdgeDirection | polygons.js:316-318 | the lookup is symmetric in its arguments unless both directions are filed, in which case each direction returns its own edge |
| Entities.AddNeighborsSymmetric | polygons.js:228-231 | adding two polygons as each other's neighbours keeps the neighbour relation symmetric and adds exactly that pair |
| Entities.LinkSymmetric | polygons.js:246-247 | pushing each corner onto the other's `adjacent` list keeps adjacency symmetric, counting duplicate entries |
| GraphBuild.Build | polygons.js:212-260 | the graph after the loop over the raw edges; every polygon sits under its own id below the array length, with its own edges in the store and symmetric neighbours |
| GraphBuild.BuildIsBuilt | polygons.js:212-260 | the built graph is exactly the one the edge list determines: polygons are the sites (border exactly when an edge has no right site), neighbours are exactly the joined sites, corners are exactly the vertex keys (each at its first vertex), a corner touches a polygon exactly when an edge gives it that site, corners are adjacent exactly when an edge joins them, and each polygon's edges come from its cell's half-edges in order (where those edges point: `BuildResolves`) |
| GraphBuild.BuildResolves | polygons.js:59-66 | with no vertex key equal to "[object Object]", each polygon's `j`-th edge object either still points at its half-edge's two raw vertices or has been rewritten to exactly the corners under those vertices' keys; every `edges` entry points at a stored rewritten edge filed under the key `start.id-end.id` of its own two corners |
| GraphBuild.TransformAllResolves | polygons.js:26-37 | `iter(edges, this, _transformEdge)` keeps every edge object pointing at its half-edge's vertices or their corners, and keeps every `edges` entry filed under its own endpoints' key |
| GraphBuild.GetEdgeJoins | polygons.js:316-318 | when every `edges` entry is filed under its own endpoints' key and ids have no `-`, the edge `getEdge(a, b)` finds joins `a` and `b`, in one direction or the other |
| GraphBuild.StepReordered | polygons.js:250-257 | rewriting the left polygon's edges before registering the right polygon gives the same graph as doing all registrations first |
| GraphBuild.TransformAllKeeps | polygons.js:253 | `iter(edges, this, _transformEdge)` keeps each stored edge's half-edge origin and its corner endpoints, and every `edges` entry it adds or overwrites points at an edge rewritten to corners (which corners: `TransformAllResolves`) |
| GraphBuild.TransformAllIgnoresPolygons | polygons.js:59-66 | the edge rewrite reads the corners only through their keys and ids |
| GraphBuild.RegisterBothTwice | polygons.js:250-256 | registering the left polygon and then the right polygon on both corners registers both of them |
| Polygons.Graph.constructor | polygons.js:68 | a new graph is empty and has the given modules loaded |
| Polygons.Graph.Generate | polygons.js:203-261 | the loop over raw edges leaves the graph equal to `Build` of the whole edge list, with the map size set |
| Polygons.Graph.AddRawEdge | polygons.js:214-258 | one loop iteration takes the graph of a prefix to the graph of the prefix plus one edge |
| Polygons.Graph.AddCenters | polygons.js:220-234 | creates both site polygons if they are missing, then makes them neighbours or marks the left one as a border |
| Polygons.Graph.CreateCenter | polygons.js:220-225 | a missing polygon is created at its site, with fresh edge objects from its cell's half-edges; an existing one is left alone |
| Polygons.Graph.AddCorners | polygons.js:238-252 | creates both corners if they are missing, links them, and registers the left polygon on both |
| Polygons.Graph.RegisterPolygon | polygons.js:250-256 | adds a polygon to both corners' `polygons` |
| Polygons.Graph.TransformEdge | polygons.js:59-66 | the stored edge and the `edges` map change exactly as `_transformEdge` prescribes, and nothing else changes |
| Polygons.Graph.TransformEdges | polygons.js:26-37 | `iter` over a polygon's edge array applies `_transformEdge` to every slot in order |
| Polygons.Graph.EdgeBetween | polygons.js:316-318 | `getEdge` on the graph: a found edge is stored and already rewritten to corners; when the `edges` map files every edge under its own endpoints' key, as `BuildResolves` proves for the built graph, the found edge's key is `a-b` if that key is filed and `b-a` otherwise (with `GetEdgeJoins`: the edge joins `a` and `b`) |
| Oceans.BorderDistance | modules/oceans.js:23-28 | the distance to the nearest border is at most each of the four side distances and equals one of them |
| Oceans.Rand | modules/oceans.js:30-32 | a `Math.random()` value in [0, 1) becomes a value in [-0.5, 0.5) |
| Oceans.Configure | modules/oceans.js:39-41 | the threshold defaults to a sixth of the map width and the step size to 20, both on `undefined` or `0` |
| Oceans.DrawsWithoutFill | modules/oceans.js:45-52 | without `fill`, every polygon of a dense array draws once, and polygon `i` reads the `i`-th random value |
| Oceans.BorderAlwaysOcean | modules/oceans.js:47 | with `fill`, border polygons become ocean without drawing, because `&&`/`\|\|` short-circuit |
| Oceans.MarkedOcean | modules/oceans.js:45-52 | a polygon ends up ocean exactly when it was ocean or passed the test; only `ocean`, `fill` and `stroke` change, and only to the ocean colours |
| Oceans.NoiseOmitted | modules/oceans.js:45-52 | without a `noise` argument the noisy test is NaN and never true: a polygon ends up ocean exactly when it was ocean or is a border polygon of a filled map, and every polygon off the filled border still draws one value |
| Oceans.MarkPolygons | modules/oceans.js:45-52 | the marking loop leaves the polygons equal to `Marked` over the whole array and returns the number of draws made |
| Oceans.FlagsPartition | modules/oceans.js:55-69 | a corner with polygons is exactly one of coast, ocean and land; a corner with none is none of them |
| Oceans.CoastIff | modules/oceans.js:66 | a corner is coast exactly when it touches both an ocean polygon and a land polygon |
| Oceans.Survey | modules/oceans.js:57-65 | the inner loop reports whether the corner's polygons include ocean and land ones |
| Oceans.ClassifyCorners | modules/oceans.js:56-69 | the corner loop classifies every corner and changes nothing else |
| Oceans.Generate | modules/oceans.js:38-71 | the stage marks the polygons, then classifies the corners against the marked polygons, and reports the draws; `noise` may be omitted, as `NoiseOmitted` describes |
| Elevation.CoastsInMembers | modules/elevation.js:22-30 | the initial queue holds exactly the coast corners |
| Elevation.CoastsInDistinct | modules/elevation.js:22-30 | each coast corner is queued once |
| Elevation.InitCoasts | modules/elevation.js:22-30 | `_initCoasts` puts every coast corner at elevation 0, queues the coast corners in iteration order, and marks exactly those as seen |
| Elevation.AverageLoop | modules/elevation.js:50-53 | every polygon of the dequeued corner gets `((elevation \|\| 0) + e) / 2`; the other polygons are untouched |
| Elevation.AveragedSnoc | modules/elevation.js:48-53 | processing one more corner applies its rolling average to the polygons of the processed prefix |
| Elevation.UnseenElems | modules/elevation.js:54-57 | `Unseen(seen, adj)`, the neighbours not seen yet at their first occurrence in adjacency order, holds exactly the members of `adj` outside `seen`, each once |
| Elevation.Discover | modules/elevation.js:54-60 | the corners queued are exactly `Unseen(seen, adj)`, in that order, and every neighbour is marked seen; each queued corner is placed one step below the dequeued corner if it is ocean and one step above otherwise, and no other corner changes |
| Elevation.Parent | modules/elevation.js:54-58 | the parent of a corner is the first processed corner that lists it as adjacent: its position is in range exactly when such a corner exists, and no earlier processed corner lists it |
| Elevation.ParentSnoc | modules/elevation.js:48-58 | processing one more corner keeps every parent already found and makes the new corner the parent of the corners it first discovers |
| Elevation.Spread | modules/elevation.js:48-61 | the dequeue order is exactly the breadth-first order `Bfs` from the coasts (head first, then the rest of the queue followed by the head's unseen neighbours); every reached corner is visited once, coasts first; the visited set is closed under adjacency; each reached non-coast corner is exactly one step above or below its `Parent`, the first visited corner adjacent to it; the polygons hold the rolling averages in visiting order |
| Elevation.PaletteIndex | modules/elevation.js:65 | `(e - e % 13) / 13` is an integer: `e / 13` truncated toward zero |
| Elevation.PaletteBands | modules/elevation.js:63-69 | land from sea level up gets one colour per 13 units, with the top colour open above; heights in (-13, 0) get the lowest colour; heights at or below -13 get `undefined` |
| Elevation.PaletteMonotone | modules/elevation.js:65-66 | a higher polygon never gets a lower colour band, at any heights, including below sea level where the band may be `undefined` |
| Elevation.Paint | modules/elevation.js:63-69 | the colouring loop gives land polygons their palette colour and leaves ocean polygons unchanged |
| Elevation.SeededKeeps | modules/elevation.js:27 | seeding changes only elevations, and gives every coast corner one |
| Elevation.Run | modules/elevation.js:46-69 | the stage body: seeding, the walk and the colouring together establish `Elevated`: corners dequeued in `Bfs` order from the coasts, coasts at sea level, each other reached corner one step from its `Parent`, unreached corners untouched, polygons averaged in that order and coloured |
| Elevation.Generate | modules/elevation.js:36-76 | without the oceans module nothing changes, on any polygon array; with it the graph ends `Elevated` (breadth-first order and parents fixed as in `Run`), with step `stepSize \|\| 10` |
| Elevation.ElevatedParent | modules/elevation.js:54-58 | after the stage, a reached corner that is not a coast corner has a parent adjacent to it, sits exactly one step from the parent's elevation, changed only in its elevation, and has all its neighbours reached |
| Rivers.LowestNeighbor | modules/rivers.js:15-17 | `_lowestNeighbor` throws exactly on a corner without neighbours, and otherwise returns one of its neighbours |
| Rivers.LowestIsFirstMinimum | modules/rivers.js:16 | when every neighbour has an elevation, the result is the first neighbour of least elevation |
| Rivers.UndefinedFirstSticks | modules/rivers.js:16 | a first neighbour without an elevation is always returned, since no comparison with it is true |
| Rivers.Walk | modules/rivers.js:32-38 | the downhill walk only paints edges; it starts at the start corner; each step leaves a land corner for its lowest neighbour; a finished walk stops at a non-land corner (which edges it paints: `WalkTraced`) |
| Rivers.WalkTraced | modules/rivers.js:32-38 | step `i` of the walk leaves land corner `path[i]` for its lowest neighbour `path[i + 1]` over the edge `getEdge` finds between them, `crossed[i]`; the store afterwards is the old one with exactly the crossed edges painted and every other edge unchanged; the walk ends `Done` exactly on a non-land corner, runs out of budget only after `fuel` steps, and fails with a `TypeError` only on a corner without neighbours or without an edge to its lowest neighbour |
| Rivers.PaintedAlongTrans | modules/rivers.js:35-36 | painting along one list of edges and then another paints exactly along both; painting twice is painting once |
| Rivers.DescendsCons | modules/rivers.js:32-37 | one more downhill step in front of a downhill path is a downhill path |
| Rivers.WalkRiver | modules/rivers.js:30-38 | the loop on the graph's edge store ends with the outcome and the store of `Walk`, so it paints exactly the edges `WalkTraced` names |
| Rivers.LowestDescends | modules/rivers.js:33 | on a map where every reached land corner has a strictly lower neighbour, the lowest neighbour is reached and strictly lower |
| Rivers.WalkEnds | modules/rivers.js:32-38 | on such a map the walk ends within one step per lower corner: it cannot loop |
| Rivers.WalkDescends | modules/rivers.js:32-38 | on such a map elevations fall strictly along the river |
| Rivers.ElevatedDrains | modules/elevation.js:48-61 | after the elevation stage with a positive step on a symmetric graph, every reached land corner has a strictly lower neighbour, so rivers started there reach the sea |
| Rivers.ElevatedDrainsAt | modules/elevation.js:54-58 | after the stage, a reached land corner has an elevation, all its neighbours are reached and have elevations, and one of them (the parent that discovered it) is strictly lower |
| Rivers.DrawLands | modules/rivers.js:24 | with a random value in [0, 1), a draw on a dense, non-empty array lands on a polygon |
| Rivers.Settle | modules/rivers.js:25-27 | the resampling loop ends on a land polygon, or fails with a `TypeError` or out of budget; it draws at most its budget |
| Rivers.Choose | modules/rivers.js:24-27 | a start is a land polygon; the choice draws at least once |
| Rivers.Pick | modules/rivers.js:24-27 | choosing on the graph agrees with `Choose` |
| Rivers.River | modules/rivers.js:24-38 | one river only paints edges and draws at least once |
| Rivers.RiverTraced | modules/rivers.js:24-38 | a river walks exactly when a polygon was chosen, it has edges and its first edge starts at a corner; the walk then belongs to that polygon, starts at `edges[0].start`, runs downhill, and the store is the old one with exactly the crossed edges painted; it ends `Done` exactly on a non-land corner; a failed choice passes on its outcome and paints nothing; a chosen polygon without edges ends in a `TypeError`, and one whose first edge starts at a raw vertex ends normally without walking |
| Rivers.FlowsPainted | modules/rivers.js:30-36 | painting does not move edge endpoints, so where a river started stays true of the painted store |
| Rivers.Rivers | modules/rivers.js:23-39 | the loop of rivers only paints edges and never un-draws |
| Rivers.RiversTraced | modules/rivers.js:23-39 | `n` iterations walk at most `n` rivers; the store afterwards is the old one with exactly the edges of all the rivers painted; each river started at the first edge's start corner of a land polygon and ran downhill |
| Rivers.TraceRiver | modules/rivers.js:24-38 | one river on the graph ends with the outcome, the edge store and the draw count of `River`, so it paints what `RiverTraced` says |
| Rivers.Generate | modules/rivers.js:19-41 | the stage ends with the outcome, the edge store and the draw count of `Rivers` over `count` iterations, none for a non-positive count, so it paints exactly what `RiversTraced` says |
| Paths.FirstOf | modules/paths.js:17-19 | the first corner, and `undefined` exactly on an empty path |
| Paths.LastOf | modules/paths.js:21-23 | the last corner, and `undefined` exactly on an empty path |
| Paths.PointsOf | modules/paths.js:30-32 | the positions of the corners, one per corner, in order |
| Paths.AppendEnds | modules/paths.js:25-27 | after an append the new corner is last and the first corner is kept |
| Paths.PointsAppend | modules/paths.js:30-32 | the points of two joined corner lists are the two point lists joined |
| Paths.Path.constructor | modules/paths.js:10-15 | a new path holds the given corners, with stroke `#000` and thickness 1 |
| Paths.Path.First | modules/paths.js:17-19 | the first corner of the path, `undefined` exactly when it is empty |
| Paths.Path.Last | modules/paths.js:21-23 | the last corner of the path, `undefined` exactly when it is empty |
| Paths.Path.Append | modules/paths.js:25-27 | the corner goes at the end, the first corner is kept, and the points grow by its position |
| Paths.Path.GetPoints | modules/paths.js:30-32 | the corners' positions, in path order |
| Paths.Create | modules/paths.js:37-40 | a fresh path over the arguments, in order, with the default stroke and thickness |

## Left out

- The Voronoi computation, Lloyd relaxation and the diagram's own objects are not modelled (polygons.js up to line 202). `generate` is modelled from the final `cells` and raw edges onward. A vertex's string key is a parameter `key`.
- `load`, `draw`, `buffer`, the canvas and WebGL layers, and the navigation module are not modelled. These are I/O and rendering. The `Polygons.buffer(polygon)` call in the colouring loop is dropped, and so is the unused `context` variable in each stage.
- `Math.random()` is an input sequence `random: nat -> real`. The model does not assume that its values lie in [0, 1); lemmas that need this say so.
- Floating-point arithmetic is modelled as exact real arithmetic. Map sizes, distances, noise and elevations are `real`, so rounding is not modelled.
- The key order of JavaScript objects is modelled as insertion order (`cornerOrder`). Keys that look like integers iterate first in JavaScript; this is not modelled, because corner keys are vertex strings.
- `Oceans.Generate`, `Elevation.Paint`, and `Elevation.Generate` when the oceans module is loaded: the `centers` array is required to be dense. A hole in that array makes the source throw a `TypeError` when a field of `undefined` is read.
- `Rivers.Walk`, `Rivers.Settle`, `Rivers.Generate`: each `while` loop has a step budget `fuel`. A run that exceeds it reports `OutOfFuel`, where the source would loop forever. `Rivers.WalkEnds` proves that a walk from a reached corner does not run out when `fuel` exceeds the number of corners lower than it on a draining map, and `Rivers.ElevatedDrains` proves that the elevation stage leaves such a map. Neither covers walks from corners the elevation stage did not reach, or the resampling budget of `Settle`. No lemma chains the elevation stage into `Rivers.Generate` end to end.
- `GraphBuild.BuildResolves`: assumes that no vertex key is the string "[object Object]", the key a rewritten corner object turns into.
- `GraphBuild.GetEdgeJoins`: assumes that corner ids contain no `-`. With a `-` inside an id, two corner pairs can share one key (`Entities.EdgeKeyCollision`), and `getEdge` can return an edge between other corners.
- `Rivers.Generate`: a `TypeError` ends the stage with outcome `TypeError` and the edges painted so far. The source throws at that point. A draw that lands on a hole in the `centers` array is one such case, so this stage does not require the array to be dense.
- `Elevation.Generate`: the branch without the oceans module is empty in the source (lines 71–75), and the model leaves the graph unchanged there.
- The `colors` array of the oceans module (modules/oceans.js lines 10–19) is never read and is not modelled.
- Paths: a path holds corner values. Changes made to the graph's corners after they were appended are not seen through the path.
- `Entities.IdsMatchKeys`: every corner's `id` is its key, as line 241 of polygons.js creates it. Lemmas that need this require it.
- Edges are not deduplicated. A shared half-edge gives each polygon its own edge object, and the `edges` map keeps the last one rewritten under a key. The model follows the code here, not the description of the design.
- The palette index is `e / 13` truncated toward zero, not floored. The model follows the code.
