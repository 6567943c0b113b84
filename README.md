# Supercluster engine in Dafny

This project models the greedy hierarchical point-clustering engine `SuperCluster`
(`src/app/mapbox/inc/super-cluster.ts`), a vendored copy of the supercluster algorithm,
and proves properties of the model.

`load(points)` works in three steps:

1. It turns every input feature that has a geometry into a leaf node.
2. It indexes the leaves as the tree of zoom `maxZoom + 1`.
3. It then runs `_cluster` once per zoom, from `maxZoom` down to `minZoom`.

Each pass walks the node array of the finer zoom and marks nodes as visited in place. For
each unvisited node `p`, the pass absorbs the unvisited neighbours within the merge radius
`radius / (extent * 2^zoom)`. It then either carries `p` forward as a singleton or emits a
new cluster. The new cluster has the weighted centre and the summed point count, and its id
is `(i << 5) + (zoom + 1)`.

The queries read the stored trees:

- `getClusters` answers a box query on the tree of the clamped zoom. It splits a box that
  crosses the antimeridian.
- `getChildren` decodes a cluster id into its origin zoom and index. It returns the nodes
  near the origin that name the cluster as their parent, and throws when there are none.
- `getLeaves`/`_appendLeaves` collect a page of the source points under a cluster, depth
  first, with `limit` and `offset`.
- `getClusterExpansionZoom` follows single-child chains down to the zoom where the cluster
  splits.

## Structure of the model

| file | module | contents |
|---|---|---|
| `wrappers.dfy` | `Wrappers` | `Option`, `Result` and the two failure kinds: the `getChildren` error and reading a tree that was never built |
| `ids.dfy` | `ClusterIds` | JavaScript's 32-bit `<<` and `>>` and its truncating `%`, written out; id packing and unpacking |
| `nodes.dfy` | `Nodes` | the node record, options, `createPointCluster`, `createCluster`, `_limitZoom`, the merge radius, the two kd-tree queries as filters, `getClusterProperties`, point totals, the merge of given options over the defaults |
| `cluster.dfy` | `Clustering` | `_cluster` as an in-place pass over an `array<Node>`, with the neighbour loop and its body as separate methods |
| `queries.dfy` | `Queries` | what each query returns, as functions of the stored trees, with their lemmas and the `getClusters` finding |
| `hierarchy.dfy` | `Hierarchy` | what a pass leaves for `getChildren`: the children of each new cluster are exactly the nodes it absorbed, so their point counts add up to its own |
| `leaves.dfy` | `LeafPages` | which source points `getLeaves` returns: the points under a cluster (`LeavesUnder`), their number, and each page as a slice of that list |
| `engine.dfy` | `SuperClusterEngine` | class `SuperCluster` with fields `points` and `trees`: `load`, with the properties of the trees it builds, and the query methods, each proved equal to its function in `Queries` |

Modelling choices:

- **Zoom marks.** A node's `zoom` field is `Unvisited` (the source's `Infinity`) or
  `Visited(level)`. `p.zoom <= zoom` is `Processed(p, zoom)`.
- **Point counts.** A leaf has no `numPoints`, and `numPoints || 1` is `Weight`.
- **Spatial index.** The kd-tree is not modelled. `within` and `range` are filters over the
  node sequence that return ascending positions (`Nodes.Within`, `Nodes.Range`). kdbush
  returns the same positions in the order of its tree; "## Left out" says what that order
  changes.
- **Stored trees.** The tree of zoom `z + 1` is stored as the node array as the pass at `z`
  leaves it.
  - In JavaScript, a singleton carried forward is the same object in two trees, so a later
    pass can overwrite its `zoom` and `parentId` in the finer tree too.
  - No query reads `zoom`.
  - A `parentId` written later has a different zoom in its low five bits. So no
    `getChildren` filter at the finer tree can match it, and no query result differs.
- **Each tree is a pass over the one finer.** `Load` proves, for every zoom z from
  `minZoom` to `maxZoom`, that the tree of z is what the pass at z returns when run over the
  tree of z + 1 (`StoredPass`). The tree of z + 1 is compared as the pass left it marked,
  and the tree of z up to the scratch fields `zoom` and `parentId`, which the pass at z - 1
  overwrites. The pass is the complete specification of `_cluster` (`PassOut`), together
  with its maximality (`Maximal`). `PassOrder` reads off what this fixes: one node per
  origin, in the order of the origins, each either the origin carried over or a new
  cluster with the origin's encoded id.
- **Id arithmetic.** `<<` and `>>` wrap to 32 bits (`ClusterIds.Wrap32`), and `%` keeps the
  sign of its dividend (`ClusterIds.JsRem`). Ids decode correctly while the origin index is
  below 2^26 (`IdRoundTrip`), and the bound is tight (`IdOverflowAt2To26`).
- **Points where the code is followed rather than the usual description of the algorithm:**
  - Ids are packed with `+` and decoded with `% 32`, not with `|` and `& 31`. The two
    differ only for negative, overflowed ids.
  - The engine performs no configuration check, so nothing rejects `maxZoom > 30`. The
    lemmas that need the five-bit zoom budget assume `ConfigOk`
    (`0 <= minZoom <= maxZoom <= 30`) instead.
  - `load` may be called again and overwrites the trees zoom by zoom.
- **The cluster hierarchy.** `Load` also proves that every stored cluster has children:
  `getChildren` of its id succeeds, and the point counts of the children sum to the
  cluster's `point_count`. This is what lets `_appendLeaves` skip a whole cluster by its
  count. The statement holds when ids decode, that is under `ConfigOk` and with fewer than
  2^26 inputs that have a geometry (`Decodable`). Beyond that bound the ids overflow
  (`IdOverflowAt2To26`).
- **Greedy clustering.** `Load` also proves that every tree above `minZoom` was clustered
  greedily. Read each node's output off its `parentId`: itself when it has none, otherwise
  the origin index its parent's id encodes. Then no node within the merge radius of an
  origin went into an output with a later origin (`Greedy`). This is the maximality of the
  neighbour loop: an unvisited neighbour of the origin is always absorbed.
- **Leaves.** `LeavesUnder` lists the source points under a cluster independently of the
  paging: each child in `getChildren` order, a child cluster replaced by the points under
  it. When every stored cluster adds up, there are as many of them as the cluster's children
  stand for. `getLeaves` then returns exactly the slice of that list that starts at `offset`
  and holds `limit` points.

## Model

| member | source | states |
|---|---|---|
| ClusterIds.Wrap32 | src/app/mapbox/inc/super-cluster.ts:254 | the 32-bit wrap of the shift lands in the signed 32-bit range, is congruent to its input modulo 2^32 and is the identity on that range |
| ClusterIds.JsRem | src/app/mapbox/inc/super-cluster.ts:94 | `%` has the sign of its dividend: the Euclidean remainder for non-negative ids, non-positive for negative ones, always strictly inside (-32, 32) |
| ClusterIds.IdRoundTrip | src/app/mapbox/inc/super-cluster.ts:93-94 | an id made from index `i < 2^26` and zoom with `0 <= zoom + 1 < 32` decodes to that index and to zoom + 1 |
| ClusterIds.IdOverflowAt2To26 | src/app/mapbox/inc/super-cluster.ts:254 | at index 2^26 the shift overflows into the sign bit: the index no longer decodes and the decoded zoom is negative |
| ClusterIds.OriginZoomOfEncoded | src/app/mapbox/inc/super-cluster.ts:254 | for every index and `0 <= zoom <= 30` the decoded zoom of a formed id is zoom + 1 or negative, so it never names a wrong stored tree |
| Nodes.Weight | src/app/mapbox/inc/super-cluster.ts:242 | `numPoints` or else 1: at least 1; 1 for a node without a non-zero count; the count for a cluster |
| Nodes.LngX | src/app/mapbox/inc/super-cluster.ts:346-348 | longitudes in [-180, 180] project into [0, 1], and the projection is inverted by `xLng` (line 357) |
| Nodes.CreatePointCluster | src/app/mapbox/inc/super-cluster.ts:310-319 | a leaf: no point count (weight 1), unvisited at every zoom, id the source index, no parent, projected coordinates of the geometry |
| Nodes.CreateCluster | src/app/mapbox/inc/super-cluster.ts:298-308 | a cluster with the given centre, id and count, unvisited at every zoom and without parent |
| Nodes.LimitZoom | src/app/mapbox/inc/super-cluster.ts:221-223 | the clamp lies in [minZoom, maxZoom + 1], is the identity inside it, maps larger zooms to maxZoom + 1 and smaller ones to minZoom (and is minZoom when minZoom > maxZoom + 1) |
| Nodes.MergeRadius | src/app/mapbox/inc/super-cluster.ts:227 | the merge radius is never negative |
| Nodes.MergeRadiusHalves | src/app/mapbox/inc/super-cluster.ts:227 | the merge radius halves with every zoom level |
| Nodes.Within | src/app/mapbox/inc/super-cluster.ts:240 | `within` returns, in ascending order, exactly the positions whose node lies in the closed disk |
| Nodes.Range | src/app/mapbox/inc/super-cluster.ts:83 | `range` returns, in ascending order, exactly the positions whose node lies in the closed box |
| Nodes.Abbreviate | src/app/mapbox/inc/super-cluster.ts:334-336 | from 10000 the count rounded to thousands, from 1000 rounded to tenths of thousands (within half a unit), below that the count itself |
| Nodes.ClusterProperties | src/app/mapbox/inc/super-cluster.ts:332-343 | the properties carry the cluster's id, its point count and the abbreviation of that count |
| Nodes.ToFeature | src/app/mapbox/inc/super-cluster.ts:87 | a node turns into a cluster feature exactly when it is a cluster, with its id and count, and otherwise into the source feature at its id |
| Nodes.SumFreshUpdate | src/app/mapbox/inc/super-cluster.ts:259-263 | marking one node changes the number of points still to process by the difference of its weights |
| Nodes.SumWeightsScratch | src/app/mapbox/inc/super-cluster.ts:236 | marking nodes (`zoom`, `parentId`) leaves the total point count unchanged |
| Clustering.AbsorbOne | src/app/mapbox/inc/super-cluster.ts:263-270 | an unvisited neighbour is marked visited at the zoom and gets the new id as parent, and nothing else in the array changes; its weight and weighted coordinates go into the accumulators |
| Clustering.Absorb | src/app/mapbox/inc/super-cluster.ts:256-275 | exactly the unvisited listed neighbours are marked and assigned to the new output, the others are untouched; the accumulators grow by their weights; the points left to process shrink by as much |
| Clustering.Visit | src/app/mapbox/inc/super-cluster.ts:230-283 | one iteration of the outer loop keeps the invariant of the pass (`PassInv`) for one more position |
| Clustering.FreshStep | src/app/mapbox/inc/super-cluster.ts:236-282 | visiting an unvisited node keeps every part of the pass invariant, for both outcomes (singleton or new cluster) |
| Clustering.ClusterPass | src/app/mapbox/inc/super-cluster.ts:225-286 | `_cluster`. Only `zoom` and `parentId` change, and every node ends up visited; nodes visited before are untouched. The output is no longer than the input and holds as many points as the unvisited inputs. Each output comes from its own unvisited origin, in input order. It is either the origin carried forward with its parent unchanged, standing for one point, or a new cluster of two or more points at the weighted centre with id `(i << 5) + (zoom + 1)`, which the origin names as parent. Every unvisited input went into exactly one output, lies within the radius of that output's origin, and names the new cluster as parent unless it is the origin. The pass is maximal: an unvisited input within the radius of the origin of output c went into c or an earlier output, because the neighbour loop absorbs every unvisited neighbour |
| Clustering.StepMaximal | src/app/mapbox/inc/super-cluster.ts:256-270 | visiting an unvisited origin keeps the pass maximal: each unvisited node within the radius of the new origin is now taken by the new output or was taken by an earlier one, and the earlier outputs' neighbours stay taken |
| SuperClusterEngine.WithGeometry | src/app/mapbox/inc/super-cluster.ts:50-53 | the ascending positions of exactly the inputs that have a geometry |
| SuperClusterEngine.LeafNodes | src/app/mapbox/inc/super-cluster.ts:49-55 | one leaf per input with a geometry, in input order, made by `createPointCluster` |
| SuperClusterEngine.BuildLeaves | src/app/mapbox/inc/super-cluster.ts:49-55 | the first loop of `load` builds exactly `LeafNodes` |
| SuperClusterEngine.NextLevel | src/app/mapbox/inc/super-cluster.ts:66 | a pass keeps the total point count of a level, and its output has the node shape of the next level and is unvisited one zoom lower |
| SuperClusterEngine.BuildStep | src/app/mapbox/inc/super-cluster.ts:62-70 | storing the marked level as the tree of z + 1 keeps the invariant of the zoom loop |
| SuperClusterEngine.MarkLevel | src/app/mapbox/inc/super-cluster.ts:66 | `_cluster` run on the level: every node is marked visited at z, the output holds the points still to process, and the pass facts and its maximality hold of the marked level |
| SuperClusterEngine.ClusterLevel | src/app/mapbox/inc/super-cluster.ts:66-67 | one turn of the zoom loop keeps its invariant, including, when ids decode, that every tree stored so far above the current zoom is greedy. The tree it stores at z + 1 is the pass at z + 1 over the tree of z + 2, and the `next` it returns is the output of a complete, maximal pass at z over that stored tree (`PassesFrom`) |
| SuperClusterEngine.ZoomLoop | src/app/mapbox/inc/super-cluster.ts:62-70 | the zoom loop, from maxZoom down to below minZoom, keeps the loop invariant, the greedy trees and the pass facts of every tree it stores |
| SuperClusterEngine.GreedyStore | src/app/mapbox/inc/super-cluster.ts:62-70 | storing a tree at z keeps the trees above z greedy, and adds z when the new tree is greedy (or lies above maxZoom + 1) |
| SuperClusterEngine.BuildTrees | src/app/mapbox/inc/super-cluster.ts:48-70 | the trees after the two loops of `load` are the stored zooms: the finest is the leaves of the inputs with a geometry; every tree holds all points; every cluster's id names the tree of its children; when ids decode, every cluster's children add up to it and every tree above minZoom is greedy at the radius of the zoom below it; for each z in minZoom .. maxZoom the tree of z is, up to scratch fields, the output of a complete, maximal pass at z over the tree of z + 1 as that pass marked it (`StoredPass`) |
| SuperClusterEngine.PassNew | src/app/mapbox/inc/super-cluster.ts:66 | a complete, maximal pass at z relates the level it marked to the output it returned |
| SuperClusterEngine.PassMarked | src/app/mapbox/inc/super-cluster.ts:66-67 | the pass relation still holds after the next pass overwrites the scratch fields of its output |
| SuperClusterEngine.PassStore | src/app/mapbox/inc/super-cluster.ts:66-67 | storing the level marked by the pass at z as the tree of z + 1 keeps every stored tree a pass over the one finer, and leaves the pass at z pending for `next` |
| SuperClusterEngine.PassLast | src/app/mapbox/inc/super-cluster.ts:66-67 | storing the last output as the tree of minZoom completes the pass relation for every zoom minZoom .. maxZoom |
| SuperClusterEngine.PassOrder | src/app/mapbox/inc/super-cluster.ts:225-286 | a tree made by a pass holds one node per origin, in the order of the origins in the finer tree; each is the origin carried over with one point, or a new cluster of two or more points whose id encodes the origin and which the origin names as its parent |
| SuperClusterEngine.HierNew | src/app/mapbox/inc/super-cluster.ts:66-67 | when ids decode, every cluster the pass at z makes has children in the tree stored at z + 1, and they stand for as many points as it does |
| SuperClusterEngine.HierKeep | src/app/mapbox/inc/super-cluster.ts:62-70 | storing the marked level at z + 1 keeps the clusters stored at z + 1 .. maxZoom adding up, because their ids name other zooms |
| SuperClusterEngine.HierAll | src/app/mapbox/inc/super-cluster.ts:48-70 | once every zoom is stored, the clusters of every tree add up; the finest tree has no cluster |
| SuperClusterEngine.ShapeIndexOk | src/app/mapbox/inc/super-cluster.ts:62-70 | in a configuration within the five-bit budget, every stored cluster's decoded zoom is that of the tree one level finer, or of no stored tree |
| SuperClusterEngine.SuperCluster.constructor | src/app/mapbox/inc/super-cluster.ts:30-36 | the engine keeps the given options merged over the defaults and starts with no points and no trees |
| Nodes.MergeExtremes | src/app/mapbox/inc/super-cluster.ts:31-34 | giving no option keeps the defaults minZoom 0, maxZoom 16, radius 200 and extent 512 (lines 6-10), which are well formed; giving every option replaces all of them |
| SuperClusterEngine.SuperCluster.Load | src/app/mapbox/inc/super-cluster.ts:38-73 | the stored zooms are exactly minZoom .. maxZoom + 1 (maxZoom + 1 always). The finest tree holds the leaves of exactly the inputs with a geometry, in input order. Every tree holds the same number of points, the number of inputs with a geometry. Every node is a leaf for such an input or a cluster of two or more points whose decoded zoom names the next finer tree. When ids decode, `getChildren` succeeds on every stored cluster, and its children's point counts sum to the cluster's. When ids decode, every tree above minZoom is greedy: no node within the merge radius of an origin went into an output with a later origin. For each z in minZoom .. maxZoom, the tree of z is, up to scratch fields, the output of a complete, maximal pass at z over the tree of z + 1 as that pass marked it |
| SuperClusterEngine.SuperCluster.GetClusters | src/app/mapbox/inc/super-cluster.ts:75-90 | `getClusters` with the antimeridian split done once (see Findings) |
| SuperClusterEngine.SuperCluster.QueryBox | src/app/mapbox/inc/super-cluster.ts:82-89 | the box query on the tree of the clamped zoom returns `ClustersIn` |
| SuperClusterEngine.CollectChildren | src/app/mapbox/inc/super-cluster.ts:109-116 | the loop of `getChildren` returns, in query order, the features of the neighbours that name the cluster as parent |
| SuperClusterEngine.SuperCluster.GetChildren | src/app/mapbox/inc/super-cluster.ts:92-122 | `getChildren` returns `Children`, whose contents `Queries.ChildrenSpec` states |
| SuperClusterEngine.ChildrenOf | src/app/mapbox/inc/super-cluster.ts:93-121 | the decoding, the radius query and the parent filter of `getChildren`, with both throws, compute `Children` |
| SuperClusterEngine.ChildrenNear | src/app/mapbox/inc/super-cluster.ts:103-121 | once the origin is found, the radius query around it, the parent filter and the throw on an empty result compute `Children` |
| SuperClusterEngine.ExpansionStep | src/app/mapbox/inc/super-cluster.ts:168-173 | one turn of the loop of `getClusterExpansionZoom` is the next step of `ExpansionFrom` |
| SuperClusterEngine.SuperCluster.GetClusterExpansionZoom | src/app/mapbox/inc/super-cluster.ts:166-175 | the loop ends with `ExpansionZoom`, at least `clusterId % 32 - 1` and, when the loop runs, at most maxZoom |
| SuperClusterEngine.ExpansionLoop | src/app/mapbox/inc/super-cluster.ts:167-174 | the loop following single children, which can stop at `getChildren`'s throw, computes `ExpansionZoom` |
| SuperClusterEngine.SuperCluster.GetLeaves | src/app/mapbox/inc/super-cluster.ts:125-133 | `getLeaves` returns `LeafPage`: source points only, at most `limit` of them for a positive limit (10 when missing or 0); when every stored cluster adds up and the cluster has children, exactly the slice of `LeavesUnder` from `offset` (0 when missing) holding `limit` points |
| SuperClusterEngine.SuperCluster.AppendLeaves | src/app/mapbox/inc/super-cluster.ts:177-205 | the recursion with its loop over the children returns `Leaves`: the pushed-onto result and the new skipped count |
| Hierarchy.ClaimIsOrigin | src/app/mapbox/inc/super-cluster.ts:254-280 | a node's claim read off the marked level (itself without a parent, otherwise the index its parent's id decodes to) is the origin of the output it went into |
| Hierarchy.ClaimPair | src/app/mapbox/inc/super-cluster.ts:230-283 | a node within the radius of an origin claims that origin or an earlier one |
| Hierarchy.ClaimsGreedy | src/app/mapbox/inc/super-cluster.ts:230-283 | from the pass facts and maximality, the marked level is greedy |
| Hierarchy.PassGreedy | src/app/mapbox/inc/super-cluster.ts:225-286 | a maximal pass at z with fewer than 2^26 points leaves a level that is greedy at the merge radius of z |
| Hierarchy.FeatureWeights | src/app/mapbox/inc/super-cluster.ts:113 | the features `getChildren` returns stand for as many points as their nodes: `point_count` for a cluster, 1 for a source point |
| Hierarchy.EncodeInjective | src/app/mapbox/inc/super-cluster.ts:254 | ids made at one zoom from distinct origins below 2^26 are distinct and positive |
| Hierarchy.PassParts | src/app/mapbox/inc/super-cluster.ts:256-282 | after the pass, every node lies within the radius of the origin of the output it went into, and it names that output's id as parent exactly when the output is a cluster of two or more points; otherwise it has no parent |
| Hierarchy.NamedOwned | src/app/mapbox/inc/super-cluster.ts:270-280 | a node that names a new cluster's id as parent went into that cluster |
| Hierarchy.OwnedNamed | src/app/mapbox/inc/super-cluster.ts:256-280 | a node that went into a cluster lies within the merge radius of its origin and names its id as parent |
| Hierarchy.ChildPositions | src/app/mapbox/inc/super-cluster.ts:109-116 | the positions `getChildren` keeps for a new cluster are exactly the nodes the pass absorbed into it, origin included |
| Hierarchy.ClusterChildren | src/app/mapbox/inc/super-cluster.ts:97-121 | `getChildren` succeeds on a new cluster's id, and its children's point counts sum to the points the cluster absorbed |
| Hierarchy.PassChildren | src/app/mapbox/inc/super-cluster.ts:277-282 | with the marked level stored at z + 1, each output of the pass is a source point or a cluster whose children add up to its `numPoints` |
| Queries.FeaturesAt | src/app/mapbox/inc/super-cluster.ts:85-88 | one feature per queried position, in the same order, each that of the node at the position |
| Queries.WithParent | src/app/mapbox/inc/super-cluster.ts:110-115 | the kept positions are exactly those among the queried ones whose node names the given parent |
| Queries.Children | src/app/mapbox/inc/super-cluster.ts:92-122 | the only failure is "No cluster with the specified id.", and a success is never empty |
| Queries.ChildrenSpec | src/app/mapbox/inc/super-cluster.ts:97-121 | `getChildren` succeeds exactly when some node of the origin zoom's tree lies within the radius of the origin node and names the cluster as parent; then it returns the features of exactly those nodes |
| Queries.ChildWitness | src/app/mapbox/inc/super-cluster.ts:110-114 | each returned child is the feature of such a node |
| Queries.ChildFound | src/app/mapbox/inc/super-cluster.ts:110-114 | each such node's feature is returned |
| Queries.ExpansionBounds | src/app/mapbox/inc/super-cluster.ts:166-175 | the loop stops with a result at least its start; above the start and at most maxZoom when the loop runs; the start itself when it does not |
| Queries.ExpansionOfSplit | src/app/mapbox/inc/super-cluster.ts:168-171 | a cluster whose children are not exactly one expands at its origin zoom, one call of `getChildren` later |
| Queries.Depth | src/app/mapbox/inc/super-cluster.ts:189 | the levels below a cluster's children, positive whenever its origin zoom has a tree |
| Queries.ChildDepth | src/app/mapbox/inc/super-cluster.ts:189 | `_appendLeaves` recurses into a child cluster that lies one level deeper, so the recursion ends |
| Queries.ChildPointCount | src/app/mapbox/inc/super-cluster.ts:184-186 | a child cluster stands for at least one point, so skipping it never lowers `skipped` |
| Queries.LimitOrDefault | src/app/mapbox/inc/super-cluster.ts:126 | a missing or zero limit is 10, any other is kept |
| Queries.OffsetOrDefault | src/app/mapbox/inc/super-cluster.ts:127 | a missing offset is 0, any other is kept |
| Queries.LeavesPaged | src/app/mapbox/inc/super-cluster.ts:177-205 | one `_appendLeaves` call only pushes source points, never pushes past `limit`, only counts `skipped` up, never skips past `offset` and pushes nothing before `offset` points are skipped |
| Queries.LeavesListPaged | src/app/mapbox/inc/super-cluster.ts:180-202 | the same for the loop over the children from any position |
| Queries.LeafStepPaged | src/app/mapbox/inc/super-cluster.ts:181-198 | the same for one child: skip or enter a cluster, skip or push a point |
| Queries.PagedTrans | src/app/mapbox/inc/super-cluster.ts:199-201 | two steps in a row, the first stopping short of `limit`, page like one |
| Queries.GetLeavesPaged | src/app/mapbox/inc/super-cluster.ts:125-133 | `getLeaves` returns source points only, at most `limit` of them for a positive limit, and none before `offset` points were skipped |
| LeafPages.LeavesUnder | src/app/mapbox/inc/super-cluster.ts:177-205 | the points under a cluster, listed child by child in `getChildren` order, are source points only |
| LeafPages.LeavesCount | src/app/mapbox/inc/super-cluster.ts:184-186 | when every stored cluster adds up, there are as many points under a cluster as its children stand for |
| LeafPages.StoredLeavesCount | src/app/mapbox/inc/super-cluster.ts:277-282 | a stored cluster has exactly its point count of points under it |
| LeafPages.PageConcat | src/app/mapbox/inc/super-cluster.ts:199-201 | paging two lists one after the other is paging their concatenation, the second adding nothing once the first fills the page |
| LeafPages.PageSkipAll | src/app/mapbox/inc/super-cluster.ts:184-186 | points that all lie before `offset` are skipped whole |
| LeafPages.PageOne | src/app/mapbox/inc/super-cluster.ts:191-197 | a single point is skipped before `offset` and pushed after it |
| LeafPages.LeavesAsPage | src/app/mapbox/inc/super-cluster.ts:177-205 | one `_appendLeaves` call on a page that is not yet full pushes and skips exactly what paging the points under the cluster does |
| LeafPages.LeavesListAsPage | src/app/mapbox/inc/super-cluster.ts:180-202 | the same for the loop over the children from any position |
| LeafPages.ListStepAsPage | src/app/mapbox/inc/super-cluster.ts:180-202 | the same for the loop at one child followed by the rest |
| LeafPages.LeafStepAsPage | src/app/mapbox/inc/super-cluster.ts:181-198 | the same for one child: skip or enter a cluster, skip or push a point |
| LeafPages.GetLeavesPage | src/app/mapbox/inc/super-cluster.ts:125-133 | `getLeaves` on a cluster with children, when every stored cluster adds up, returns exactly the slice of the points under it from `offset` holding `limit` points (all the rest for a negative limit), and there are as many of those points as its children stand for |
| LeafPages.PageFromStart | src/app/mapbox/inc/super-cluster.ts:126-130 | paging from an empty result and nothing skipped is taking the slice |
| LeafPages.PagesJoin | src/app/mapbox/inc/super-cluster.ts:125-133 | the page of `l1` points at `offset` followed by the page of `l2` points at `offset + l1` is the page of `l1 + l2` points at `offset` |
| Queries.ClustersIn | src/app/mapbox/inc/super-cluster.ts:82-89 | the box query fails exactly when the clamped zoom has no tree |
| Queries.ClustersInSpec | src/app/mapbox/inc/super-cluster.ts:82-89 | the box query returns the features of exactly the nodes in the projected box |
| Queries.ClustersInWitness | src/app/mapbox/inc/super-cluster.ts:86-87 | each feature returned by the box query is that of a node in the box |
| Queries.Concat | src/app/mapbox/inc/super-cluster.ts:77-79 | the eastern results followed by the western ones, the first failure winning |
| Queries.GetClustersCrossing | src/app/mapbox/inc/super-cluster.ts:76-80 | a box with west > east succeeds exactly when the clamped zoom has a tree, and returns the features of exactly the nodes in its part east of `west` up to 180 or its part from -180 to `east` |
| Queries.CrossingSound | src/app/mapbox/inc/super-cluster.ts:76-80 | every feature of a crossing box comes from a node in one of its two parts |
| Queries.CrossingComplete | src/app/mapbox/inc/super-cluster.ts:76-80 | every node in one of the two parts is returned |
| Queries.AsWrittenDivergesEast | src/app/mapbox/inc/super-cluster.ts:76-80 | as written, a box with west > 180 and west > east recurses without end |
| Queries.AsWrittenDivergesWest | src/app/mapbox/inc/super-cluster.ts:76-80 | as written, a box with east < -180 and west > east recurses without end when the tree exists |
| Queries.AsWrittenDivergesExample | src/app/mapbox/inc/super-cluster.ts:76-80 | as written, `getClusters([200, 0, 100, 10], z)` never returns |
| Queries.AsWrittenAgrees | src/app/mapbox/inc/super-cluster.ts:76-80 | for west <= 180 and east >= -180 the code as written returns after one split with the corrected result |

## Left out

- `getTile` and `_addTileFeatures` (lines 135-164, 207-219) compute pixel coordinates with
  `Math.round` over floating-point products. They are not modelled.
- The reducer options `reduce`, `map` and `initial`, `_accumulate` (lines 248-251, 272-274,
  288-294) and the reduced `properties` of a cluster call user functions. They are not
  modelled. `createCluster` and `getClusterProperties` model only the fields the engine
  itself sets.
- Coordinates are exact reals, not float64. The kd-tree's `Float32Array` copy of the
  coordinates is not modelled either.
- The latitude projection `latY` uses `sin` and `log`. It is a function-valued field of the
  engine, given at construction, and the inverse projections `xLng` and `yLat` are not
  modelled. A cluster feature carries its projected centre, not longitude and latitude.
- The kd-tree library itself (construction, `nodeSize`, its internal order of results) is
  not modelled. `within` and `range` are filters returning ascending positions.
- Order of query results: the model returns the positions of `within` and `range` in
  ascending order, while kdbush returns them in the order of its tree. `getChildren` and
  `getClusters` therefore list the same features in possibly another order. `getLeaves`
  visits children in that order, so a page from the source can hold other points than the
  model's, though the same number of them.
- Queries.LeavesPaged: it bounds the accumulators on any stored trees, without saying which
  points they hold. Which points a page holds is stated by `LeafPages.LeavesAsPage`, when
  every stored cluster adds up.
- Queries.LeavesListPaged: the same bound for the loop over the children. Its contents are
  stated by `LeafPages.LeavesListAsPage` under the same condition.
- Queries.LeafStepPaged: the same bound for one child. Its contents are stated by
  `LeafPages.LeafStepAsPage` under the same condition.
- Queries.GetLeavesPaged: the same bound for `getLeaves`. The page's contents are stated by
  `LeafPages.GetLeavesPage` when every stored cluster adds up (which `Load` gives when ids
  decode).
- Option merge: JavaScript's spread also copies a key given with the value `undefined`,
  which then replaces the default. `MergeOptions` treats an option as either given with a
  number or left out. The options `nodeSize`, `log`, `reduce`, `initial` and `map` are not
  merged.
- Logging and timing (`log`, `console.time`, `Date.now`) are left out.
- A source feature's properties are not represented. A returned source point is its index
  in the input array.
- Nodes.Abbreviate: `pointCountBeauty` is a structured value, not a string with `k`. The
  1000-9999 branch is kept as an integer count of tenths, rounded half up, which leaves out
  the float division by 10.
- Clustering.ClusterPass: the centre is exact real division of the weighted sums. Float64
  rounding of `wx / numPoints` is not represented.
- SuperClusterEngine.SuperCluster.constructor: it requires `radius >= 0` and `extent > 0`
  (`WellFormed`), which the source does not check. With other values the source computes
  infinite or negative radii.
- SuperClusterEngine.SuperCluster.GetLeaves: it requires `IndexOk`, that is
  `0 <= minZoom <= maxZoom <= 30` and ids that name their child tree. `Load` establishes
  `IndexOk` under that configuration. Without it, the recursion of `_appendLeaves` has no
  bound to terminate by.
- SuperClusterEngine.SuperCluster.AppendLeaves: it requires `IndexOk` for the same reason.
  It also takes `result` as a value and returns the extended sequence, instead of pushing
  onto a shared array.
- SuperClusterEngine.SuperCluster.GetClusters: it models the intended single split. The
  non-terminating recursion of the source is the Finding below.
- Uniqueness of the pass: `StoredPass` says that some complete, maximal pass at z turns the
  tree of z + 1 into the tree of z. That the origins, and so the whole output, are
  determined by the input is not stated as a lemma of its own.
- Aliasing between trees: a carried singleton shares one object between two trees in the
  source, while the model stores each tree by value (see "Stored trees" above for why no
  query sees the difference).

## Findings

| source | as written | input that shows it | evidently intended | confidence | as-written member | corrected member |
|---|---|---|---|---|---|---|
| src/app/mapbox/inc/super-cluster.ts:76-80 | for a box with west > east, `getClusters` calls itself on `[west, s, 180, n]` and `[-180, s, east, n]`; when west > 180 the first part again has west > east (and when east < -180 so does the second), so the recursion never ends and the call overflows the stack | `getClusters([200, 0, 100, 10], z)` | a crossing box is answered as its eastern part followed by its western part, one split deep | not executed | Queries.AsWrittenDivergesExample | Queries.GetClustersCrossing |
