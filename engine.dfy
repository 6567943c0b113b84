/** The `SuperCluster` object: `load` builds one node list per zoom, the queries read them. */
module SuperClusterEngine {
  import opened Wrappers
  import opened ClusterIds
  import opened Nodes
  import opened Clustering
  import opened Queries
  import opened Hierarchy
  import opened LeafPages

  /** The zooms `load` stores a tree for: minZoom .. maxZoom, and maxZoom + 1. */
  predicate IsLevel(o: Options, z: int) {
    o.minZoom <= z <= o.maxZoom + 1 || z == o.maxZoom + 1
  }

  /** The input positions that have a geometry, in input order. */
  function WithGeometry(pts: seq<Source>): (ids: seq<int>)
    ensures forall j :: 0 <= j < |ids| ==> 0 <= ids[j] < |pts| && pts[ids[j]].geometry.Some?
    ensures forall i :: 0 <= i < |pts| && pts[i].geometry.Some? ==> i in ids
    ensures forall j1, j2 :: 0 <= j1 < j2 < |ids| ==> ids[j1] < ids[j2]
    ensures |ids| <= |pts|
    decreases |pts|
  {
    if |pts| == 0 then []
    else
      var rest := WithGeometry(pts[..|pts| - 1]);
      if pts[|pts| - 1].geometry.Some? then rest + [|pts| - 1] else rest
  }

  /** One turn of the zoom loop of `load`: `_cluster(clusters, z)` marks the nodes of the
      level, which are stored as the tree of z + 1, and returns the level of z. */
  method ClusterLevel(o: Options, ghost pts: seq<Source>, ghost leaves: seq<Node>, ghost count: int,
                      ghost t0: map<int, seq<Node>>, ghost t: map<int, seq<Node>>,
                      clusters: seq<Node>, z: int)
    returns (stored: seq<Node>, next: seq<Node>)
    requires WellFormed(o)
    requires BuildInv(o, pts, leaves, count, t0, t, clusters, z) && z >= o.minZoom
    requires Decodable(o, count) ==> GreedyFrom(o, t, z + 2)
    requires PassesFrom(o, t, clusters, z)
    ensures BuildInv(o, pts, leaves, count, t0, t[z + 1 := stored], next, z - 1)
    ensures Decodable(o, count) ==> GreedyFrom(o, t[z + 1 := stored], z + 1)
    // the stored tree is the level marked by the pass at z, and `next` is what that pass returns
    ensures PassesFrom(o, t[z + 1 := stored], next, z - 1)
  {
    ghost var origin, owner;
    stored, next, origin, owner := MarkLevel(o, clusters, z);
    NextLevel(o, pts, count, clusters, stored, owner, next, origin, z);
    if Decodable(o, count) {
      HierNew(o, pts, count, t[z + 1 := stored], clusters, stored, owner, next, origin, z);
      HierKeep(o, pts, count, t, clusters, stored, z);
      PassGreedy(o, clusters, stored, owner, next, origin, z);
      GreedyStore(o, t, z + 1, stored);
    }
    BuildStep(o, pts, leaves, count, t0, t, clusters, stored, next, z);
    PassStore(o, t, clusters, stored, owner, next, origin, z);
  }

  /** `_cluster(clusters, z)` on a fresh array holding the level: the marked level and the
      level of z, as `PassOut` and `Maximal` state them. */
  method MarkLevel(o: Options, clusters: seq<Node>, z: int)
    returns (stored: seq<Node>, next: seq<Node>, ghost origin: seq<int>, ghost owner: seq<int>)
    requires WellFormed(o)
    requires forall k :: 0 <= k < |clusters| ==> !Processed(clusters[k], z) && clusters[k].parentId == NoParent
    ensures PassOut(o, clusters, stored, owner, next, origin, z)
    ensures Maximal(clusters, owner, origin, z, MergeRadius(o, z))
    ensures forall k :: 0 <= k < |clusters| ==> stored[k].zoom == Visited(z)
    ensures SumWeights(next) == SumFresh(clusters, z)
  {
    var a := new Node[|clusters|](k requires 0 <= k < |clusters| => clusters[k]);
    assert a[..] == clusters;
    next, origin, owner := ClusterPass(a, z, MergeRadius(o, z));
    stored := a[..];
  }

  /** The first loop of `load`: a leaf node for every input with a geometry. */
  function LeafNodes(pts: seq<Source>, latY: real -> real): (ns: seq<Node>)
    ensures |ns| == |WithGeometry(pts)|
    ensures forall k :: 0 <= k < |ns| ==>
      ns[k] == CreatePointCluster(pts[WithGeometry(pts)[k]], WithGeometry(pts)[k], latY)
    decreases |pts|
  {
    if |pts| == 0 then []
    else
      var rest := LeafNodes(pts[..|pts| - 1], latY);
      if pts[|pts| - 1].geometry.Some?
      then rest + [CreatePointCluster(pts[|pts| - 1], |pts| - 1, latY)]
      else rest
  }

  /** A node of the tree at `level` as `load` leaves it: a leaf for an input with a
      geometry, or a cluster of two or more points whose id names level + 1 as the zoom of
      its children (or a negative zoom, which no tree is stored at). */
  predicate NodeShape(o: Options, pts: seq<Source>, n: Node, level: int) {
    || (!IsCluster(n) && 0 <= n.id < |pts| && pts[n.id].geometry.Some?)
    || (&& IsCluster(n) && n.numPoints.value >= 2
        && (ConfigOk(o) ==> OriginZoom(n.id) == level + 1 || OriginZoom(n.id) < 0))
  }

  predicate LevelShape(o: Options, pts: seq<Source>, ns: seq<Node>, level: int) {
    forall k :: 0 <= k < |ns| ==> NodeShape(o, pts, ns[k], level)
  }

  class SuperCluster {
    const options: Options
    /** The latitude half of the spherical mercator projection (`latY`). */
    const latY: real -> real
    var points: seq<Source>
    var trees: map<int, seq<Node>>

    ghost predicate Valid()
      reads this
    {
      WellFormed(options) && forall z :: z in trees ==> IsLevel(options, z)
    }

    /** `new SuperCluster(options)`: the defaults with the caller's options laid over them. */
    constructor (given: GivenOptions, latY: real -> real)
      requires WellFormed(MergeOptions(given))
      ensures Valid()
      ensures options == MergeOptions(given) && this.latY == latY
      ensures points == [] && trees == map[]
    {
      options := MergeOptions(given);
      this.latY := latY;
      points := [];
      trees := map[];
    }

    /** `load(points)`: index the inputs that have a geometry at maxZoom + 1, then cluster
        each level into the one below it from maxZoom down to minZoom. */
    method Load(pts: seq<Source>)
      requires Valid()
      modifies this
      ensures Valid() && points == pts
      ensures forall z :: z in trees <==> IsLevel(options, z)
      ensures options.maxZoom + 1 in trees
      // the finest tree holds exactly the inputs with a geometry, in input order
      ensures LeavesOf(pts, latY, trees[options.maxZoom + 1])
      // point conservation at every zoom
      ensures forall z :: z in trees ==> SumWeights(trees[z]) == |WithGeometry(pts)|
      ensures forall z :: z in trees ==> LevelShape(options, pts, trees[z], z)
      ensures ConfigOk(options) ==> IndexOk(options, trees)
      // every stored cluster has children, at the next zoom, that stand for all its points
      ensures Decodable(options, |WithGeometry(pts)|) ==>
        forall z :: z in trees ==> AllAddUp(options, trees, trees[z])
      // each tree above minZoom was clustered greedily by the pass of the zoom below it
      ensures Decodable(options, |WithGeometry(pts)|) ==>
        forall z :: options.minZoom < z <= options.maxZoom + 1 && z in trees ==> Greedy(trees[z], MergeRadius(options, z - 1))
      // the tree of each zoom minZoom .. maxZoom is the pass at that zoom over the tree one finer
      ensures forall z :: options.minZoom <= z <= options.maxZoom ==> StoredPass(options, trees, z)
    {
      points := pts;
      trees := BuildTrees(options, pts, latY, trees);
    }

    /** `getClusters(bbox, zoom)`, a box crossing the antimeridian split once into its
        eastern and western parts. */
    method GetClusters(b: BBox, zoom: int) returns (r: Result<seq<Feature>>)
      ensures r == ClustersInBBox(options, trees, latY, b, zoom)
    {
      if b.west > b.east {
        var easternHem := QueryBox(EastPart(b), zoom);
        if easternHem.Err? {
          return easternHem;
        }
        var westernHem := QueryBox(WestPart(b), zoom);
        if westernHem.Err? {
          return westernHem;
        }
        return Ok(easternHem.value + westernHem.value);
      }
      r := QueryBox(b, zoom);
    }

    /** The range query of `getClusters` on the tree of the limited zoom. */
    method QueryBox(b: BBox, zoom: int) returns (r: Result<seq<Feature>>)
      ensures r == ClustersIn(options, trees, latY, b, zoom)
    {
      var z := LimitZoom(options, zoom);
      if z !in trees {
        return Err(MissingTree);
      }
      var tree := trees[z];
      var ids := Range(tree, LngX(b.west), latY(b.north), LngX(b.east), latY(b.south));
      var clusters: seq<Feature> := [];
      for i := 0 to |ids|
        invariant clusters == FeaturesAt(tree, ids[..i])
      {
        assert ids[..i + 1][..i] == ids[..i];
        clusters := clusters + [ToFeature(tree[ids[i]])];
      }
      assert ids[..|ids|] == ids;
      return Ok(clusters);
    }

    /** `getChildren(clusterId)`. */
    method GetChildren(clusterId: int) returns (r: Result<seq<Feature>>)
      requires Valid()
      ensures r == Children(options, trees, clusterId)
    {
      r := ChildrenOf(options, trees, clusterId);
    }

    /** `getClusterExpansionZoom(clusterId)`: the zoom at which the cluster splits into
        more than one child, or maxZoom. */
    method GetClusterExpansionZoom(clusterId: int) returns (r: Result<int>)
      requires Valid()
      ensures r == ExpansionZoom(options, trees, clusterId)
      ensures r.Ok? ==> OriginZoom(clusterId) - 1 <= r.value
      ensures r.Ok? && OriginZoom(clusterId) - 1 < options.maxZoom ==> r.value <= options.maxZoom
    {
      ExpansionBounds(options, trees, Some(clusterId), OriginZoom(clusterId) - 1);
      r := ExpansionLoop(options, trees, clusterId);
    }

    /** `getLeaves(clusterId, limit, offset)`: a page of the source points under a cluster. */
    method GetLeaves(clusterId: int, limit: Option<int>, offset: Option<int>) returns (r: Result<seq<Feature>>)
      requires Valid() && IndexOk(options, trees)
      ensures r == LeafPage(options, trees, clusterId, limit, offset)
      ensures r.Ok? ==> forall j :: 0 <= j < |r.value| ==> r.value[j].PointFeature?
      ensures r.Ok? && LimitOrDefault(limit) >= 1 ==> |r.value| <= LimitOrDefault(limit)
      // once every stored cluster adds up, the page is a slice of the points under the cluster
      ensures TreesAddUp(options, trees) && Children(options, trees, clusterId).Ok? ==>
        LeavesUnder(options, trees, clusterId).Ok? &&
        r == Ok(PageSlice(LeavesUnder(options, trees, clusterId).value, LimitOrDefault(limit), OffsetOrDefault(offset)))
    {
      GetLeavesPaged(options, trees, clusterId, limit, offset);
      if TreesAddUp(options, trees) && Children(options, trees, clusterId).Ok? {
        GetLeavesPage(options, trees, clusterId, limit, offset);
      }
      var leaves := AppendLeaves([], clusterId, LimitOrDefault(limit), OffsetOrDefault(offset), 0);
      if leaves.Err? {
        return Err(leaves.error);
      }
      return Ok(leaves.value.0);
    }

    /** `_appendLeaves(result, clusterId, limit, offset, skipped)`: the pushed-onto result
        and the new skipped count. */
    method AppendLeaves(result: seq<Feature>, clusterId: int, limit: int, offset: int, skipped: int)
      returns (r: Result<(seq<Feature>, int)>)
      requires Valid() && IndexOk(options, trees)
      ensures r == Leaves(options, trees, clusterId, limit, offset, result, skipped)
      decreases Depth(options, trees, clusterId), 1
    {
      var children := GetChildren(clusterId);
      if children.Err? {
        return Err(children.error);
      }
      var ch := children.value;
      var acc, sk := result, skipped;
      var i := 0;
      while i < |ch|
        invariant 0 <= i <= |ch|
        invariant LeavesList(options, trees, clusterId, ch, i, limit, offset, acc, sk)
               == Leaves(options, trees, clusterId, limit, offset, result, skipped)
        decreases |ch| - i
      {
        if ch[i].ClusterFeature? {
          if sk + ch[i].props.pointCount <= offset {
            // all pointCount points under it lie before offset
            sk := sk + ch[i].props.pointCount;
          } else {
            ChildDepth(options, trees, clusterId, ch, i);
            var sub := AppendLeaves(acc, ch[i].props.clusterId, limit, offset, sk);
            if sub.Err? {
              return sub;
            }
            acc, sk := sub.value.0, sub.value.1;
          }
        } else if sk < offset {
          // a point before offset
          sk := sk + 1;
        } else {
          // a point at or after offset goes onto the page
          acc := acc + [ch[i]];
        }
        if |acc| == limit {
          return Ok((acc, sk));
        }
        i := i + 1;
      }
      return Ok((acc, sk));
    }
  }

  /** The body of `getChildren` on the trees of the index. */
  method ChildrenOf(o: Options, trees: map<int, seq<Node>>, clusterId: int) returns (r: Result<seq<Feature>>)
    requires WellFormed(o)
    ensures r == Children(o, trees, clusterId)
  {
    var originId := OriginIndex(clusterId);
    var originZoom := OriginZoom(clusterId);
    if originZoom !in trees {
      return Err(NoCluster);
    }
    var index := trees[originZoom];
    if !(0 <= originId < |index|) {
      return Err(NoCluster);
    }
    r := ChildrenNear(o, trees, clusterId, index);
  }

  /** The range query of `getChildren` around an origin that exists, and the loop over
      its result. */
  method ChildrenNear(o: Options, trees: map<int, seq<Node>>, clusterId: int, index: seq<Node>)
    returns (r: Result<seq<Feature>>)
    requires WellFormed(o) && OriginZoom(clusterId) in trees && index == trees[OriginZoom(clusterId)]
    requires 0 <= OriginIndex(clusterId) < |index|
    ensures r == Children(o, trees, clusterId)
  {
    var origin := index[OriginIndex(clusterId)];
    var radius := MergeRadius(o, OriginZoom(clusterId) - 1);
    var ids := Within(index, origin.x, origin.y, radius);
    var children := CollectChildren(index, ids, clusterId);
    ChildrenAre(o, trees, clusterId, children);
    if |children| == 0 {
      return Err(NoCluster);
    }
    return Ok(children);
  }

  /** The loop of `getClusterExpansionZoom`: follow the only child down one zoom at a time
      until a cluster has several children or maxZoom is reached. */
  method ExpansionLoop(o: Options, trees: map<int, seq<Node>>, clusterId: int) returns (r: Result<int>)
    requires WellFormed(o)
    ensures r == ExpansionZoom(o, trees, clusterId)
  {
    var id: Option<int> := Some(clusterId);
    var clusterZoom := OriginZoom(clusterId) - 1;
    while clusterZoom < o.maxZoom
      invariant ExpansionFrom(o, trees, id, clusterZoom) == ExpansionZoom(o, trees, clusterId)
      decreases o.maxZoom - clusterZoom
    {
      if id.None? {
        return Err(NoCluster);
      }
      var children := ChildrenOf(o, trees, id.value);
      ExpansionStep(o, trees, id, clusterZoom, children);
      if children.Err? {
        return Err(children.error);
      }
      clusterZoom := clusterZoom + 1;
      if |children.value| != 1 {
        return Ok(clusterZoom);
      }
      id := if children.value[0].ClusterFeature? then Some(children.value[0].props.clusterId) else None;
    }
    return Ok(clusterZoom);
  }

  /** One turn of the loop of `getClusterExpansionZoom`, given what `getChildren` returned. */
  lemma ExpansionStep(o: Options, trees: map<int, seq<Node>>, id: Option<int>, clusterZoom: int,
                      children: Result<seq<Feature>>)
    requires WellFormed(o) && clusterZoom < o.maxZoom && id.Some?
    requires children == Children(o, trees, id.value)
    ensures children.Err? ==> ExpansionFrom(o, trees, id, clusterZoom) == Err(children.error)
    ensures children.Ok? && |children.value| != 1 ==> ExpansionFrom(o, trees, id, clusterZoom) == Ok(clusterZoom + 1)
    ensures children.Ok? && |children.value| == 1 ==>
      var only := children.value[0];
      ExpansionFrom(o, trees, id, clusterZoom)
        == ExpansionFrom(o, trees, if only.ClusterFeature? then Some(only.props.clusterId) else None, clusterZoom + 1)
  {
  }

  /** The loop of `getChildren`: the features of the nodes at `ids` whose parent is `parentId`. */
  method CollectChildren(index: seq<Node>, ids: seq<nat>, parentId: int) returns (children: seq<Feature>)
    requires forall j :: 0 <= j < |ids| ==> ids[j] < |index|
    ensures children == FeaturesAt(index, WithParent(index, ids, parentId))
  {
    children := [];
    for i := 0 to |ids|
      invariant children == FeaturesAt(index, WithParent(index, ids[..i], parentId))
    {
      WithParentStep(index, ids, i, parentId);
      var c := index[ids[i]];
      if c.parentId == parentId {
        children := children + [ToFeature(c)];
      }
    }
    assert ids[..|ids|] == ids;
  }

  /** The features `getChildren` collects are the value of `Children`. */
  lemma ChildrenAre(o: Options, trees: map<int, seq<Node>>, clusterId: int, children: seq<Feature>)
    requires WellFormed(o)
    requires OriginZoom(clusterId) in trees
    requires 0 <= OriginIndex(clusterId) < |trees[OriginZoom(clusterId)]|
    requires var t := trees[OriginZoom(clusterId)]; var origin := t[OriginIndex(clusterId)];
      children == FeaturesAt(t, WithParent(t, Within(t, origin.x, origin.y, MergeRadius(o, OriginZoom(clusterId) - 1)), clusterId))
    ensures Children(o, trees, clusterId) == if |children| == 0 then Err(NoCluster) else Ok(children)
  {
  }

  /** One more position filtered by `getChildren`. */
  lemma WithParentStep(t: seq<Node>, ids: seq<nat>, i: int, parentId: int)
    requires forall j :: 0 <= j < |ids| ==> ids[j] < |t|
    requires 0 <= i < |ids|
    ensures FeaturesAt(t, WithParent(t, ids[..i + 1], parentId))
         == FeaturesAt(t, WithParent(t, ids[..i], parentId))
            + (if t[ids[i]].parentId == parentId then [ToFeature(t[ids[i]])] else [])
  {
    assert ids[..i + 1][..i] == ids[..i];
    if t[ids[i]].parentId == parentId {
      var cs := WithParent(t, ids[..i + 1], parentId);
      assert cs[..|cs| - 1] == WithParent(t, ids[..i], parentId);
    }
  }

  /** The body of `load` on values: the leaves of the inputs with a geometry are the tree
      of maxZoom + 1, then each level is clustered into the one below it from maxZoom down
      to minZoom. The trees of an earlier load are overwritten zoom by zoom. */
  method BuildTrees(o: Options, pts: seq<Source>, latY: real -> real, t0: map<int, seq<Node>>)
    returns (t: map<int, seq<Node>>)
    requires WellFormed(o)
    requires forall z :: z in t0 ==> IsLevel(o, z)
    ensures forall z :: z in t <==> IsLevel(o, z)
    ensures o.maxZoom + 1 in t
    ensures LeavesOf(pts, latY, t[o.maxZoom + 1])
    ensures forall z :: z in t ==> SumWeights(t[z]) == |WithGeometry(pts)|
    ensures forall z :: z in t ==> LevelShape(o, pts, t[z], z)
    ensures ConfigOk(o) ==> IndexOk(o, t)
    ensures Decodable(o, |WithGeometry(pts)|) ==> forall z :: z in t ==> AllAddUp(o, t, t[z])
    ensures Decodable(o, |WithGeometry(pts)|) ==>
      forall z :: o.minZoom < z <= o.maxZoom + 1 && z in t ==> Greedy(t[z], MergeRadius(o, z - 1))
    // the tree of each zoom below maxZoom + 1 is the pass at that zoom over the tree one finer
    ensures forall z :: o.minZoom <= z <= o.maxZoom ==> StoredPass(o, t, z)
  {
    var clusters := BuildLeaves(pts, latY);
    BuildStart(o, pts, latY, t0);
    ghost var leaves, count := clusters, |WithGeometry(pts)|;
    var z;
    t, clusters, z := ZoomLoop(o, pts, leaves, count, t0, clusters);
    BuildDone(o, pts, leaves, count, t0, t, clusters, z);
    if Decodable(o, count) {
      HierKeep(o, pts, count, t, clusters, clusters, z);
      GreedyStore(o, t, z + 1, clusters);
    }
    PassLast(o, t, clusters, z, t[z + 1 := clusters]);
    t := t[z + 1 := clusters];
    LeavesOfScratch(pts, latY, t[o.maxZoom + 1]);
    if Decodable(o, count) {
      HierAll(o, pts, latY, t);
    }
  }

  /** The zoom loop of `load`: from maxZoom down to minZoom, cluster the level into the one
      below it and store the marked level. */
  method ZoomLoop(o: Options, ghost pts: seq<Source>, ghost leaves: seq<Node>, ghost count: int,
                  t0: map<int, seq<Node>>, leafLevel: seq<Node>)
    returns (t: map<int, seq<Node>>, clusters: seq<Node>, z: int)
    requires WellFormed(o) && BuildInv(o, pts, leaves, count, t0, t0, leafLevel, o.maxZoom)
    ensures BuildInv(o, pts, leaves, count, t0, t, clusters, z) && z < o.minZoom
    ensures Decodable(o, count) ==> GreedyFrom(o, t, z + 2)
    ensures PassesFrom(o, t, clusters, z)
  {
    t, clusters, z := t0, leafLevel, o.maxZoom;
    while z >= o.minZoom
      invariant BuildInv(o, pts, leaves, count, t0, t, clusters, z)
      invariant Decodable(o, count) ==> GreedyFrom(o, t, z + 2)
      invariant PassesFrom(o, t, clusters, z)
    {
      var stored, next := ClusterLevel(o, pts, leaves, count, t0, t, clusters, z);
      t := t[z + 1 := stored];
      clusters := next;
      z := z - 1;
    }
  }

  /** The first loop of `load`: a leaf node for each input that has a geometry. */
  method BuildLeaves(pts: seq<Source>, latY: real -> real) returns (clusters: seq<Node>)
    ensures clusters == LeafNodes(pts, latY)
  {
    clusters := [];
    for i := 0 to |pts|
      invariant clusters == LeafNodes(pts[..i], latY)
    {
      assert pts[..i + 1][..i] == pts[..i];
      if pts[i].geometry.Some? {
        clusters := clusters + [CreatePointCluster(pts[i], i, latY)];
      }
    }
    assert pts[..|pts|] == pts;
  }

  /** The invariant of the zoom loop of `load` at zoom z: the trees of z + 2 .. maxZoom + 1
      are stored, and `clusters` is the level of z + 1, still unvisited at z. */
  ghost predicate BuildInv(o: Options, pts: seq<Source>, leaves: seq<Node>, count: int,
                           t0: map<int, seq<Node>>, t: map<int, seq<Node>>, clusters: seq<Node>, z: int)
  {
    && z <= o.maxZoom && (z < o.maxZoom ==> o.minZoom <= z + 1)
    && KeysFrom(t0, t, z + 2, o.maxZoom + 1)
    && Stored(o, pts, count, t, z + 2)
    && (z < o.maxZoom ==> o.maxZoom + 1 in t && Scratched(t[o.maxZoom + 1], leaves))
    && Level(o, pts, count, clusters, z)
    && (z == o.maxZoom ==> clusters == leaves)
    && (WellFormed(o) && Decodable(o, count) ==> HierFrom(o, t, z + 2) && AllAddUp(o, t, clusters))
  }

  /** Under the configuration the queries assume, and with fewer than 2^26 points, every
      cluster id `load` makes decodes to the position and zoom it was made from. */
  predicate Decodable(o: Options, count: int) {
    ConfigOk(o) && count < TwoTo31 / 32
  }

  /** The trees stored at lo .. maxZoom + 1 were each clustered greedily by the pass of
      the zoom below, with that zoom's merge radius. */
  ghost predicate GreedyFrom(o: Options, t: map<int, seq<Node>>, lo: int)
    requires WellFormed(o)
  {
    forall z' :: lo <= z' <= o.maxZoom + 1 && z' in t ==> Greedy(t[z'], MergeRadius(o, z' - 1))
  }

  /** Storing a greedy tree at z, or any tree below lo, keeps the stored trees greedy. */
  lemma GreedyStore(o: Options, t: map<int, seq<Node>>, z: int, s: seq<Node>)
    requires WellFormed(o) && GreedyFrom(o, t, z + 1)
    ensures z > o.maxZoom + 1 || Greedy(s, MergeRadius(o, z - 1)) ==> GreedyFrom(o, t[z := s], z)
    ensures GreedyFrom(o, t[z := s], z + 1)
  {
    var t' := t[z := s];
    forall z' | z + 1 <= z' <= o.maxZoom + 1 && z' in t'
      ensures Greedy(t'[z'], MergeRadius(o, z' - 1))
    {
      assert t'[z'] == t[z'];
    }
  }

  /** `coarser` is, up to the scratch fields a later pass writes, what the pass at z
      returns over a level that it leaves marked as `finer`; that pass takes every free
      neighbour of each origin. */
  ghost predicate PassInto(o: Options, finer: seq<Node>, coarser: seq<Node>, z: int)
    requires WellFormed(o)
  {
    exists s0, owner, origin, next ::
      && PassOut(o, s0, finer, owner, next, origin, z)
      && Maximal(s0, owner, origin, z, MergeRadius(o, z))
      && Scratched(coarser, next)
  }

  /** What a pass leaves in the coarser tree: one node per origin, in the order of the
      origins in the finer tree, each either that origin carried over or a new cluster
      with the origin's encoded id that the origin names as its parent. */
  lemma PassOrder(o: Options, finer: seq<Node>, coarser: seq<Node>, z: int) returns (origin: seq<int>)
    requires WellFormed(o) && PassInto(o, finer, coarser, z)
    ensures |origin| == |coarser|
    ensures forall c1, c2 :: 0 <= c1 < c2 < |origin| ==> origin[c1] < origin[c2]
    ensures forall c :: 0 <= c < |origin| ==> 0 <= origin[c] < |finer| && Carried(finer, coarser, origin, c, z)
  {
    var s0, owner, org, next :| && PassOut(o, s0, finer, owner, next, org, z)
      && Maximal(s0, owner, org, z, MergeRadius(o, z)) && Scratched(coarser, next);
    origin := org;
    forall c | 0 <= c < |origin|
      ensures 0 <= origin[c] < |finer| && Carried(finer, coarser, origin, c, z)
    {
      FormedCarried(s0, finer, owner, next, coarser, origin, c, z);
    }
  }

  /** Output c of a pass either carries its origin over or is a new cluster named by it. */
  ghost predicate Carried(finer: seq<Node>, coarser: seq<Node>, origin: seq<int>, c: int, z: int)
    requires 0 <= c < |origin| == |coarser| && 0 <= origin[c] < |finer|
  {
    || (SameButScratch(coarser[c], finer[origin[c]]) && Weight(coarser[c]) == 1)
    || (&& IsCluster(coarser[c]) && Weight(coarser[c]) >= 2 && coarser[c].id == EncodeId(origin[c], z)
        && finer[origin[c]].parentId == coarser[c].id)
  }

  lemma FormedCarried(s0: seq<Node>, finer: seq<Node>, owner: seq<int>, next: seq<Node>,
                      coarser: seq<Node>, origin: seq<int>, c: int, z: int)
    requires |s0| == |finer| == |owner| && |origin| == |next| == |coarser| && 0 <= c < |next|
    requires 0 <= origin[c] < |s0| && Formed(s0, finer, owner, next[c], origin[c], c, z)
    requires SameButScratch(coarser[c], next[c])
    ensures Carried(finer, coarser, origin, c, z)
  {
  }

  /** The tree stored at z is the output of the pass at z over the tree stored at z + 1. */
  ghost predicate StoredPass(o: Options, t: map<int, seq<Node>>, z: int)
    requires WellFormed(o)
  {
    z in t && z + 1 in t && PassInto(o, t[z + 1], t[z], z)
  }

  /** At loop zoom z: each tree stored at z + 2 .. maxZoom came from the pass over the
      tree one finer, and `clusters` is what the pass at z + 1 returned. */
  ghost predicate PassesFrom(o: Options, t: map<int, seq<Node>>, clusters: seq<Node>, z: int)
    requires WellFormed(o)
  {
    && (forall z' :: z + 2 <= z' <= o.maxZoom ==> StoredPass(o, t, z'))
    && (z < o.maxZoom ==> z + 2 in t && PassInto(o, t[z + 2], clusters, z + 1))
  }

  /** The level a pass marked comes out of it. */
  lemma PassNew(o: Options, clusters: seq<Node>, stored: seq<Node>,
                owner: seq<int>, next: seq<Node>, origin: seq<int>, z: int)
    requires WellFormed(o) && PassOut(o, clusters, stored, owner, next, origin, z)
    requires Maximal(clusters, owner, origin, z, MergeRadius(o, z))
    ensures PassInto(o, stored, next, z)
  {
    assert Scratched(next, next);
  }

  /** A pass output marked by the next pass is still that output up to scratch fields. */
  lemma PassMarked(o: Options, finer: seq<Node>, clusters: seq<Node>, stored: seq<Node>, z: int)
    requires WellFormed(o) && PassInto(o, finer, clusters, z)
    requires |stored| == |clusters| && forall k :: 0 <= k < |stored| ==> SameButScratch(stored[k], clusters[k])
    ensures PassInto(o, finer, stored, z)
  {
    var s0, ow, or, nx :| && PassOut(o, s0, finer, ow, nx, or, z)
                          && Maximal(s0, ow, or, z, MergeRadius(o, z))
                          && Scratched(clusters, nx);
    assert Scratched(stored, nx);
  }

  /** Storing the level the pass at z marked: the level it came from is now stored as a
      pass output too, and the pass's own output is the next level. */
  lemma PassStore(o: Options, t: map<int, seq<Node>>, clusters: seq<Node>, stored: seq<Node>,
                  owner: seq<int>, next: seq<Node>, origin: seq<int>, z: int)
    requires WellFormed(o) && z <= o.maxZoom && PassesFrom(o, t, clusters, z)
    requires PassOut(o, clusters, stored, owner, next, origin, z)
    requires Maximal(clusters, owner, origin, z, MergeRadius(o, z))
    ensures PassesFrom(o, t[z + 1 := stored], next, z - 1)
  {
    var t' := t[z + 1 := stored];
    PassNew(o, clusters, stored, owner, next, origin, z);
    assert t'[z + 1] == stored;
    if z < o.maxZoom {
      PassMarked(o, t[z + 2], clusters, stored, z + 1);
      assert StoredPass(o, t', z + 1);
    }
    forall z' | z + 2 <= z' <= o.maxZoom
      ensures StoredPass(o, t', z')
    {
      assert StoredPass(o, t, z');
      assert t'[z'] == t[z'] && t'[z' + 1] == t[z' + 1];
    }
  }

  /** The output of the pass at minZoom stored as the tree of minZoom: every tree of
      minZoom .. maxZoom is the pass output over the tree one finer. */
  lemma PassLast(o: Options, t: map<int, seq<Node>>, clusters: seq<Node>, z: int, t': map<int, seq<Node>>)
    requires WellFormed(o) && PassesFrom(o, t, clusters, z)
    requires z < o.minZoom && z <= o.maxZoom && (z < o.maxZoom ==> o.minZoom <= z + 1)
    requires t' == t[z + 1 := clusters]
    ensures forall z' :: o.minZoom <= z' <= o.maxZoom ==> StoredPass(o, t', z')
  {
    forall z' | o.minZoom <= z' <= o.maxZoom
      ensures StoredPass(o, t', z')
    {
      if z' == z + 1 {
        assert t'[z' + 1] == t[z + 2];
      } else {
        assert StoredPass(o, t, z');
        assert t'[z'] == t[z'] && t'[z' + 1] == t[z' + 1];
      }
    }
  }

  /** Every cluster stored at lo .. maxZoom adds up. */
  ghost predicate HierFrom(o: Options, t: map<int, seq<Node>>, lo: int)
    requires WellFormed(o)
  {
    forall z' :: lo <= z' <= o.maxZoom && z' in t ==> AllAddUp(o, t, t[z'])
  }

  /** The stored zooms are the earlier ones and lo .. hi. */
  ghost predicate KeysFrom(t0: map<int, seq<Node>>, t: map<int, seq<Node>>, lo: int, hi: int) {
    forall z' :: z' in t <==> z' in t0 || lo <= z' <= hi
  }

  /** The trees of lo .. maxZoom + 1 are stored, hold all points and have the node shape. */
  ghost predicate Stored(o: Options, pts: seq<Source>, count: int, t: map<int, seq<Node>>, lo: int) {
    forall z' :: lo <= z' <= o.maxZoom + 1 ==>
      z' in t && SumWeights(t[z']) == count && LevelShape(o, pts, t[z'], z')
  }

  /** The level that the pass at z clusters: all points, node shape of z + 1, unvisited at z. */
  ghost predicate Level(o: Options, pts: seq<Source>, count: int, clusters: seq<Node>, z: int) {
    && SumWeights(clusters) == count && LevelShape(o, pts, clusters, z + 1)
    && (forall k :: 0 <= k < |clusters| ==> !Processed(clusters[k], z) && clusters[k].parentId == NoParent)
  }

  /** The same nodes up to their scratch fields. */
  ghost predicate Scratched(s: seq<Node>, t: seq<Node>) {
    |s| == |t| && forall k :: 0 <= k < |s| ==> SameButScratch(s[k], t[k])
  }

  /** The loop starts with the leaves as the level of maxZoom + 1. */
  lemma BuildStart(o: Options, pts: seq<Source>, latY: real -> real, t0: map<int, seq<Node>>)
    ensures BuildInv(o, pts, LeafNodes(pts, latY), |WithGeometry(pts)|, t0, t0, LeafNodes(pts, latY), o.maxZoom)
  {
    var leaves := LeafNodes(pts, latY);
    LeafShape(o, pts, latY);
    SumWeightsLeaves(leaves);
  }

  /** One turn of the zoom loop: the pass at z over `s0` leaves `s1` and `next`. */
  lemma BuildStep(o: Options, pts: seq<Source>, leaves: seq<Node>, count: int,
                  t0: map<int, seq<Node>>, t: map<int, seq<Node>>, s0: seq<Node>, s1: seq<Node>,
                  next: seq<Node>, z: int)
    requires BuildInv(o, pts, leaves, count, t0, t, s0, z) && z >= o.minZoom
    requires SumWeights(s1) == count && LevelShape(o, pts, s1, z + 1)
    requires Level(o, pts, count, next, z - 1)
    requires z == o.maxZoom ==> Scratched(s1, leaves)
    requires WellFormed(o) && Decodable(o, count) ==>
      HierFrom(o, t[z + 1 := s1], z + 1) && AllAddUp(o, t[z + 1 := s1], next)
    ensures BuildInv(o, pts, leaves, count, t0, t[z + 1 := s1], next, z - 1)
  {
    StoreLevel(o, pts, count, t, s1, z + 1);
    KeysGrow(t0, t, z + 2, o.maxZoom + 1, s1);
    if z < o.maxZoom {
      assert t[z + 1 := s1][o.maxZoom + 1] == t[o.maxZoom + 1];
    }
  }

  /** The pass at z keeps the level's total weight and shape, and its output is the level
      the pass at z - 1 clusters. */
  lemma NextLevel(o: Options, pts: seq<Source>, count: int, s0: seq<Node>, s1: seq<Node>,
                  owner: seq<int>, next: seq<Node>, origin: seq<int>, z: int)
    requires Level(o, pts, count, s0, z) && (ConfigOk(o) ==> 0 <= z <= 30)
    requires |s0| == |s1| == |owner| && |origin| == |next|
    requires forall k :: 0 <= k < |s0| ==> SameButScratch(s1[k], s0[k])
    requires forall k :: 0 <= k < |s0| && !Processed(s0[k], z) ==> s1[k].zoom == Visited(z)
    requires SumWeights(next) == SumFresh(s0, z)
    requires forall c :: 0 <= c < |next| ==> 0 <= origin[c] < |s0|
    requires forall c :: 0 <= c < |next| ==> Formed(s0, s1, owner, next[c], origin[c], c, z)
    ensures SumWeights(s1) == count && LevelShape(o, pts, s1, z + 1)
    ensures Level(o, pts, count, next, z - 1)
  {
    SumFreshAllFresh(s0, z);
    SumWeightsScratch(s1, s0);
    ShapeScratch(o, pts, s0, s1, z + 1);
    NextShape(o, pts, s0, s1, owner, next, origin, z);
  }

  lemma StoreLevel(o: Options, pts: seq<Source>, count: int, t: map<int, seq<Node>>, s: seq<Node>, z: int)
    requires Stored(o, pts, count, t, z + 1)
    requires SumWeights(s) == count && LevelShape(o, pts, s, z)
    ensures Stored(o, pts, count, t[z := s], z)
  {
    var t' := t[z := s];
    forall z' | z <= z' <= o.maxZoom + 1
      ensures z' in t' && SumWeights(t'[z']) == count && LevelShape(o, pts, t'[z'], z')
    {
      if z' != z {
        assert t'[z'] == t[z'];
      }
    }
  }

  lemma KeysGrow(t0: map<int, seq<Node>>, t: map<int, seq<Node>>, lo: int, hi: int, s: seq<Node>)
    requires KeysFrom(t0, t, lo, hi) && lo - 1 <= hi
    ensures KeysFrom(t0, t[lo - 1 := s], lo - 1, hi)
  {
  }

  /** After the loop, the last level is stored at minZoom (or, when the loop did not run,
      the leaves at maxZoom + 1), and every level is stored. */
  lemma BuildDone(o: Options, pts: seq<Source>, leaves: seq<Node>, count: int,
                  t0: map<int, seq<Node>>, t: map<int, seq<Node>>, clusters: seq<Node>, z: int)
    requires BuildInv(o, pts, leaves, count, t0, t, clusters, z) && z < o.minZoom
    requires forall z' :: z' in t0 ==> IsLevel(o, z')
    ensures var t' := t[z + 1 := clusters];
      && (forall z' :: z' in t' <==> IsLevel(o, z'))
      && o.maxZoom + 1 in t'
      && Scratched(t'[o.maxZoom + 1], leaves)
      && (forall z' :: z' in t' ==> SumWeights(t'[z']) == count)
      && (forall z' :: z' in t' ==> LevelShape(o, pts, t'[z'], z'))
      && (ConfigOk(o) ==> IndexOk(o, t'))
  {
    var t' := t[z + 1 := clusters];
    if z < o.maxZoom {
      assert t'[o.maxZoom + 1] == t[o.maxZoom + 1];
    }
    forall z' ensures z' in t' <==> IsLevel(o, z') {
    }
    forall z' | z' in t'
      ensures SumWeights(t'[z']) == count && LevelShape(o, pts, t'[z'], z')
    {
      if z' != z + 1 {
        assert z + 2 <= z' <= o.maxZoom + 1;
        assert t'[z'] == t[z'];
      }
    }
    if ConfigOk(o) {
      ShapeIndexOk(o, pts, t');
    }
  }

  /** The finest tree: the leaves of the inputs with a geometry, up to scratch fields. */
  ghost predicate LeavesOf(pts: seq<Source>, latY: real -> real, ns: seq<Node>) {
    && |ns| == |WithGeometry(pts)|
    && forall k :: 0 <= k < |ns| ==>
         SameButScratch(ns[k], CreatePointCluster(pts[WithGeometry(pts)[k]], WithGeometry(pts)[k], latY))
  }

  lemma LeavesOfScratch(pts: seq<Source>, latY: real -> real, ns: seq<Node>)
    requires Scratched(ns, LeafNodes(pts, latY))
    ensures LeavesOf(pts, latY, ns)
  {
  }

  /** The shape of a level only depends on the fields a pass does not change. */
  lemma ShapeScratch(o: Options, pts: seq<Source>, s: seq<Node>, t: seq<Node>, level: int)
    requires |s| == |t| && LevelShape(o, pts, s, level)
    requires forall k :: 0 <= k < |s| ==> SameButScratch(t[k], s[k])
    ensures LevelShape(o, pts, t, level)
  {
    forall k | 0 <= k < |t|
      ensures NodeShape(o, pts, t[k], level)
    {
      assert NodeShape(o, pts, s[k], level);
    }
  }

  /** A pass at zoom z over a level of leaves and clusters yields leaves carried over and
      new clusters whose ids name z + 1, all of them unvisited at zoom z - 1. */
  lemma NextShape(o: Options, pts: seq<Source>, s0: seq<Node>, s1: seq<Node>, owner: seq<int>,
                  next: seq<Node>, origin: seq<int>, z: int)
    requires |s0| == |s1| == |owner| && |origin| == |next|
    requires ConfigOk(o) ==> 0 <= z <= 30
    requires LevelShape(o, pts, s0, z + 1)
    requires forall k :: 0 <= k < |s0| ==> SameButScratch(s1[k], s0[k])
    requires forall k :: 0 <= k < |s0| && !Processed(s0[k], z) ==> s1[k].zoom == Visited(z)
    requires forall k :: 0 <= k < |s0| ==> !Processed(s0[k], z) && s0[k].parentId == NoParent
    requires forall c :: 0 <= c < |next| ==> 0 <= origin[c] < |s0|
    requires forall c :: 0 <= c < |next| ==> Formed(s0, s1, owner, next[c], origin[c], c, z)
    ensures LevelShape(o, pts, next, z)
    ensures forall c :: 0 <= c < |next| ==> !Processed(next[c], z - 1) && next[c].parentId == NoParent
  {
    forall c | 0 <= c < |next|
      ensures NodeShape(o, pts, next[c], z) && !Processed(next[c], z - 1) && next[c].parentId == NoParent
    {
      var i := origin[c];
      assert NodeShape(o, pts, s0[i], z + 1);
      if next[c] == s1[i] && Weight(next[c]) == 1 {
      } else {
        if ConfigOk(o) {
          OriginZoomOfEncoded(i, z);
        }
      }
    }
  }

  /** The node shapes of every stored level give the index property the queries use. */
  lemma ShapeIndexOk(o: Options, pts: seq<Source>, trees: map<int, seq<Node>>)
    requires ConfigOk(o)
    requires forall z :: z in trees <==> IsLevel(o, z)
    requires forall z :: z in trees ==> LevelShape(o, pts, trees[z], z)
    ensures IndexOk(o, trees)
  {
    forall z, k | z in trees && 0 <= k < |trees[z]| && IsCluster(trees[z][k])
      ensures OriginZoom(trees[z][k].id) == z + 1 || OriginZoom(trees[z][k].id) !in trees
    {
      assert NodeShape(o, pts, trees[z][k], z);
    }
  }

  /** Leaves built from the inputs have the node shape of any level. */
  lemma LeafShape(o: Options, pts: seq<Source>, latY: real -> real)
    ensures forall level :: LevelShape(o, pts, LeafNodes(pts, latY), level)
    ensures forall k :: 0 <= k < |LeafNodes(pts, latY)| ==> !IsCluster(LeafNodes(pts, latY)[k])
  {
  }

  /** One turn of the zoom loop keeps the clusters stored so far adding up: the level
      marked by the pass at z, stored at z + 1, and the trees stored earlier, since the ids
      of their clusters name other zooms. */
  lemma HierKeep(o: Options, pts: seq<Source>, count: int, t: map<int, seq<Node>>,
                 s0: seq<Node>, s1: seq<Node>, z: int)
    requires WellFormed(o) && Decodable(o, count) && 0 <= z + 1 && z <= o.maxZoom
    requires Stored(o, pts, count, t, z + 2) && LevelShape(o, pts, s0, z + 1)
    requires HierFrom(o, t, z + 2) && AllAddUp(o, t, s0)
    requires |s0| == |s1| && forall k :: 0 <= k < |s0| ==> SameButScratch(s1[k], s0[k])
    ensures HierFrom(o, t[z + 1 := s1], z + 1)
  {
    LevelFrame(o, pts, t, z + 1, s1, z + 1, s0);
    ScratchAddUp(o, t[z + 1 := s1], s0, s1);
    HierFrame(o, pts, count, t, z + 1, s1);
  }

  /** The clusters made by the pass at z have their children, as many points as they
      stand for, in the marked level stored at z + 1. */
  lemma HierNew(o: Options, pts: seq<Source>, count: int, t: map<int, seq<Node>>,
                s0: seq<Node>, s1: seq<Node>, owner: seq<int>, next: seq<Node>, origin: seq<int>, z: int)
    requires WellFormed(o) && Decodable(o, count) && o.minZoom <= z <= o.maxZoom
    requires Level(o, pts, count, s0, z) && PassOut(o, s0, s1, owner, next, origin, z)
    requires z + 1 in t && t[z + 1] == s1
    ensures AllAddUp(o, t, next)
  {
    SizeBelowWeights(s0);
    forall k | 0 <= k < |s0| && IsCluster(s0[k])
      ensures Weight(s0[k]) >= 2
    {
      assert NodeShape(o, pts, s0[k], z + 1);
    }
    forall c | 0 <= c < |next|
      ensures ChildrenAddUp(o, t, next[c])
    {
      PassChildren(o, t, s0, s1, owner, next, origin, z, c);
    }
  }

  /** Storing a tree at z >= 0 keeps a level of another zoom adding up: the ids of its
      clusters name the zoom below it. */
  lemma LevelFrame(o: Options, pts: seq<Source>, t: map<int, seq<Node>>, z: int, s: seq<Node>,
                   level: int, ns: seq<Node>)
    requires WellFormed(o) && ConfigOk(o) && 0 <= z && level + 1 != z
    requires LevelShape(o, pts, ns, level) && AllAddUp(o, t, ns)
    ensures AllAddUp(o, t[z := s], ns)
  {
    forall k | 0 <= k < |ns|
      ensures ChildrenAddUp(o, t[z := s], ns[k])
    {
      assert NodeShape(o, pts, ns[k], level) && ChildrenAddUp(o, t, ns[k]);
      AddUpFrame(o, t, z, s, ns[k]);
    }
  }

  /** Storing a tree at z - 1 keeps the levels stored at z + 1 .. maxZoom adding up. */
  lemma HierFrame(o: Options, pts: seq<Source>, count: int, t: map<int, seq<Node>>, z: int, s: seq<Node>)
    requires WellFormed(o) && ConfigOk(o) && 0 <= z
    requires Stored(o, pts, count, t, z + 1) && HierFrom(o, t, z + 1)
    ensures HierFrom(o, t[z := s], z + 1)
  {
    var t' := t[z := s];
    forall z' | z + 1 <= z' <= o.maxZoom && z' in t'
      ensures AllAddUp(o, t', t'[z'])
    {
      assert t'[z'] == t[z'];
      LevelFrame(o, pts, t, z, s, z', t[z']);
    }
  }

  /** Once every level is stored, every cluster of every tree adds up. */
  lemma HierAll(o: Options, pts: seq<Source>, latY: real -> real, t: map<int, seq<Node>>)
    requires WellFormed(o) && (forall z :: z in t <==> IsLevel(o, z))
    requires HierFrom(o, t, o.minZoom) && o.maxZoom + 1 in t && LeavesOf(pts, latY, t[o.maxZoom + 1])
    ensures forall z :: z in t ==> AllAddUp(o, t, t[z])
  {
    LeavesAddUp(o, pts, latY, t, t[o.maxZoom + 1]);
  }

  /** The finest tree holds no cluster. */
  lemma LeavesAddUp(o: Options, pts: seq<Source>, latY: real -> real, t: map<int, seq<Node>>, ns: seq<Node>)
    requires WellFormed(o) && LeavesOf(pts, latY, ns)
    ensures AllAddUp(o, t, ns)
  {
    forall k | 0 <= k < |ns|
      ensures !IsCluster(ns[k])
    {
      var i := WithGeometry(pts)[k];
      assert SameButScratch(ns[k], CreatePointCluster(pts[i], i, latY));
    }
  }
}
