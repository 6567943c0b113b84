/** What the queries of the engine return, as functions of the stored trees. */
module Queries {
  import opened Wrappers
  import opened ClusterIds
  import opened Nodes

  /** The configurations whose cluster ids keep their zoom in the low 5 bits:
      0 <= minZoom <= maxZoom and maxZoom + 1 <= 31. */
  predicate ConfigOk(o: Options) {
    0 <= o.minZoom <= o.maxZoom <= 30
  }

  /** What the queries rely on: every stored zoom lies in 0 .. maxZoom + 1 and every
      cluster of the tree at z has its children in the tree at z + 1, or in no tree. */
  predicate IndexOk(o: Options, trees: map<int, seq<Node>>) {
    && ConfigOk(o)
    && (forall z :: z in trees ==> 0 <= z <= o.maxZoom + 1)
    && (forall z, k :: z in trees && 0 <= k < |trees[z]| && IsCluster(trees[z][k]) ==>
          OriginZoom(trees[z][k].id) == z + 1 || OriginZoom(trees[z][k].id) !in trees)
  }

  /** The features of the nodes at positions `ids` of a tree, in that order. */
  function FeaturesAt(t: seq<Node>, ids: seq<nat>): (fs: seq<Feature>)
    requires forall j :: 0 <= j < |ids| ==> ids[j] < |t|
    ensures |fs| == |ids|
    ensures forall j :: 0 <= j < |ids| ==> fs[j] == ToFeature(t[ids[j]])
    decreases |ids|
  {
    if |ids| == 0 then []
    else FeaturesAt(t, ids[..|ids| - 1]) + [ToFeature(t[ids[|ids| - 1]])]
  }

  /** The positions among `ids` whose node names `parentId` as its parent. */
  function WithParent(t: seq<Node>, ids: seq<nat>, parentId: int): (cs: seq<nat>)
    requires forall j :: 0 <= j < |ids| ==> ids[j] < |t|
    ensures forall m :: 0 <= m < |cs| ==> cs[m] < |t| && t[cs[m]].parentId == parentId && cs[m] in ids
    ensures forall j :: 0 <= j < |ids| && t[ids[j]].parentId == parentId ==> ids[j] in cs
    decreases |ids|
  {
    if |ids| == 0 then []
    else
      var rest := WithParent(t, ids[..|ids| - 1], parentId);
      if t[ids[|ids| - 1]].parentId == parentId then rest + [ids[|ids| - 1]] else rest
  }

  /** Node k of the tree at the id's origin zoom is a child of the cluster `id`: it lies
      within the merge radius of that zoom around the origin node and names id as parent. */
  predicate IsChildAt(o: Options, trees: map<int, seq<Node>>, id: int, k: int)
    requires WellFormed(o)
  {
    var z := OriginZoom(id);
    var i := OriginIndex(id);
    && z in trees && 0 <= i < |trees[z]| && 0 <= k < |trees[z]|
    && InDisk(trees[z][k], trees[z][i].x, trees[z][i].y, MergeRadius(o, z - 1))
    && trees[z][k].parentId == id
  }

  /** `getChildren(clusterId)`: the features of the children of the cluster, in tree order,
      or the "No cluster with the specified id." error when the origin zoom has no tree, the
      origin index holds no node, or nothing names the cluster as parent. */
  function Children(o: Options, trees: map<int, seq<Node>>, clusterId: int): (r: Result<seq<Feature>>)
    requires WellFormed(o)
    ensures r.Err? ==> r.error == NoCluster
    ensures r.Ok? ==> |r.value| >= 1
  {
    var z := OriginZoom(clusterId);
    var i := OriginIndex(clusterId);
    if z !in trees then Err(NoCluster)
    else
      var t := trees[z];
      if !(0 <= i < |t|) then Err(NoCluster)
      else
        var ids := Within(t, t[i].x, t[i].y, MergeRadius(o, z - 1));
        var cs := WithParent(t, ids, clusterId);
        if |cs| == 0 then Err(NoCluster) else Ok(FeaturesAt(t, cs))
  }

  /** `getChildren` throws, or returns a non-empty list holding exactly the features of the
      nodes that lie within the merge radius of the origin and name the cluster as parent. */
  lemma ChildrenSpec(o: Options, trees: map<int, seq<Node>>, clusterId: int)
    requires WellFormed(o)
    ensures var r := Children(o, trees, clusterId);
      && (r.Ok? <==> exists k :: IsChildAt(o, trees, clusterId, k))
      && (r.Ok? ==> forall j :: 0 <= j < |r.value| ==>
            exists k :: IsChildAt(o, trees, clusterId, k) && r.value[j] == ToFeature(trees[OriginZoom(clusterId)][k]))
      && (r.Ok? ==> forall k :: IsChildAt(o, trees, clusterId, k) ==>
            ToFeature(trees[OriginZoom(clusterId)][k]) in r.value)
  {
    var r := Children(o, trees, clusterId);
    forall k | IsChildAt(o, trees, clusterId, k)
      ensures r.Ok? && ToFeature(trees[OriginZoom(clusterId)][k]) in r.value
    {
      ChildFound(o, trees, clusterId, k);
    }
    if r.Ok? {
      forall j | 0 <= j < |r.value|
        ensures exists k :: IsChildAt(o, trees, clusterId, k) && r.value[j] == ToFeature(trees[OriginZoom(clusterId)][k])
      {
        var k := ChildWitness(o, trees, clusterId, j);
      }
      var k := ChildWitness(o, trees, clusterId, 0);
    }
  }

  /** The node behind the j-th child returned. */
  lemma ChildWitness(o: Options, trees: map<int, seq<Node>>, clusterId: int, j: int) returns (k: int)
    requires WellFormed(o)
    requires Children(o, trees, clusterId).Ok? && 0 <= j < |Children(o, trees, clusterId).value|
    ensures IsChildAt(o, trees, clusterId, k)
    ensures Children(o, trees, clusterId).value[j] == ToFeature(trees[OriginZoom(clusterId)][k])
  {
    var z := OriginZoom(clusterId);
    var i := OriginIndex(clusterId);
    var t := trees[z];
    var ids := Within(t, t[i].x, t[i].y, MergeRadius(o, z - 1));
    var cs := WithParent(t, ids, clusterId);
    assert Children(o, trees, clusterId) == Ok(FeaturesAt(t, cs));
    k := cs[j];
    assert k in ids;
    var j' :| 0 <= j' < |ids| && ids[j'] == k;
    assert InDisk(t[k], t[i].x, t[i].y, MergeRadius(o, z - 1));
  }

  /** Every child is found. */
  lemma ChildFound(o: Options, trees: map<int, seq<Node>>, clusterId: int, k: int)
    requires WellFormed(o) && IsChildAt(o, trees, clusterId, k)
    ensures Children(o, trees, clusterId).Ok?
    ensures ToFeature(trees[OriginZoom(clusterId)][k]) in Children(o, trees, clusterId).value
  {
    var z := OriginZoom(clusterId);
    var i := OriginIndex(clusterId);
    var t := trees[z];
    var ids := Within(t, t[i].x, t[i].y, MergeRadius(o, z - 1));
    var cs := WithParent(t, ids, clusterId);
    assert k in ids;
    var j :| 0 <= j < |ids| && ids[j] == k;
    assert k in cs;
    var m :| 0 <= m < |cs| && cs[m] == k;
    assert Children(o, trees, clusterId) == Ok(FeaturesAt(t, cs));
    assert FeaturesAt(t, cs)[m] == ToFeature(t[k]);
  }

  // ---------------------------------------------------------------- getClusterExpansionZoom

  /** The loop of `getClusterExpansionZoom` from `clusterZoom` with the current id: stop at
      maxZoom, otherwise count one zoom per `getChildren` and follow a sole child. A sole
      child that is a source point has no `clusterId` (None) and the next `getChildren` throws. */
  function ExpansionFrom(o: Options, trees: map<int, seq<Node>>, id: Option<int>, clusterZoom: int): (r: Result<int>)
    requires WellFormed(o)
    decreases o.maxZoom - clusterZoom
  {
    if clusterZoom >= o.maxZoom then Ok(clusterZoom)
    else if id.None? then Err(NoCluster)
    else
      var children := Children(o, trees, id.value);
      if children.Err? then Err(children.error)
      else if |children.value| != 1 then Ok(clusterZoom + 1)
      else
        var only := children.value[0];
        ExpansionFrom(o, trees, if only.ClusterFeature? then Some(only.props.clusterId) else None, clusterZoom + 1)
  }

  /** `getClusterExpansionZoom(clusterId)`, starting from `clusterId % 32 - 1`. */
  function ExpansionZoom(o: Options, trees: map<int, seq<Node>>, clusterId: int): Result<int>
    requires WellFormed(o)
  {
    ExpansionFrom(o, trees, Some(clusterId), OriginZoom(clusterId) - 1)
  }

  /** The loop stops: its result is at least the start, above it when the loop runs, and
      never above maxZoom unless the start already is. */
  lemma {:induction false} ExpansionBounds(o: Options, trees: map<int, seq<Node>>, id: Option<int>, clusterZoom: int)
    requires WellFormed(o)
    ensures var r := ExpansionFrom(o, trees, id, clusterZoom);
      && (r.Ok? ==> clusterZoom <= r.value)
      && (r.Ok? && clusterZoom < o.maxZoom ==> clusterZoom < r.value <= o.maxZoom)
      && (r.Ok? && clusterZoom >= o.maxZoom ==> r.value == clusterZoom)
    decreases o.maxZoom - clusterZoom
  {
    if clusterZoom < o.maxZoom && id.Some? {
      var children := Children(o, trees, id.value);
      if children.Ok? && |children.value| == 1 {
        var only := children.value[0];
        ExpansionBounds(o, trees, if only.ClusterFeature? then Some(only.props.clusterId) else None, clusterZoom + 1);
      }
    }
  }

  /** A cluster that has several children expands at the zoom just below its children's. */
  lemma ExpansionOfSplit(o: Options, trees: map<int, seq<Node>>, clusterId: int)
    requires WellFormed(o) && OriginZoom(clusterId) - 1 < o.maxZoom
    requires Children(o, trees, clusterId).Ok? && |Children(o, trees, clusterId).value| != 1
    ensures ExpansionZoom(o, trees, clusterId) == Ok(OriginZoom(clusterId))
  {
  }

  // ---------------------------------------------------------------- getLeaves

  /** How many levels lie below the tree a cluster's children are in; 0 for ids whose
      origin zoom holds no tree. */
  function Depth(o: Options, trees: map<int, seq<Node>>, id: int): (d: nat)
    requires IndexOk(o, trees)
    ensures OriginZoom(id) in trees ==> d >= 1
  {
    if OriginZoom(id) in trees then o.maxZoom + 2 - OriginZoom(id) else 0
  }

  /** A cluster among the children of a cluster lies one level deeper. */
  lemma ChildDepth(o: Options, trees: map<int, seq<Node>>, parent: int, ch: seq<Feature>, i: int)
    requires WellFormed(o) && IndexOk(o, trees)
    requires Children(o, trees, parent) == Ok(ch) && 0 <= i < |ch| && ch[i].ClusterFeature?
    ensures Depth(o, trees, ch[i].props.clusterId) < Depth(o, trees, parent)
  {
    var z := OriginZoom(parent);
    var k := ChildWitness(o, trees, parent, i);
    assert IsCluster(trees[z][k]);
  }

  /** A cluster among the children of a cluster stands for at least one point. */
  lemma ChildPointCount(o: Options, trees: map<int, seq<Node>>, parent: int, ch: seq<Feature>, i: int)
    requires WellFormed(o)
    requires Children(o, trees, parent) == Ok(ch) && 0 <= i < |ch| && ch[i].ClusterFeature?
    ensures ch[i].props.pointCount >= 1
  {
    var k := ChildWitness(o, trees, parent, i);
  }

  /** `limit = limit || 10`. */
  function LimitOrDefault(limit: Option<int>): (l: int)
    ensures limit.None? || limit.value == 0 ==> l == 10
    ensures limit.Some? && limit.value != 0 ==> l == limit.value
  {
    if limit.None? || limit.value == 0 then 10 else limit.value
  }

  /** `offset = offset || 0`. */
  function OffsetOrDefault(offset: Option<int>): (n: int)
    ensures offset.None? ==> n == 0
    ensures offset.Some? ==> n == offset.value
  {
    if offset.None? then 0 else offset.value
  }

  /** `_appendLeaves(result, clusterId, limit, offset, skipped)`: the leaves pushed onto
      `acc` and the new count of skipped points, or the error of a `getChildren`. */
  function Leaves(o: Options, trees: map<int, seq<Node>>, clusterId: int, limit: int, offset: int,
                  acc: seq<Feature>, skipped: int): Result<(seq<Feature>, int)>
    requires WellFormed(o) && IndexOk(o, trees)
    decreases Depth(o, trees, clusterId), 1
  {
    var children := Children(o, trees, clusterId);
    if children.Err? then Err(children.error)
    else LeavesList(o, trees, clusterId, children.value, 0, limit, offset, acc, skipped)
  }

  /** The loop of `_appendLeaves` over `children[i..]`. */
  function LeavesList(o: Options, trees: map<int, seq<Node>>, parent: int, children: seq<Feature>, i: int,
                      limit: int, offset: int, acc: seq<Feature>, skipped: int): Result<(seq<Feature>, int)>
    requires WellFormed(o) && IndexOk(o, trees)
    requires Children(o, trees, parent) == Ok(children) && 0 <= i <= |children|
    decreases Depth(o, trees, parent), 0, |children| - i
  {
    if i == |children| then Ok((acc, skipped))
    else
      var step := LeafStep(o, trees, parent, children, i, limit, offset, acc, skipped);
      if step.Err? || |step.value.0| == limit then step
      else LeavesList(o, trees, parent, children, i + 1, limit, offset, step.value.0, step.value.1)
  }

  /** One child in the loop of `_appendLeaves`: skip or enter a cluster, skip or add a point. */
  function LeafStep(o: Options, trees: map<int, seq<Node>>, parent: int, children: seq<Feature>, i: int,
                    limit: int, offset: int, acc: seq<Feature>, skipped: int): Result<(seq<Feature>, int)>
    requires WellFormed(o) && IndexOk(o, trees)
    requires Children(o, trees, parent) == Ok(children) && 0 <= i < |children|
    decreases Depth(o, trees, parent), 0, |children| - i, 0
  {
    var f := children[i];
    if f.ClusterFeature? then
      if skipped + f.props.pointCount <= offset then Ok((acc, skipped + f.props.pointCount))
      else
        ChildDepth(o, trees, parent, children, i);
        Leaves(o, trees, f.props.clusterId, limit, offset, acc, skipped)
    else if skipped < offset then Ok((acc, skipped + 1))
    else Ok((acc + [f], skipped))
  }

  /** `getLeaves(clusterId, limit, offset)` with the defaults for missing arguments. */
  function LeafPage(o: Options, trees: map<int, seq<Node>>, clusterId: int,
                     limit: Option<int>, offset: Option<int>): Result<seq<Feature>>
    requires WellFormed(o) && IndexOk(o, trees)
  {
    var r := Leaves(o, trees, clusterId, LimitOrDefault(limit), OffsetOrDefault(offset), [], 0);
    if r.Err? then Err(r.error) else Ok(r.value.0)
  }

  /** What one call of `_appendLeaves` does to its accumulators: it only appends source
      points, never pushes past `limit`, only counts skipped points up, never skips past
      `offset`, and appends nothing before `offset` points are skipped. */
  predicate Paged(acc: seq<Feature>, skipped: int, limit: int, offset: int, r: Result<(seq<Feature>, int)>) {
    r.Ok? ==>
      var (res, sk) := r.value;
      && acc <= res
      && (forall j :: |acc| <= j < |res| ==> res[j].PointFeature?)
      && (|acc| < limit ==> |res| <= limit)
      && skipped <= sk
      && (skipped <= offset ==> sk <= offset)
      && (|res| > |acc| ==> sk >= offset)
  }

  lemma {:induction false} LeavesPaged(o: Options, trees: map<int, seq<Node>>, clusterId: int,
                                       limit: int, offset: int, acc: seq<Feature>, skipped: int)
    requires WellFormed(o) && IndexOk(o, trees)
    ensures Paged(acc, skipped, limit, offset, Leaves(o, trees, clusterId, limit, offset, acc, skipped))
    decreases Depth(o, trees, clusterId), 1
  {
    var children := Children(o, trees, clusterId);
    if children.Ok? {
      LeavesListPaged(o, trees, clusterId, children.value, 0, limit, offset, acc, skipped);
    }
  }

  lemma {:induction false} LeavesListPaged(o: Options, trees: map<int, seq<Node>>, parent: int, children: seq<Feature>,
                                           i: int, limit: int, offset: int, acc: seq<Feature>, skipped: int)
    requires WellFormed(o) && IndexOk(o, trees)
    requires Children(o, trees, parent) == Ok(children) && 0 <= i <= |children|
    ensures Paged(acc, skipped, limit, offset, LeavesList(o, trees, parent, children, i, limit, offset, acc, skipped))
    decreases Depth(o, trees, parent), 0, |children| - i
  {
    if i < |children| {
      var step := LeafStep(o, trees, parent, children, i, limit, offset, acc, skipped);
      LeafStepPaged(o, trees, parent, children, i, limit, offset, acc, skipped);
      if step.Ok? && |step.value.0| != limit {
        var r := LeavesList(o, trees, parent, children, i + 1, limit, offset, step.value.0, step.value.1);
        LeavesListPaged(o, trees, parent, children, i + 1, limit, offset, step.value.0, step.value.1);
        PagedTrans(acc, skipped, step.value.0, step.value.1, limit, offset, r);
      }
    }
  }

  lemma {:induction false} LeafStepPaged(o: Options, trees: map<int, seq<Node>>, parent: int, children: seq<Feature>,
                                         i: int, limit: int, offset: int, acc: seq<Feature>, skipped: int)
    requires WellFormed(o) && IndexOk(o, trees)
    requires Children(o, trees, parent) == Ok(children) && 0 <= i < |children|
    ensures Paged(acc, skipped, limit, offset, LeafStep(o, trees, parent, children, i, limit, offset, acc, skipped))
    decreases Depth(o, trees, parent), 0, |children| - i, 0
  {
    var f := children[i];
    if f.ClusterFeature? {
      ChildPointCount(o, trees, parent, children, i);
      if skipped + f.props.pointCount > offset {
        ChildDepth(o, trees, parent, children, i);
        LeavesPaged(o, trees, f.props.clusterId, limit, offset, acc, skipped);
      }
    }
  }

  /** Two calls in a row, the first stopping short of `limit`, page like one. */
  lemma PagedTrans(acc: seq<Feature>, skipped: int, acc2: seq<Feature>, skipped2: int,
                   limit: int, offset: int, r: Result<(seq<Feature>, int)>)
    requires Paged(acc, skipped, limit, offset, Ok((acc2, skipped2))) && |acc2| != limit
    requires Paged(acc2, skipped2, limit, offset, r)
    ensures Paged(acc, skipped, limit, offset, r)
  {
    if r.Ok? && |r.value.0| > |acc| && |acc2| == |acc| {
      assert acc2 == acc;
    }
  }

  /** `getLeaves` returns source points only, at most `limit` of them for a positive
      limit (10 when it is missing or 0), none of them before `offset` points (0 when it
      is missing) were skipped. */
  lemma GetLeavesPaged(o: Options, trees: map<int, seq<Node>>, clusterId: int, limit: Option<int>, offset: Option<int>)
    requires WellFormed(o) && IndexOk(o, trees)
    ensures var r := LeafPage(o, trees, clusterId, limit, offset);
      && (r.Ok? ==> forall j :: 0 <= j < |r.value| ==> r.value[j].PointFeature?)
      && (r.Ok? && LimitOrDefault(limit) >= 1 ==> |r.value| <= LimitOrDefault(limit))
      && (r.Ok? && |r.value| > 0 ==>
            var l := Leaves(o, trees, clusterId, LimitOrDefault(limit), OffsetOrDefault(offset), [], 0);
            l.value.1 >= OffsetOrDefault(offset))
  {
    LeavesPaged(o, trees, clusterId, LimitOrDefault(limit), OffsetOrDefault(offset), [], 0);
  }

  // ---------------------------------------------------------------- getClusters

  /** `[westLng, southLat, eastLng, northLat]`. */
  datatype BBox = BBox(west: real, south: real, east: real, north: real)

  /** Node k of the tree lies in the projected box of `bbox`. */
  predicate InBBoxAt(t: seq<Node>, latY: real -> real, b: BBox, k: int) {
    0 <= k < |t| && InBox(t[k], LngX(b.west), latY(b.north), LngX(b.east), latY(b.south))
  }

  /** The non-crossing part of `getClusters`: the features of the nodes of the tree at the
      limited zoom inside the projected box, in tree order; reading a tree that was never
      built fails. */
  function ClustersIn(o: Options, trees: map<int, seq<Node>>, latY: real -> real, b: BBox, zoom: int): (r: Result<seq<Feature>>)
    ensures r.Ok? <==> LimitZoom(o, zoom) in trees
    ensures r.Err? ==> r.error == MissingTree
  {
    var z := LimitZoom(o, zoom);
    if z !in trees then Err(MissingTree)
    else
      var t := trees[z];
      Ok(FeaturesAt(t, Range(t, LngX(b.west), latY(b.north), LngX(b.east), latY(b.south))))
  }

  /** The box query returns exactly the features of the nodes in the box. */
  lemma ClustersInSpec(o: Options, trees: map<int, seq<Node>>, latY: real -> real, b: BBox, zoom: int)
    ensures var r := ClustersIn(o, trees, latY, b, zoom); var z := LimitZoom(o, zoom);
      && (r.Ok? ==> forall j :: 0 <= j < |r.value| ==>
            exists k :: InBBoxAt(trees[z], latY, b, k) && r.value[j] == ToFeature(trees[z][k]))
      && (r.Ok? ==> forall k :: InBBoxAt(trees[z], latY, b, k) ==> ToFeature(trees[z][k]) in r.value)
  {
    var z := LimitZoom(o, zoom);
    if z in trees {
      var t := trees[z];
      var ids := Range(t, LngX(b.west), latY(b.north), LngX(b.east), latY(b.south));
      var fs := FeaturesAt(t, ids);
      assert ClustersIn(o, trees, latY, b, zoom) == Ok(fs);
      forall j | 0 <= j < |fs|
        ensures exists k :: InBBoxAt(t, latY, b, k) && fs[j] == ToFeature(t[k])
      {
        assert InBBoxAt(t, latY, b, ids[j]);
      }
      forall k | InBBoxAt(t, latY, b, k)
        ensures ToFeature(t[k]) in fs
      {
        assert k in ids;
        var j :| 0 <= j < |ids| && ids[j] == k;
        assert fs[j] == ToFeature(t[k]);
      }
    }
  }

  /** `easternHem.concat(westernHem)`, the first failure winning. */
  function Concat(east: Result<seq<Feature>>, west: Result<seq<Feature>>): (r: Result<seq<Feature>>)
    ensures r.Ok? <==> east.Ok? && west.Ok?
    ensures r.Ok? ==> r.value == east.value + west.value
    ensures east.Err? ==> r == east
  {
    if east.Err? then east else if west.Err? then west else Ok(east.value + west.value)
  }

  /** The box east of `west` up to the antimeridian, and the box west of `east` from it. */
  function EastPart(b: BBox): BBox { BBox(b.west, b.south, 180.0, b.north) }
  function WestPart(b: BBox): BBox { BBox(-180.0, b.south, b.east, b.north) }

  /** `getClusters(bbox, zoom)` as intended: a box crossing the antimeridian
      (west > east) is queried as its eastern part followed by its western part. */
  function ClustersInBBox(o: Options, trees: map<int, seq<Node>>, latY: real -> real, b: BBox, zoom: int): Result<seq<Feature>>
  {
    if b.west > b.east then Concat(ClustersIn(o, trees, latY, EastPart(b), zoom), ClustersIn(o, trees, latY, WestPart(b), zoom))
    else ClustersIn(o, trees, latY, b, zoom)
  }

  /** A box crossing the antimeridian returns exactly the features of the nodes in its
      eastern or its western part (a box that does not cross is `ClustersIn` itself, whose
      contents `ClustersInSpec` states). */
  lemma GetClustersCrossing(o: Options, trees: map<int, seq<Node>>, latY: real -> real, b: BBox, zoom: int)
    requires b.west > b.east
    ensures var r := ClustersInBBox(o, trees, latY, b, zoom); var z := LimitZoom(o, zoom);
      && (r.Ok? <==> z in trees)
      && (r.Ok? ==> FromParts(trees[z], latY, b, r.value))
      && (r.Ok? ==> forall k :: InPartAt(trees[z], latY, b, k) ==> ToFeature(trees[z][k]) in r.value)
  {
    var z := LimitZoom(o, zoom);
    var e := ClustersIn(o, trees, latY, EastPart(b), zoom);
    var w := ClustersIn(o, trees, latY, WestPart(b), zoom);
    if z in trees {
      CrossingSound(o, trees, latY, b, zoom);
      CrossingComplete(o, trees, latY, b, zoom);
    }
  }

  /** Node k lies in the eastern or the western part of the box. */
  predicate InPartAt(t: seq<Node>, latY: real -> real, b: BBox, k: int) {
    InBBoxAt(t, latY, EastPart(b), k) || InBBoxAt(t, latY, WestPart(b), k)
  }

  /** Every feature is that of a node in one of the two parts of the box. */
  ghost predicate FromParts(t: seq<Node>, latY: real -> real, b: BBox, fs: seq<Feature>) {
    forall j :: 0 <= j < |fs| ==> exists k :: InPartAt(t, latY, b, k) && fs[j] == ToFeature(t[k])
  }

  lemma CrossingSound(o: Options, trees: map<int, seq<Node>>, latY: real -> real, b: BBox, zoom: int)
    requires b.west > b.east && LimitZoom(o, zoom) in trees
    ensures FromParts(trees[LimitZoom(o, zoom)], latY, b, ClustersInBBox(o, trees, latY, b, zoom).value)
  {
    var z := LimitZoom(o, zoom);
    var t := trees[z];
    var e := ClustersIn(o, trees, latY, EastPart(b), zoom);
    var w := ClustersIn(o, trees, latY, WestPart(b), zoom);
    var r := ClustersInBBox(o, trees, latY, b, zoom);
    assert r.value == e.value + w.value;
    forall j | 0 <= j < |r.value|
      ensures exists k :: InPartAt(t, latY, b, k) && r.value[j] == ToFeature(t[k])
    {
      if j < |e.value| {
        assert r.value[j] == e.value[j];
        var k := ClustersInWitness(o, trees, latY, EastPart(b), zoom, j);
        assert InPartAt(t, latY, b, k) && r.value[j] == ToFeature(t[k]);
      } else {
        assert r.value[j] == w.value[j - |e.value|];
        var k := ClustersInWitness(o, trees, latY, WestPart(b), zoom, j - |e.value|);
        assert InPartAt(t, latY, b, k) && r.value[j] == ToFeature(t[k]);
      }
    }
    assert forall j :: 0 <= j < |r.value| ==> exists k :: InPartAt(t, latY, b, k) && r.value[j] == ToFeature(t[k]);
    assert FromParts(t, latY, b, r.value);
  }

  /** The node behind the j-th feature of a box query. */
  lemma ClustersInWitness(o: Options, trees: map<int, seq<Node>>, latY: real -> real, b: BBox, zoom: int, j: int)
    returns (k: int)
    requires LimitZoom(o, zoom) in trees
    requires 0 <= j < |ClustersIn(o, trees, latY, b, zoom).value|
    ensures InBBoxAt(trees[LimitZoom(o, zoom)], latY, b, k)
    ensures ClustersIn(o, trees, latY, b, zoom).value[j] == ToFeature(trees[LimitZoom(o, zoom)][k])
  {
    var t := trees[LimitZoom(o, zoom)];
    var ids := Range(t, LngX(b.west), latY(b.north), LngX(b.east), latY(b.south));
    k := ids[j];
  }

  lemma CrossingComplete(o: Options, trees: map<int, seq<Node>>, latY: real -> real, b: BBox, zoom: int)
    requires b.west > b.east && LimitZoom(o, zoom) in trees
    ensures var r := ClustersInBBox(o, trees, latY, b, zoom); var z := LimitZoom(o, zoom);
      forall k :: InPartAt(trees[z], latY, b, k) ==> ToFeature(trees[z][k]) in r.value
  {
    var z := LimitZoom(o, zoom);
    var t := trees[z];
    var e := ClustersIn(o, trees, latY, EastPart(b), zoom);
    var w := ClustersIn(o, trees, latY, WestPart(b), zoom);
    var r := ClustersInBBox(o, trees, latY, b, zoom);
    assert r.value == e.value + w.value;
    ClustersInSpec(o, trees, latY, EastPart(b), zoom);
    ClustersInSpec(o, trees, latY, WestPart(b), zoom);
  }

  /** `getClusters` as written: it calls itself on both parts of a crossing box, so each
      call needs one unit of `fuel`; None stands for a call that never returns. */
  function ClustersAsWritten(o: Options, trees: map<int, seq<Node>>, latY: real -> real, b: BBox, zoom: int,
                             fuel: nat): Option<Result<seq<Feature>>>
    decreases fuel
  {
    if fuel == 0 then None
    else if b.west > b.east then
      var east := ClustersAsWritten(o, trees, latY, EastPart(b), zoom, fuel - 1);
      if east.None? then None
      else if east.value.Err? then east
      else
        var west := ClustersAsWritten(o, trees, latY, WestPart(b), zoom, fuel - 1);
        if west.None? then None else Some(Concat(east.value, west.value))
    else Some(ClustersIn(o, trees, latY, b, zoom))
  }

  /** With `west` above 180 the eastern part is the same kind of box again: no amount of
      recursion returns. */
  lemma {:induction false} AsWrittenDivergesEast(o: Options, trees: map<int, seq<Node>>, latY: real -> real,
                                                 b: BBox, zoom: int, fuel: nat)
    requires b.west > 180.0 && b.west > b.east
    ensures ClustersAsWritten(o, trees, latY, b, zoom, fuel).None?
    decreases fuel
  {
    if fuel > 0 {
      AsWrittenDivergesEast(o, trees, latY, EastPart(b), zoom, fuel - 1);
    }
  }

  /** With `east` below -180 the western part is the same kind of box again. */
  lemma {:induction false} AsWrittenDivergesWest(o: Options, trees: map<int, seq<Node>>, latY: real -> real,
                                                 b: BBox, zoom: int, fuel: nat)
    requires b.east < -180.0 && b.west > b.east && LimitZoom(o, zoom) in trees
    ensures ClustersAsWritten(o, trees, latY, b, zoom, fuel).None?
    decreases fuel
  {
    if fuel > 0 {
      if EastPart(b).west > 180.0 {
        AsWrittenDivergesEast(o, trees, latY, EastPart(b), zoom, fuel - 1);
      } else {
        AsWrittenDivergesWest(o, trees, latY, WestPart(b), zoom, fuel - 1);
      }
    }
  }

  /** A concrete box the recursion never returns for: [200, 0, 100, 10]. */
  lemma AsWrittenDivergesExample(o: Options, trees: map<int, seq<Node>>, latY: real -> real, zoom: int, fuel: nat)
    ensures ClustersAsWritten(o, trees, latY, BBox(200.0, 0.0, 100.0, 10.0), zoom, fuel).None?
  {
    AsWrittenDivergesEast(o, trees, latY, BBox(200.0, 0.0, 100.0, 10.0), zoom, fuel);
  }

  /** For longitudes in [-180, 180] the recursion returns after one split, with the
      intended result. */
  lemma AsWrittenAgrees(o: Options, trees: map<int, seq<Node>>, latY: real -> real, b: BBox, zoom: int, fuel: nat)
    requires b.west <= 180.0 && b.east >= -180.0 && fuel >= 2
    ensures ClustersAsWritten(o, trees, latY, b, zoom, fuel) == Some(ClustersInBBox(o, trees, latY, b, zoom))
  {
  }
}
