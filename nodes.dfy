/** The records the engine stores in its per-zoom trees, the features it hands out,
    and the two spatial queries of the kd-tree, specified as filters. */
module Nodes {
  import opened Wrappers
  import opened ClusterIds

  /** `zoom` of a node: the last zoom it was processed at, `Infinity` before that. */
  datatype ZoomMark = Unvisited | Visited(level: int)

  /** One indexed node: a source point (numPoints absent) or a cluster.
      x and y are the projected coordinates. */
  datatype Node = Node(x: real, y: real, zoom: ZoomMark, id: int, parentId: int, numPoints: Option<nat>)

  /** `parentId: -1`, the node has not been merged into a cluster. */
  const NoParent: int := -1

  /** A source feature of the input array; only its geometry matters to the engine. */
  datatype Coord = Coord(lng: real, lat: real)
  datatype Source = Source(geometry: Option<Coord>)

  /** The numeric options the core reads. */
  datatype Options = Options(minZoom: int, maxZoom: int, radius: real, extent: real)

  /** The default options. */
  const DefaultOptions: Options := Options(0, 16, 200.0, 512.0)

  /** The numeric options a caller passes to the constructor; None for a key left out. */
  datatype GivenOptions = GivenOptions(minZoom: Option<int>, maxZoom: Option<int>, radius: Option<real>, extent: Option<real>)

  /** `{...this.options, ...options}`: each option the caller gives replaces the default. */
  function MergeOptions(g: GivenOptions): Options {
    Options(if g.minZoom.Some? then g.minZoom.value else DefaultOptions.minZoom,
            if g.maxZoom.Some? then g.maxZoom.value else DefaultOptions.maxZoom,
            if g.radius.Some? then g.radius.value else DefaultOptions.radius,
            if g.extent.Some? then g.extent.value else DefaultOptions.extent)
  }

  /** Giving nothing keeps the defaults, giving everything replaces them, and the defaults
      are a radius of 200 pixels over a tile of 512 for the zooms 0 .. 16. */
  lemma MergeExtremes(minZoom: int, maxZoom: int, radius: real, extent: real)
    ensures MergeOptions(GivenOptions(None, None, None, None)) == DefaultOptions
    ensures WellFormed(DefaultOptions) && DefaultOptions.minZoom == 0 && DefaultOptions.maxZoom == 16
    ensures MergeOptions(GivenOptions(Some(minZoom), Some(maxZoom), Some(radius), Some(extent)))
         == Options(minZoom, maxZoom, radius, extent)
  {
  }

  /** A radius of zero or more pixels over a tile of positive size. */
  predicate WellFormed(o: Options) {
    o.radius >= 0.0 && o.extent > 0.0
  }

  /** `p.zoom <= zoom`: the node was already visited at this zoom or a finer one. */
  predicate Processed(n: Node, zoom: int) {
    n.zoom.Visited? && n.zoom.level <= zoom
  }

  /** `c.numPoints ? ... : ...`: the node is tested as a cluster by every query. */
  predicate IsCluster(n: Node) {
    n.numPoints.Some? && n.numPoints.value != 0
  }

  /** `p.numPoints || 1`: the number of source points a node stands for. */
  function Weight(n: Node): (w: nat)
    ensures w >= 1
    ensures !IsCluster(n) ==> w == 1
    ensures IsCluster(n) ==> w == n.numPoints.value
  {
    if IsCluster(n) then n.numPoints.value else 1
  }

  /** `lngX`: longitude to the projected x in [0, 1] for longitudes in [-180, 180]. */
  function LngX(lng: real): (x: real)
    ensures -180.0 <= lng <= 180.0 ==> 0.0 <= x <= 1.0
    ensures lng == (x - 0.5) * 360.0
  {
    lng / 360.0 + 0.5
  }

  /** `createPointCluster(p, i)`: a leaf node for source i; latY is the latitude projection. */
  function CreatePointCluster(p: Source, i: int, latY: real -> real): (n: Node)
    requires p.geometry.Some?
    ensures !IsCluster(n) && Weight(n) == 1
    ensures forall z :: !Processed(n, z)
    ensures n.id == i && n.parentId == NoParent
    ensures n.x == LngX(p.geometry.value.lng) && n.y == latY(p.geometry.value.lat)
  {
    Node(LngX(p.geometry.value.lng), latY(p.geometry.value.lat), Unvisited, i, NoParent, None)
  }

  /** `createCluster(x, y, id, numPoints, properties)`, reduced properties left out. */
  function CreateCluster(x: real, y: real, id: int, numPoints: nat): (n: Node)
    requires numPoints >= 1
    ensures IsCluster(n) && Weight(n) == numPoints
    ensures forall z :: !Processed(n, z)
    ensures n.id == id && n.parentId == NoParent && n.x == x && n.y == y
  {
    Node(x, y, Unvisited, id, NoParent, Some(numPoints))
  }

  /** `_limitZoom`: the zoom clamped into [minZoom, maxZoom + 1]. */
  function LimitZoom(o: Options, z: int): (r: int)
    ensures o.minZoom <= o.maxZoom + 1 ==> o.minZoom <= r <= o.maxZoom + 1
    ensures o.minZoom <= z <= o.maxZoom + 1 ==> r == z
    ensures z > o.maxZoom + 1 && o.minZoom <= o.maxZoom + 1 ==> r == o.maxZoom + 1
    ensures z < o.minZoom || o.minZoom > o.maxZoom + 1 ==> r == o.minZoom
  {
    var upper := if z < o.maxZoom + 1 then z else o.maxZoom + 1;
    if o.minZoom > upper then o.minZoom else upper
  }

  function Pow2Nat(n: nat): (r: nat)
    ensures r >= 1
  {
    if n == 0 then 1 else 2 * Pow2Nat(n - 1)
  }

  /** `Math.pow(2, e)` for an integer exponent. */
  function Pow2(e: int): (r: real)
    ensures r > 0.0
  {
    if e >= 0 then Pow2Nat(e) as real else 1.0 / (Pow2Nat(-e) as real)
  }

  /** `radius / (extent * Math.pow(2, zoom))`: the merge radius in projected units. */
  function MergeRadius(o: Options, zoom: int): (r: real)
    requires WellFormed(o)
    ensures r >= 0.0
  {
    o.radius / (o.extent * Pow2(zoom))
  }

  lemma {:induction false} Pow2Step(e: int)
    ensures Pow2(e + 1) == 2.0 * Pow2(e)
  {
    if e >= 0 {
      assert Pow2Nat(e + 1) == 2 * Pow2Nat(e);
    } else if e == -1 {
      assert Pow2Nat(1) == 2;
    } else {
      assert Pow2Nat(-e) == 2 * Pow2Nat(-e - 1);
    }
  }

  lemma HalfOfDoubled(num: real, e: real, p: real, q: real)
    requires e > 0.0 && p > 0.0 && q == 2.0 * p
    ensures 2.0 * (num / (e * q)) == num / (e * p)
  {
    var d := e * p;
    assert e * q == 2.0 * d;
    var h := num / (2.0 * d);
    assert h * (2.0 * d) == num;
  }

  /** The merge radius halves with every zoom level. */
  lemma MergeRadiusHalves(o: Options, zoom: int)
    requires WellFormed(o)
    ensures 2.0 * MergeRadius(o, zoom + 1) == MergeRadius(o, zoom)
  {
    Pow2Step(zoom);
    HalfOfDoubled(o.radius, o.extent, Pow2(zoom), Pow2(zoom + 1));
  }

  /** `within(x, y, r)` of kdbush keeps the points with squared distance <= r * r. */
  predicate InDisk(n: Node, cx: real, cy: real, r: real) {
    (n.x - cx) * (n.x - cx) + (n.y - cy) * (n.y - cy) <= r * r
  }

  /** The positions of the tree whose points lie within r of (cx, cy), ascending. */
  function Within(nodes: seq<Node>, cx: real, cy: real, r: real): (ids: seq<nat>)
    ensures forall j :: 0 <= j < |ids| ==> ids[j] < |nodes| && InDisk(nodes[ids[j]], cx, cy, r)
    ensures forall k {:trigger k in ids} :: 0 <= k < |nodes| && InDisk(nodes[k], cx, cy, r) ==> k in ids
    ensures forall j1, j2 :: 0 <= j1 < j2 < |ids| ==> ids[j1] < ids[j2]
    decreases |nodes|
  {
    if |nodes| == 0 then []
    else
      var rest := Within(nodes[..|nodes| - 1], cx, cy, r);
      if InDisk(nodes[|nodes| - 1], cx, cy, r) then rest + [|nodes| - 1] else rest
  }

  /** `range(minX, minY, maxX, maxY)` of kdbush keeps the points in the closed box. */
  predicate InBox(n: Node, minX: real, minY: real, maxX: real, maxY: real) {
    minX <= n.x <= maxX && minY <= n.y <= maxY
  }

  /** The positions of the tree whose points lie in the box, ascending. */
  function Range(nodes: seq<Node>, minX: real, minY: real, maxX: real, maxY: real): (ids: seq<nat>)
    ensures forall j :: 0 <= j < |ids| ==> ids[j] < |nodes| && InBox(nodes[ids[j]], minX, minY, maxX, maxY)
    ensures forall k {:trigger k in ids} :: 0 <= k < |nodes| && InBox(nodes[k], minX, minY, maxX, maxY) ==> k in ids
    ensures forall j1, j2 :: 0 <= j1 < j2 < |ids| ==> ids[j1] < ids[j2]
    decreases |nodes|
  {
    if |nodes| == 0 then []
    else
      var rest := Range(nodes[..|nodes| - 1], minX, minY, maxX, maxY);
      if InBox(nodes[|nodes| - 1], minX, minY, maxX, maxY) then rest + [|nodes| - 1] else rest
  }

  /** `pointCountBeauty`: the count, tenths of thousands, or whole thousands. */
  datatype Abbrev = Count(n: int) | TenthsK(tenths: int) | ThousandsK(k: int)

  /** The abbreviation of a point count: `Math.round(count / 1000) + 'k'` from 10000,
      `Math.round(count / 100) / 10 + 'k'` from 1000 (kept as a count of tenths), else the count. */
  function Abbreviate(count: int): (a: Abbrev)
    ensures count >= 10000 ==> a.ThousandsK? && count - 500 < a.k * 1000 <= count + 500
    ensures 1000 <= count < 10000 ==> a.TenthsK? && count - 50 < a.tenths * 100 <= count + 50
    ensures count < 1000 ==> a == Count(count)
  {
    if count >= 10000 then ThousandsK((count + 500) / 1000)
    else if count >= 1000 then TenthsK((count + 50) / 100)
    else Count(count)
  }

  /** The properties `getClusterProperties` attaches to a cluster, reduced ones left out. */
  datatype ClusterProps = ClusterProps(clusterId: int, pointCount: int, pointCountBeauty: Abbrev)

  /** A returned feature: a cluster (`cluster: true` in its properties) at projected
      coordinates, or the source feature at index `index` of the input array. */
  datatype Feature = ClusterFeature(props: ClusterProps, x: real, y: real) | PointFeature(index: int)

  /** `getClusterProperties(cluster)`. */
  function ClusterProperties(n: Node): (p: ClusterProps)
    requires IsCluster(n)
    ensures p.clusterId == n.id && p.pointCount == Weight(n)
    ensures p.pointCountBeauty == Abbreviate(Weight(n))
  {
    var count := n.numPoints.value;
    ClusterProps(n.id, count, Abbreviate(count))
  }

  /** `c.numPoints ? getClusterJSON(c) : this.points[c.id]`. */
  function ToFeature(n: Node): (f: Feature)
    ensures f.ClusterFeature? <==> IsCluster(n)
    ensures f.ClusterFeature? ==> f.props.clusterId == n.id && f.props.pointCount == Weight(n)
    ensures f.PointFeature? ==> f.index == n.id
  {
    if IsCluster(n) then ClusterFeature(ClusterProperties(n), n.x, n.y) else PointFeature(n.id)
  }

  /** The total number of source points the nodes stand for. */
  function SumWeights(s: seq<Node>): int
    decreases |s|
  {
    if |s| == 0 then 0 else SumWeights(s[..|s| - 1]) + Weight(s[|s| - 1])
  }

  /** The weight of a node when it is still to be processed at `zoom`, else 0. */
  function FreshWeight(n: Node, zoom: int): nat {
    if Processed(n, zoom) then 0 else Weight(n)
  }

  /** The number of source points still to be processed at `zoom`. */
  function SumFresh(s: seq<Node>, zoom: int): int
    decreases |s|
  {
    if |s| == 0 then 0 else SumFresh(s[..|s| - 1], zoom) + FreshWeight(s[|s| - 1], zoom)
  }

  /** Replacing one node changes the unprocessed total by the difference of the two. */
  lemma {:induction false} SumFreshUpdate(s: seq<Node>, k: int, n: Node, zoom: int)
    requires 0 <= k < |s|
    ensures SumFresh(s[k := n], zoom) == SumFresh(s, zoom) - FreshWeight(s[k], zoom) + FreshWeight(n, zoom)
    decreases |s|
  {
    var t := s[k := n];
    if k < |s| - 1 {
      assert t[..|t| - 1] == s[..|s| - 1][k := n];
      SumFreshUpdate(s[..|s| - 1], k, n, zoom);
    } else {
      assert t[..|t| - 1] == s[..|s| - 1];
    }
  }

  /** When no node is processed yet, the unprocessed total is the total weight. */
  lemma {:induction false} SumFreshAllFresh(s: seq<Node>, zoom: int)
    requires forall k :: 0 <= k < |s| ==> !Processed(s[k], zoom)
    ensures SumFresh(s, zoom) == SumWeights(s)
    decreases |s|
  {
    if |s| > 0 {
      SumFreshAllFresh(s[..|s| - 1], zoom);
    }
  }

  /** The unprocessed total is 0 once every node is processed. */
  lemma {:induction false} SumFreshAllProcessed(s: seq<Node>, zoom: int)
    requires forall k :: 0 <= k < |s| ==> Processed(s[k], zoom)
    ensures SumFresh(s, zoom) == 0
    decreases |s|
  {
    if |s| > 0 {
      SumFreshAllProcessed(s[..|s| - 1], zoom);
    }
  }

  /** Nodes that differ only in their scratch fields `zoom` and `parentId`. */
  predicate SameButScratch(n: Node, m: Node) {
    n.x == m.x && n.y == m.y && n.id == m.id && n.numPoints == m.numPoints
  }

  /** Sequences of the same nodes up to their scratch fields have the same total weight. */
  lemma {:induction false} SumWeightsScratch(s: seq<Node>, t: seq<Node>)
    requires |s| == |t|
    requires forall k :: 0 <= k < |s| ==> SameButScratch(s[k], t[k])
    ensures SumWeights(s) == SumWeights(t)
    decreases |s|
  {
    if |s| > 0 {
      SumWeightsScratch(s[..|s| - 1], t[..|t| - 1]);
    }
  }

  /** Leaves each stand for one point. */
  lemma {:induction false} SumWeightsLeaves(s: seq<Node>)
    requires forall k :: 0 <= k < |s| ==> !IsCluster(s[k])
    ensures SumWeights(s) == |s|
    decreases |s|
  {
    if |s| > 0 {
      SumWeightsLeaves(s[..|s| - 1]);
    }
  }
}
