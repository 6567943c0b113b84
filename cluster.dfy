/** One clustering pass, `_cluster(points, zoom)`: it walks the node array of zoom + 1,
    marks nodes as visited in place, and returns the node list of `zoom`. */
module Clustering {
  import opened Wrappers
  import opened ClusterIds
  import opened Nodes

  /** The number of source points of the nodes that `owner` assigns to output c. */
  function SumOwned(s: seq<Node>, owner: seq<int>, c: int): int
    requires |owner| == |s|
    decreases |s|
  {
    if |s| == 0 then 0
    else SumOwned(s[..|s| - 1], owner[..|s| - 1], c) + (if owner[|s| - 1] == c then Weight(s[|s| - 1]) else 0)
  }

  /** The sum of f over the nodes that `owner` assigns to output c. */
  function SumOwnedBy(s: seq<Node>, owner: seq<int>, c: int, f: Node -> real): real
    requires |owner| == |s|
    decreases |s|
  {
    if |s| == 0 then 0.0
    else SumOwnedBy(s[..|s| - 1], owner[..|s| - 1], c, f) + (if owner[|s| - 1] == c then f(s[|s| - 1]) else 0.0)
  }

  /** `p.x * numPoints`, the weighted x coordinate. */
  function WeightedX(n: Node): real {
    n.x * (Weight(n) as real)
  }

  /** `p.y * numPoints`, the weighted y coordinate. */
  function WeightedY(n: Node): real {
    n.y * (Weight(n) as real)
  }

  lemma WeightedScratch(n: Node, m: Node)
    requires SameButScratch(n, m)
    ensures Weight(n) == Weight(m) && WeightedX(n) == WeightedX(m) && WeightedY(n) == WeightedY(m)
  {
  }

  /** Reassigning one node changes the owned count of c by that node's weight. */
  lemma {:induction false} SumOwnedUpdate(s: seq<Node>, owner: seq<int>, k: int, d: int, c: int)
    requires |owner| == |s| && 0 <= k < |s|
    ensures SumOwned(s, owner[k := d], c)
         == SumOwned(s, owner, c) - (if owner[k] == c then Weight(s[k]) else 0) + (if d == c then Weight(s[k]) else 0)
    decreases |s|
  {
    var o := owner[k := d];
    if k < |s| - 1 {
      assert o[..|s| - 1] == owner[..|s| - 1][k := d];
      SumOwnedUpdate(s[..|s| - 1], owner[..|s| - 1], k, d, c);
    } else {
      assert o[..|s| - 1] == owner[..|s| - 1];
    }
  }

  /** The same for any per-node quantity f. */
  lemma {:induction false} SumOwnedByUpdate(s: seq<Node>, owner: seq<int>, k: int, d: int, c: int, f: Node -> real)
    requires |owner| == |s| && 0 <= k < |s|
    ensures SumOwnedBy(s, owner[k := d], c, f)
         == SumOwnedBy(s, owner, c, f) - (if owner[k] == c then f(s[k]) else 0.0) + (if d == c then f(s[k]) else 0.0)
    decreases |s|
  {
    var o := owner[k := d];
    if k < |s| - 1 {
      assert o[..|s| - 1] == owner[..|s| - 1][k := d];
      SumOwnedByUpdate(s[..|s| - 1], owner[..|s| - 1], k, d, c, f);
    } else {
      assert o[..|s| - 1] == owner[..|s| - 1];
    }
  }

  /** Owned sums of c only depend on which nodes are assigned to c. */
  lemma {:induction false} SumOwnedFrame(s: seq<Node>, o1: seq<int>, o2: seq<int>, c: int)
    requires |o1| == |s| && |o2| == |s|
    requires forall k :: 0 <= k < |s| ==> (o1[k] == c <==> o2[k] == c)
    ensures SumOwned(s, o1, c) == SumOwned(s, o2, c)
    ensures SumOwnedBy(s, o1, c, WeightedX) == SumOwnedBy(s, o2, c, WeightedX)
    ensures SumOwnedBy(s, o1, c, WeightedY) == SumOwnedBy(s, o2, c, WeightedY)
    decreases |s|
  {
    if |s| > 0 {
      SumOwnedFrame(s[..|s| - 1], o1[..|s| - 1], o2[..|s| - 1], c);
    }
  }

  /** Nothing assigned to c: the owned sums are zero. */
  lemma {:induction false} SumOwnedNone(s: seq<Node>, owner: seq<int>, c: int)
    requires |owner| == |s|
    requires forall k :: 0 <= k < |s| ==> owner[k] != c
    ensures SumOwned(s, owner, c) == 0
    ensures SumOwnedBy(s, owner, c, WeightedX) == 0.0
    ensures SumOwnedBy(s, owner, c, WeightedY) == 0.0
    decreases |s|
  {
    if |s| > 0 {
      SumOwnedNone(s[..|s| - 1], owner[..|s| - 1], c);
    }
  }

  /** Output c of a pass, formed at origin position i = origin[c], is either the origin node
      carried forward unchanged (it absorbed nothing and stands for one point), or a new
      cluster at the weighted centre of its members whose id encodes i and zoom, which the
      origin node now names as its parent. */
  ghost predicate Formed(s0: seq<Node>, s1: seq<Node>, owner: seq<int>, out: Node, i: int, c: int, zoom: int)
    requires |s0| == |s1| == |owner| && 0 <= i < |s0|
  {
    var w := SumOwned(s0, owner, c);
    && Weight(out) == w
    && (|| (&& out == s1[i] && s1[i].parentId == s0[i].parentId && w == 1
            && (forall k :: 0 <= k < |owner| && owner[k] == c ==> k == i))
        || (&& w >= 2 && s1[i].parentId == EncodeId(i, zoom)
            && out == CreateCluster(CentreX(s0, owner, c), CentreY(s0, owner, c), EncodeId(i, zoom), w)))
  }

  /** `wx / numPoints`: the point-weighted mean x of the nodes assigned to c. */
  function CentreX(s0: seq<Node>, owner: seq<int>, c: int): real
    requires |owner| == |s0|
  {
    var w := SumOwned(s0, owner, c);
    if w == 0 then 0.0 else SumOwnedBy(s0, owner, c, WeightedX) / (w as real)
  }

  /** `wy / numPoints`: the point-weighted mean y of the nodes assigned to c. */
  function CentreY(s0: seq<Node>, owner: seq<int>, c: int): real
    requires |owner| == |s0|
  {
    var w := SumOwned(s0, owner, c);
    if w == 0 then 0.0 else SumOwnedBy(s0, owner, c, WeightedY) / (w as real)
  }

  /** Assigning a node not yet assigned to c adds its weight and weighted coordinates. */
  lemma AssignStep(s0: seq<Node>, owner0: seq<int>, k: int, c: int)
    requires |owner0| == |s0| && 0 <= k < |s0| && owner0[k] != c
    ensures SumOwned(s0, owner0[k := c], c) == SumOwned(s0, owner0, c) + Weight(s0[k])
    ensures SumOwnedBy(s0, owner0[k := c], c, WeightedX) == SumOwnedBy(s0, owner0, c, WeightedX) + WeightedX(s0[k])
    ensures SumOwnedBy(s0, owner0[k := c], c, WeightedY) == SumOwnedBy(s0, owner0, c, WeightedY) + WeightedY(s0[k])
  {
    SumOwnedUpdate(s0, owner0, k, c, c);
    SumOwnedByUpdate(s0, owner0, k, c, c, WeightedX);
    SumOwnedByUpdate(s0, owner0, k, c, c, WeightedY);
  }

  /** The body of the neighbour loop for a neighbour b = a[k] not yet visited at `zoom`:
      `b.zoom = zoom`, `b.parentId = id`, and its weight and weighted coordinates are added. */
  method AbsorbOne(a: array<Node>, k: int, zoom: int, id: int, c: int,
                   ghost s0: seq<Node>, ghost owner0: seq<int>,
                   numPoints0: int, wx0: real, wy0: real)
    returns (numPoints: int, wx: real, wy: real, ghost owner: seq<int>)
    requires |s0| == a.Length && |owner0| == a.Length && 0 <= k < a.Length
    requires SameButScratch(a[k], s0[k]) && !Processed(a[k], zoom) && owner0[k] != c
    modifies a
    ensures a[..] == old(a[..])[k := old(a[k]).(zoom := Visited(zoom), parentId := id)]
    ensures owner == owner0[k := c]
    ensures numPoints == numPoints0 + Weight(s0[k]) > numPoints0
    ensures SumOwned(s0, owner, c) == SumOwned(s0, owner0, c) + Weight(s0[k])
    ensures wx == wx0 + WeightedX(s0[k]) && SumOwnedBy(s0, owner, c, WeightedX) == SumOwnedBy(s0, owner0, c, WeightedX) + WeightedX(s0[k])
    ensures wy == wy0 + WeightedY(s0[k]) && SumOwnedBy(s0, owner, c, WeightedY) == SumOwnedBy(s0, owner0, c, WeightedY) + WeightedY(s0[k])
    ensures SumFresh(a[..], zoom) == SumFresh(old(a[..]), zoom) - Weight(s0[k])
  {
    var b := a[k];
    var nb := b.(zoom := Visited(zoom), parentId := id);
    SumFreshUpdate(a[..], k, nb, zoom);
    a[k] := nb; // Processed at zoom from now on: no later output can take it
    var w := Weight(b);
    WeightedScratch(b, s0[k]);
    AssignStep(s0, owner0, k, c);
    owner := owner0[k := c];
    wx := wx0 + WeightedX(b);
    wy := wy0 + WeightedY(b);
    numPoints := numPoints0 + w;
  }

  /** The neighbour loop of `_cluster`: every listed neighbour not yet visited at `zoom`
      is marked, gets `parentId := id`, is assigned to output c and adds its weight and
      weighted coordinates to the accumulators. */
  method Absorb(a: array<Node>, nbrs: seq<nat>, zoom: int, id: int, c: int,
                ghost s0: seq<Node>, ghost owner0: seq<int>,
                numPoints0: int, wx0: real, wy0: real)
    returns (numPoints: int, wx: real, wy: real, ghost owner: seq<int>)
    requires |s0| == a.Length && |owner0| == a.Length
    requires forall j :: 0 <= j < |nbrs| ==> nbrs[j] < a.Length
    requires forall k :: 0 <= k < a.Length ==> SameButScratch(a[k], s0[k])
    requires forall k :: 0 <= k < a.Length && !Processed(a[k], zoom) ==> owner0[k] != c
    modifies a
    ensures |owner| == a.Length
    ensures forall k :: 0 <= k < a.Length ==>
      if !Processed(old(a[k]), zoom) && k in nbrs
      then a[k] == old(a[k]).(zoom := Visited(zoom), parentId := id) && owner[k] == c
      else a[k] == old(a[k]) && owner[k] == owner0[k]
    ensures numPoints == numPoints0 + SumOwned(s0, owner, c) - SumOwned(s0, owner0, c)
    ensures wx == wx0 + SumOwnedBy(s0, owner, c, WeightedX) - SumOwnedBy(s0, owner0, c, WeightedX)
    ensures wy == wy0 + SumOwnedBy(s0, owner, c, WeightedY) - SumOwnedBy(s0, owner0, c, WeightedY)
    ensures numPoints >= numPoints0
    ensures numPoints == numPoints0 ==> a[..] == old(a[..]) && owner == owner0
    ensures SumFresh(a[..], zoom) == SumFresh(old(a[..]), zoom) - (numPoints - numPoints0)
  {
    numPoints, wx, wy, owner := numPoints0, wx0, wy0, owner0;
    var j := 0;
    while j < |nbrs|
      invariant 0 <= j <= |nbrs|
      invariant |owner| == a.Length
      invariant forall k :: 0 <= k < a.Length ==> SameButScratch(a[k], s0[k])
      invariant forall k :: 0 <= k < a.Length ==>
        if !Processed(old(a[k]), zoom) && k in nbrs[..j]
        then a[k] == old(a[k]).(zoom := Visited(zoom), parentId := id) && owner[k] == c
        else a[k] == old(a[k]) && owner[k] == owner0[k]
      invariant numPoints == numPoints0 + SumOwned(s0, owner, c) - SumOwned(s0, owner0, c)
      invariant wx == wx0 + SumOwnedBy(s0, owner, c, WeightedX) - SumOwnedBy(s0, owner0, c, WeightedX)
      invariant wy == wy0 + SumOwnedBy(s0, owner, c, WeightedY) - SumOwnedBy(s0, owner0, c, WeightedY)
      invariant numPoints >= numPoints0
      invariant numPoints == numPoints0 ==> a[..] == old(a[..]) && owner == owner0
      invariant SumFresh(a[..], zoom) == SumFresh(old(a[..]), zoom) - (numPoints - numPoints0)
    {
      var k := nbrs[j];
      assert nbrs[..j + 1] == nbrs[..j] + [k];
      // a neighbour an earlier output took, or one the pass skips, keeps its owner
      if !Processed(a[k], zoom) {
        numPoints, wx, wy, owner := AbsorbOne(a, k, zoom, id, c, s0, owner, numPoints, wx, wy);
      }
      j := j + 1;
    }
    assert nbrs[..j] == nbrs;
  }

  /** What holds after the first i iterations of the pass over tree (the array as it was
      before the pass), with s the array now. */
  ghost predicate PassInv(tree: seq<Node>, s: seq<Node>, i: int, zoom: int, r: real,
                          clusters: seq<Node>, origin: seq<int>, owner: seq<int>)
  {
    && |s| == |tree| && 0 <= i <= |tree|
    && |origin| == |clusters| <= i && |owner| == |tree|
    && (forall k :: 0 <= k < |s| ==> SameButScratch(s[k], tree[k]))
    && (forall k :: 0 <= k < i ==> Processed(s[k], zoom))
    && (forall k :: 0 <= k < |s| && Processed(tree[k], zoom) ==> s[k] == tree[k] && owner[k] == -1)
    && (forall k :: 0 <= k < |s| && !Processed(s[k], zoom) ==> s[k] == tree[k] && owner[k] == -1)
    && (forall k :: 0 <= k < |s| && !Processed(tree[k], zoom) && Processed(s[k], zoom) ==> s[k].zoom == Visited(zoom))
    && SumWeights(clusters) + SumFresh(s, zoom) == SumFresh(tree, zoom)
    && (forall c :: 0 <= c < |clusters| ==>
          0 <= origin[c] < i && !Processed(tree[origin[c]], zoom) && owner[origin[c]] == c)
    && (forall c1, c2 :: 0 <= c1 < c2 < |clusters| ==> origin[c1] < origin[c2])
    && (forall c :: 0 <= c < |clusters| ==> Formed(tree, s, owner, clusters[c], origin[c], c, zoom))
    && (forall k :: 0 <= k < |s| && !Processed(tree[k], zoom) && Processed(s[k], zoom) ==>
          && 0 <= owner[k] < |clusters| && origin[owner[k]] <= k
          && InDisk(tree[k], tree[origin[owner[k]]].x, tree[origin[owner[k]]].y, r)
          && (k == origin[owner[k]] || (IsCluster(clusters[owner[k]]) && s[k].parentId == clusters[owner[k]].id)))
    && Maximal(tree, owner, origin, zoom, r)
  }

  /** No node unvisited before the pass that lies within r of the origin of output c went
      into a later output: when c was formed, every such node not taken yet was absorbed. */
  ghost predicate Maximal(tree: seq<Node>, owner: seq<int>, origin: seq<int>, zoom: int, r: real)
    requires |owner| == |tree|
  {
    forall c, k ::
      (&& 0 <= c < |origin| && 0 <= origin[c] < |tree| && 0 <= k < |tree| && !Processed(tree[k], zoom)
       && InDisk(tree[k], tree[origin[c]].x, tree[origin[c]].y, r))
      ==> 0 <= owner[k] <= c
  }

  /** `_cluster(points, zoom)` over the node array of zoom + 1, whose kd-tree holds the same
      positions; r is the merge radius `radius / (extent * 2^zoom)`. The result is the node
      list of `zoom`. The ghost outputs name, for output c, the position origin[c] it was
      formed at and, for input k, the output owner[k] it went into (-1 for nodes that were
      already visited at `zoom` and were skipped). */
  method ClusterPass(a: array<Node>, zoom: int, r: real)
    returns (clusters: seq<Node>, ghost origin: seq<int>, ghost owner: seq<int>)
    modifies a
    ensures |origin| == |clusters| && |owner| == a.Length
    // only the scratch fields change, every node ends up visited, skipped ones are untouched
    ensures forall k :: 0 <= k < a.Length ==> SameButScratch(a[..][k], old(a[..])[k]) && Processed(a[..][k], zoom)
    ensures forall k :: 0 <= k < a.Length && Processed(old(a[..])[k], zoom) ==> a[..][k] == old(a[..])[k] && owner[k] == -1
    ensures forall k :: 0 <= k < a.Length && !Processed(old(a[..])[k], zoom) ==> a[..][k].zoom == Visited(zoom)
    // point conservation, and the output is no longer than the input
    ensures SumWeights(clusters) == SumFresh(old(a[..]), zoom)
    ensures |clusters| <= a.Length
    // every output comes from a distinct unvisited origin, in input order
    ensures forall c :: 0 <= c < |clusters| ==>
      0 <= origin[c] < a.Length && !Processed(old(a[..])[origin[c]], zoom) && owner[origin[c]] == c
    ensures forall c1, c2 :: 0 <= c1 < c2 < |clusters| ==> origin[c1] < origin[c2]
    ensures forall c :: 0 <= c < |clusters| ==>
      Formed(old(a[..]), a[..], owner, clusters[c], origin[c], c, zoom)
    // every unvisited input went into exactly one output, lies within r of its origin and,
    // unless it is the origin, names the new cluster as its parent
    ensures forall k :: 0 <= k < a.Length && !Processed(old(a[..])[k], zoom) ==>
      && 0 <= owner[k] < |clusters| && origin[owner[k]] <= k
      && InDisk(old(a[..])[k], old(a[..])[origin[owner[k]]].x, old(a[..])[origin[owner[k]]].y, r)
      && (k == origin[owner[k]] || (IsCluster(clusters[owner[k]]) && a[..][k].parentId == clusters[owner[k]].id))
    // an unvisited input within r of the origin of output c went into c or an earlier output
    ensures Maximal(old(a[..]), owner, origin, zoom, r)
  {
    var tree := a[..];
    clusters, origin, owner := [], [], seq(a.Length, _ => -1);
    var i := 0;
    while i < a.Length
      invariant a.Length == |tree|
      invariant PassInv(tree, a[..], i, zoom, r, clusters, origin, owner)
    {
      clusters, origin, owner := Visit(a, tree, i, zoom, r, clusters, origin, owner);
      i := i + 1;
    }
    PassDone(tree, a[..], zoom, r, clusters, origin, owner);
  }

  /** What the invariant says once every position was visited. */
  lemma PassDone(tree: seq<Node>, s: seq<Node>, zoom: int, r: real,
                 clusters: seq<Node>, origin: seq<int>, owner: seq<int>)
    requires PassInv(tree, s, |tree|, zoom, r, clusters, origin, owner)
    ensures |origin| == |clusters| <= |tree| && |owner| == |s| == |tree|
    ensures forall k :: 0 <= k < |s| ==> SameButScratch(s[k], tree[k]) && Processed(s[k], zoom)
    ensures forall k :: 0 <= k < |s| && Processed(tree[k], zoom) ==> s[k] == tree[k] && owner[k] == -1
    ensures forall k :: 0 <= k < |s| && !Processed(tree[k], zoom) ==> s[k].zoom == Visited(zoom)
    ensures SumWeights(clusters) == SumFresh(tree, zoom)
    ensures forall c :: 0 <= c < |clusters| ==>
      0 <= origin[c] < |s| && !Processed(tree[origin[c]], zoom) && owner[origin[c]] == c
    ensures forall c1, c2 :: 0 <= c1 < c2 < |clusters| ==> origin[c1] < origin[c2]
    ensures forall c :: 0 <= c < |clusters| ==> Formed(tree, s, owner, clusters[c], origin[c], c, zoom)
    ensures forall k :: 0 <= k < |s| && !Processed(tree[k], zoom) ==>
      && 0 <= owner[k] < |clusters| && origin[owner[k]] <= k
      && InDisk(tree[k], tree[origin[owner[k]]].x, tree[origin[owner[k]]].y, r)
      && (k == origin[owner[k]] || (IsCluster(clusters[owner[k]]) && s[k].parentId == clusters[owner[k]].id))
    ensures Maximal(tree, owner, origin, zoom, r)
  {
    SumFreshAllProcessed(s, zoom);
  }

  /** One iteration of the outer loop of `_cluster`, at position i. */
  method Visit(a: array<Node>, tree: seq<Node>, i: int, zoom: int, r: real,
               clusters0: seq<Node>, ghost origin0: seq<int>, ghost owner0: seq<int>)
    returns (clusters: seq<Node>, ghost origin: seq<int>, ghost owner: seq<int>)
    requires a.Length == |tree| && 0 <= i < a.Length
    requires PassInv(tree, a[..], i, zoom, r, clusters0, origin0, owner0)
    modifies a
    ensures PassInv(tree, a[..], i + 1, zoom, r, clusters, origin, owner)
  {
    clusters, origin, owner := clusters0, origin0, owner0;
    var p := a[i];
    // taken by an earlier output, or skipped by the whole pass: no output starts here
    if Processed(p, zoom) {
      return;
    }
    ghost var s := a[..];
    a[i] := p.(zoom := Visited(zoom));
    ghost var s2 := a[..];
    var c := |clusters|;
    ghost var ownerP := owner0[i := c];

    var neighborIds := Within(tree, p.x, p.y, r);
    var numPoints0, wx0, wy0 := Weight(p), WeightedX(p), WeightedY(p);
    var id := EncodeId(i, zoom);
    var numPoints, wx, wy;
    numPoints, wx, wy, owner := Absorb(a, neighborIds, zoom, id, c, tree, ownerP, numPoints0, wx0, wy0);
    ghost var s3 := a[..];
    var out;
    if numPoints == 1 {
      out := a[i];
    } else {
      a[i] := a[i].(parentId := id);
      out := CreateCluster(wx / (numPoints as real), wy / (numPoints as real), id, numPoints);
    }
    clusters := clusters + [out];
    origin := origin + [i];
    FreshStep(tree, s, i, zoom, r, clusters0, origin0, owner0, neighborIds, id,
              s2, s3, owner, numPoints, wx, wy, a[..], out);
  }

  /** What an iteration that visits the unvisited node i establishes: s is the array
      before it, s2 after marking i, s3 after the neighbour loop and sF at the end, where
      the origin names the new cluster as its parent unless it stays alone. */
  ghost predicate StepFacts(tree: seq<Node>, s: seq<Node>, i: int, zoom: int, r: real,
                            cl0: seq<Node>, or0: seq<int>, ow0: seq<int>, nbrs: seq<nat>, id: int,
                            s2: seq<Node>, s3: seq<Node>, ow3: seq<int>, numPoints: int, wx: real, wy: real,
                            sF: seq<Node>, out: Node)
  {
    && PassInv(tree, s, i, zoom, r, cl0, or0, ow0)
    && 0 <= i < |tree| && !Processed(s[i], zoom) && id == EncodeId(i, zoom)
    && s2 == s[i := s[i].(zoom := Visited(zoom))]
    && (forall j :: 0 <= j < |nbrs| ==> nbrs[j] < |tree| && InDisk(tree[nbrs[j]], tree[i].x, tree[i].y, r))
    && (forall k {:trigger k in nbrs} :: 0 <= k < |tree| && InDisk(tree[k], tree[i].x, tree[i].y, r) ==> k in nbrs)
    && |s3| == |tree| && |ow3| == |tree|
    && (forall k :: 0 <= k < |tree| ==>
          if !Processed(s2[k], zoom) && k in nbrs
          then s3[k] == s2[k].(zoom := Visited(zoom), parentId := id) && ow3[k] == |cl0|
          else s3[k] == s2[k] && ow3[k] == ow0[i := |cl0|][k])
    && numPoints == Weight(tree[i]) + SumOwned(tree, ow3, |cl0|) - SumOwned(tree, ow0[i := |cl0|], |cl0|)
    && wx == WeightedX(tree[i]) + SumOwnedBy(tree, ow3, |cl0|, WeightedX) - SumOwnedBy(tree, ow0[i := |cl0|], |cl0|, WeightedX)
    && wy == WeightedY(tree[i]) + SumOwnedBy(tree, ow3, |cl0|, WeightedY) - SumOwnedBy(tree, ow0[i := |cl0|], |cl0|, WeightedY)
    && numPoints >= Weight(tree[i])
    && (numPoints == Weight(tree[i]) ==> s3 == s2 && ow3 == ow0[i := |cl0|])
    && SumFresh(s3, zoom) == SumFresh(s2, zoom) - (numPoints - Weight(tree[i]))
    && (numPoints == 1 ==> sF == s3 && out == s3[i])
    && (numPoints != 1 ==>
          sF == s3[i := s3[i].(parentId := id)]
          && out == CreateCluster(wx / (numPoints as real), wy / (numPoints as real), id, numPoints))
  }

  /** The invariant of the pass is kept by an iteration that visits an unvisited node. */
  lemma FreshStep(tree: seq<Node>, s: seq<Node>, i: int, zoom: int, r: real,
                  cl0: seq<Node>, or0: seq<int>, ow0: seq<int>, nbrs: seq<nat>, id: int,
                  s2: seq<Node>, s3: seq<Node>, ow3: seq<int>, numPoints: int, wx: real, wy: real,
                  sF: seq<Node>, out: Node)
    requires StepFacts(tree, s, i, zoom, r, cl0, or0, ow0, nbrs, id, s2, s3, ow3, numPoints, wx, wy, sF, out)
    ensures PassInv(tree, sF, i + 1, zoom, r, cl0 + [out], or0 + [i], ow3)
  {
    var c := |cl0|;
    var clusters, origin := cl0 + [out], or0 + [i];
    StepSums(tree, s, i, zoom, r, cl0, or0, ow0, nbrs, id, s2, s3, ow3, numPoints, wx, wy, sF, out);
    StepGrew(tree, s, i, zoom, r, cl0, or0, ow0, nbrs, id, s2, s3, ow3, numPoints, wx, wy, sF, out);
    StepFormed(tree, s, i, zoom, r, cl0, or0, ow0, nbrs, id, s2, s3, ow3, numPoints, wx, wy, sF, out);
    StepOwners(tree, s, i, zoom, r, cl0, or0, ow0, nbrs, id, s2, s3, ow3, numPoints, wx, wy, sF, out);
    StepFrame(tree, s, i, zoom, r, cl0, or0, ow0, nbrs, id, s2, s3, ow3, numPoints, wx, wy, sF, out);
    StepCount(tree, s, i, zoom, r, cl0, or0, ow0, nbrs, id, s2, s3, ow3, numPoints, wx, wy, sF, out);
    StepMaximal(tree, s, i, zoom, r, cl0, or0, ow0, nbrs, id, s2, s3, ow3, numPoints, wx, wy, sF, out);
  }

  /** The new output took every neighbour of its origin that no earlier output had taken,
      and the earlier outputs keep what they took. */
  lemma StepMaximal(tree: seq<Node>, s: seq<Node>, i: int, zoom: int, r: real,
                    cl0: seq<Node>, or0: seq<int>, ow0: seq<int>, nbrs: seq<nat>, id: int,
                    s2: seq<Node>, s3: seq<Node>, ow3: seq<int>, numPoints: int, wx: real, wy: real,
                    sF: seq<Node>, out: Node)
    requires StepFacts(tree, s, i, zoom, r, cl0, or0, ow0, nbrs, id, s2, s3, ow3, numPoints, wx, wy, sF, out)
    ensures Maximal(tree, ow3, or0 + [i], zoom, r)
  {
    var c := |cl0|;
    var origin := or0 + [i];
    forall c', k | 0 <= c' < |origin| && 0 <= origin[c'] < |tree| && 0 <= k < |tree| && !Processed(tree[k], zoom)
        && InDisk(tree[k], tree[origin[c']].x, tree[origin[c']].y, r)
      ensures 0 <= ow3[k] <= c'
    {
      if c' == c {
        assert k in nbrs;
        if Processed(s2[k], zoom) && k != i {
          assert Processed(s[k], zoom);
        }
      } else {
        assert origin[c'] == or0[c'];
        assert 0 <= ow0[k] <= c';
        assert Processed(s[k], zoom);
      }
    }
  }

  /** Only scratch fields change, visited nodes stay visited and unvisited ones untouched;
      the origins stay distinct and ordered. */
  lemma StepFrame(tree: seq<Node>, s: seq<Node>, i: int, zoom: int, r: real,
                  cl0: seq<Node>, or0: seq<int>, ow0: seq<int>, nbrs: seq<nat>, id: int,
                  s2: seq<Node>, s3: seq<Node>, ow3: seq<int>, numPoints: int, wx: real, wy: real,
                  sF: seq<Node>, out: Node)
    requires StepFacts(tree, s, i, zoom, r, cl0, or0, ow0, nbrs, id, s2, s3, ow3, numPoints, wx, wy, sF, out)
    ensures |sF| == |tree|
    ensures forall k :: 0 <= k < |sF| ==> SameButScratch(sF[k], tree[k])
    ensures forall k :: 0 <= k < i + 1 ==> Processed(sF[k], zoom)
    ensures forall k :: 0 <= k < |sF| && Processed(tree[k], zoom) ==> sF[k] == tree[k] && ow3[k] == -1
    ensures forall k :: 0 <= k < |sF| && !Processed(sF[k], zoom) ==> sF[k] == tree[k] && ow3[k] == -1
    ensures forall k :: 0 <= k < |sF| && !Processed(tree[k], zoom) && Processed(sF[k], zoom) ==> sF[k].zoom == Visited(zoom)
    ensures forall c :: 0 <= c < |cl0| + 1 ==>
      0 <= (or0 + [i])[c] < i + 1 && !Processed(tree[(or0 + [i])[c]], zoom) && ow3[(or0 + [i])[c]] == c
    ensures forall c1, c2 :: 0 <= c1 < c2 < |cl0| + 1 ==> (or0 + [i])[c1] < (or0 + [i])[c2]
  {
    StepGrew(tree, s, i, zoom, r, cl0, or0, ow0, nbrs, id, s2, s3, ow3, numPoints, wx, wy, sF, out);
  }

  /** Point conservation over one iteration. */
  lemma StepCount(tree: seq<Node>, s: seq<Node>, i: int, zoom: int, r: real,
                  cl0: seq<Node>, or0: seq<int>, ow0: seq<int>, nbrs: seq<nat>, id: int,
                  s2: seq<Node>, s3: seq<Node>, ow3: seq<int>, numPoints: int, wx: real, wy: real,
                  sF: seq<Node>, out: Node)
    requires StepFacts(tree, s, i, zoom, r, cl0, or0, ow0, nbrs, id, s2, s3, ow3, numPoints, wx, wy, sF, out)
    ensures SumWeights(cl0 + [out]) + SumFresh(sF, zoom) == SumFresh(tree, zoom)
  {
    StepSums(tree, s, i, zoom, r, cl0, or0, ow0, nbrs, id, s2, s3, ow3, numPoints, wx, wy, sF, out);
    SumWeightsAppend(cl0, out);
    SumFreshUpdate(s3, i, sF[i], zoom);
    if numPoints != 1 {
      assert sF == s3[i := sF[i]];
    }
    SumFreshUpdate(s, i, s2[i], zoom);
  }

  /** The accumulators hold the sums over the nodes now assigned to the new output. */
  lemma StepSums(tree: seq<Node>, s: seq<Node>, i: int, zoom: int, r: real,
                 cl0: seq<Node>, or0: seq<int>, ow0: seq<int>, nbrs: seq<nat>, id: int,
                 s2: seq<Node>, s3: seq<Node>, ow3: seq<int>, numPoints: int, wx: real, wy: real,
                 sF: seq<Node>, out: Node)
    requires StepFacts(tree, s, i, zoom, r, cl0, or0, ow0, nbrs, id, s2, s3, ow3, numPoints, wx, wy, sF, out)
    ensures forall k :: 0 <= k < |tree| ==> ow0[k] != |cl0|
    ensures numPoints == SumOwned(tree, ow3, |cl0|)
    ensures wx == SumOwnedBy(tree, ow3, |cl0|, WeightedX) && wy == SumOwnedBy(tree, ow3, |cl0|, WeightedY)
    ensures numPoints == 1 ==> numPoints == Weight(tree[i])
  {
    var c := |cl0|;
    assert forall k :: 0 <= k < |tree| ==> ow0[k] != c;
    SumOwnedNone(tree, ow0, c);
    AssignStep(tree, ow0, i, c);
  }

  /** How the assignment to outputs grew in the iteration. */
  lemma StepGrew(tree: seq<Node>, s: seq<Node>, i: int, zoom: int, r: real,
                 cl0: seq<Node>, or0: seq<int>, ow0: seq<int>, nbrs: seq<nat>, id: int,
                 s2: seq<Node>, s3: seq<Node>, ow3: seq<int>, numPoints: int, wx: real, wy: real,
                 sF: seq<Node>, out: Node)
    requires StepFacts(tree, s, i, zoom, r, cl0, or0, ow0, nbrs, id, s2, s3, ow3, numPoints, wx, wy, sF, out)
    ensures |sF| == |tree|
    ensures forall k :: 0 <= k < |tree| ==>
      || (ow3[k] == ow0[k] && sF[k] == s[k] && k != i)
      || (k == i && ow3[k] == |cl0| && sF[k] == (if numPoints == 1 then s2[i] else s2[i].(parentId := id)))
      || (ow3[k] == |cl0| && ow0[k] == -1 && !Processed(s[k], zoom) && k in nbrs && k > i
          && sF[k] == s[k].(zoom := Visited(zoom), parentId := id) && numPoints != 1)
  {
    assert s[i] == tree[i];
    StepSums(tree, s, i, zoom, r, cl0, or0, ow0, nbrs, id, s2, s3, ow3, numPoints, wx, wy, sF, out);
  }

  /** Every output, the earlier ones and the new one, is formed as Formed says. */
  lemma StepFormed(tree: seq<Node>, s: seq<Node>, i: int, zoom: int, r: real,
                   cl0: seq<Node>, or0: seq<int>, ow0: seq<int>, nbrs: seq<nat>, id: int,
                   s2: seq<Node>, s3: seq<Node>, ow3: seq<int>, numPoints: int, wx: real, wy: real,
                   sF: seq<Node>, out: Node)
    requires StepFacts(tree, s, i, zoom, r, cl0, or0, ow0, nbrs, id, s2, s3, ow3, numPoints, wx, wy, sF, out)
    ensures |sF| == |tree|
    ensures forall c' :: 0 <= c' < |cl0| + 1 ==>
      Formed(tree, sF, ow3, (cl0 + [out])[c'], (or0 + [i])[c'], c', zoom)
  {
    var c := |cl0|;
    StepSums(tree, s, i, zoom, r, cl0, or0, ow0, nbrs, id, s2, s3, ow3, numPoints, wx, wy, sF, out);
    StepGrew(tree, s, i, zoom, r, cl0, or0, ow0, nbrs, id, s2, s3, ow3, numPoints, wx, wy, sF, out);
    forall c' | 0 <= c' < c
      ensures Formed(tree, sF, ow3, cl0[c'], or0[c'], c', zoom)
    {
      FormedStable(tree, s, sF, ow0, ow3, cl0[c'], or0[c'], c', zoom);
    }
    assert Formed(tree, sF, ow3, out, i, c, zoom) by {
      if numPoints == 1 {
        assert ow3 == ow0[i := c];
      } else {
        CentreIs(tree, ow3, c, numPoints, wx, wy);
      }
    }
  }

  lemma CentreIs(tree: seq<Node>, ow: seq<int>, c: int, numPoints: int, wx: real, wy: real)
    requires |ow| == |tree| && numPoints >= 1
    requires numPoints == SumOwned(tree, ow, c)
    requires wx == SumOwnedBy(tree, ow, c, WeightedX) && wy == SumOwnedBy(tree, ow, c, WeightedY)
    ensures wx / (numPoints as real) == CentreX(tree, ow, c)
    ensures wy / (numPoints as real) == CentreY(tree, ow, c)
  {
  }

  /** Every node visited so far belongs to an output near its origin and names it as its
      parent unless it is that origin. */
  lemma StepOwners(tree: seq<Node>, s: seq<Node>, i: int, zoom: int, r: real,
                   cl0: seq<Node>, or0: seq<int>, ow0: seq<int>, nbrs: seq<nat>, id: int,
                   s2: seq<Node>, s3: seq<Node>, ow3: seq<int>, numPoints: int, wx: real, wy: real,
                   sF: seq<Node>, out: Node)
    requires StepFacts(tree, s, i, zoom, r, cl0, or0, ow0, nbrs, id, s2, s3, ow3, numPoints, wx, wy, sF, out)
    ensures |sF| == |tree|
    ensures forall k :: 0 <= k < |tree| && !Processed(tree[k], zoom) && Processed(sF[k], zoom) ==>
      && 0 <= ow3[k] < |cl0| + 1 && (or0 + [i])[ow3[k]] <= k
      && InDisk(tree[k], tree[(or0 + [i])[ow3[k]]].x, tree[(or0 + [i])[ow3[k]]].y, r)
      && (k == (or0 + [i])[ow3[k]]
          || (IsCluster((cl0 + [out])[ow3[k]]) && sF[k].parentId == (cl0 + [out])[ow3[k]].id))
  {
    var c := |cl0|;
    var clusters, origin := cl0 + [out], or0 + [i];
    StepGrew(tree, s, i, zoom, r, cl0, or0, ow0, nbrs, id, s2, s3, ow3, numPoints, wx, wy, sF, out);
    forall k | 0 <= k < |tree| && !Processed(tree[k], zoom) && Processed(sF[k], zoom)
      ensures && 0 <= ow3[k] < |clusters| && origin[ow3[k]] <= k
              && InDisk(tree[k], tree[origin[ow3[k]]].x, tree[origin[ow3[k]]].y, r)
              && (k == origin[ow3[k]] || (IsCluster(clusters[ow3[k]]) && sF[k].parentId == clusters[ow3[k]].id))
    {
      if k == i {
        InDiskCentre(tree[i], r);
      } else if ow3[k] == c {
        var j :| 0 <= j < |nbrs| && nbrs[j] == k;
      } else {
        assert ow3[k] == ow0[k];
      }
    }
  }

  /** Formed only looks at the origin's entry of the array and at which nodes belong to c. */
  lemma FormedStable(s0: seq<Node>, s1: seq<Node>, s2: seq<Node>, o1: seq<int>, o2: seq<int>,
                     out: Node, i: int, c: int, zoom: int)
    requires |s0| == |s1| == |s2| == |o1| == |o2| && 0 <= i < |s0|
    requires Formed(s0, s1, o1, out, i, c, zoom)
    requires s2[i] == s1[i]
    requires forall k :: 0 <= k < |s0| ==> (o1[k] == c <==> o2[k] == c)
    ensures Formed(s0, s2, o2, out, i, c, zoom)
  {
    SumOwnedFrame(s0, o1, o2, c);
  }

  /** A node lies within any radius of itself. */
  lemma InDiskCentre(n: Node, r: real)
    ensures InDisk(n, n.x, n.y, r)
  {
    assert (n.x - n.x) * (n.x - n.x) == 0.0;
    assert (n.y - n.y) * (n.y - n.y) == 0.0;
    assert r * r >= 0.0;
  }

  lemma SumWeightsAppend(s: seq<Node>, n: Node)
    ensures SumWeights(s + [n]) == SumWeights(s) + Weight(n)
  {
    assert (s + [n])[..|s|] == s;
  }
}
