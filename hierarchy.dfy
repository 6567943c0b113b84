/** The cluster hierarchy: the children `getChildren` finds for a cluster that a pass
    formed are exactly the nodes the pass absorbed into it, so their point counts add up
    to the cluster's own. */
module Hierarchy {
  import opened Wrappers
  import opened ClusterIds
  import opened Nodes
  import opened Clustering
  import opened Queries

  /** The number of source points a returned feature stands for. */
  function FeatureWeight(f: Feature): int {
    if f.ClusterFeature? then f.props.pointCount else 1
  }

  function SumFeatureWeights(fs: seq<Feature>): int
    decreases |fs|
  {
    if |fs| == 0 then 0 else SumFeatureWeights(fs[..|fs| - 1]) + FeatureWeight(fs[|fs| - 1])
  }

  /** A cluster's children, as `getChildren` returns them, stand for as many points as it does. */
  predicate ChildrenAddUp(o: Options, trees: map<int, seq<Node>>, n: Node)
    requires WellFormed(o)
  {
    IsCluster(n) ==>
      var r := Children(o, trees, n.id);
      r.Ok? && SumFeatureWeights(r.value) == Weight(n)
  }

  /** Every cluster among the nodes adds up. */
  predicate AllAddUp(o: Options, trees: map<int, seq<Node>>, s: seq<Node>)
    requires WellFormed(o)
  {
    forall k :: 0 <= k < |s| ==> ChildrenAddUp(o, trees, s[k])
  }

  /** Storing a tree at another zoom than the one a cluster's id names keeps it adding up. */
  lemma AddUpFrame(o: Options, trees: map<int, seq<Node>>, z: int, s: seq<Node>, n: Node)
    requires WellFormed(o) && ChildrenAddUp(o, trees, n) && (IsCluster(n) ==> OriginZoom(n.id) != z)
    ensures ChildrenAddUp(o, trees[z := s], n)
  {
    if IsCluster(n) {
      assert trees[z := s][OriginZoom(n.id)] == trees[OriginZoom(n.id)];
    }
  }

  /** Nodes equal up to their scratch fields add up alike. */
  lemma ScratchAddUp(o: Options, trees: map<int, seq<Node>>, s0: seq<Node>, s1: seq<Node>)
    requires WellFormed(o) && |s0| == |s1| && AllAddUp(o, trees, s0)
    requires forall k :: 0 <= k < |s0| ==> SameButScratch(s1[k], s0[k])
    ensures AllAddUp(o, trees, s1)
  {
    forall k | 0 <= k < |s1|
      ensures ChildrenAddUp(o, trees, s1[k])
    {
      assert ChildrenAddUp(o, trees, s0[k]);
    }
  }

  /** There are no more nodes than the points they stand for. */
  lemma {:induction false} SizeBelowWeights(s: seq<Node>)
    ensures |s| <= SumWeights(s)
    decreases |s|
  {
    if |s| > 0 {
      SizeBelowWeights(s[..|s| - 1]);
    }
  }

  /** The total weight of the nodes at positions ps. */
  function SumAt(s: seq<Node>, ps: seq<nat>): int
    requires forall j :: 0 <= j < |ps| ==> ps[j] < |s|
    decreases |ps|
  {
    if |ps| == 0 then 0 else SumAt(s, ps[..|ps| - 1]) + Weight(s[ps[|ps| - 1]])
  }

  /** The features of some nodes stand for as many points as the nodes. */
  lemma {:induction false} FeatureWeights(s: seq<Node>, ps: seq<nat>)
    requires forall j :: 0 <= j < |ps| ==> ps[j] < |s|
    ensures SumFeatureWeights(FeaturesAt(s, ps)) == SumAt(s, ps)
    decreases |ps|
  {
    if |ps| > 0 {
      var fs := FeaturesAt(s, ps);
      FeatureWeights(s, ps[..|ps| - 1]);
      assert fs[..|fs| - 1] == FeaturesAt(s, ps[..|ps| - 1]);
      assert FeatureWeight(fs[|fs| - 1]) == Weight(s[ps[|ps| - 1]]);
    }
  }

  /** Summing over the ascending positions that owner assigns to c is `SumOwned`. */
  lemma {:induction false} SumAtOwned(s: seq<Node>, owner: seq<int>, c: int, ps: seq<nat>, m: int)
    requires |owner| == |s| && 0 <= m <= |s|
    requires forall j :: 0 <= j < |ps| ==> ps[j] < m && owner[ps[j]] == c
    requires Ascending(ps)
    requires forall k :: 0 <= k < m && owner[k] == c ==> k in ps
    ensures SumAt(s, ps) == SumOwned(s[..m], owner[..m], c)
    decreases m
  {
    if m > 0 {
      var k := m - 1;
      assert s[..m][..k] == s[..k] && owner[..m][..k] == owner[..k];
      if owner[k] == c {
        var j :| 0 <= j < |ps| && ps[j] == k;
        AscendingLast(ps, j);
        var ps' := ps[..|ps| - 1];
        DropOwned(owner, c, ps, k, ps');
        SumAtOwned(s, owner, c, ps', k);
      } else {
        SumAtOwned(s, owner, c, ps, k);
      }
    }
  }

  /** Without its last position k, the ascending positions owned by c still list every
      position before k that c owns. */
  lemma DropOwned(owner: seq<int>, c: int, ps: seq<nat>, k: int, ps': seq<nat>)
    requires 0 <= k < |owner| && |ps| > 0 && ps[|ps| - 1] == k && Ascending(ps)
    requires forall j :: 0 <= j < |ps| ==> ps[j] <= k && owner[ps[j]] == c
    requires forall k' :: 0 <= k' < k && owner[k'] == c ==> k' in ps
    requires ps' == ps[..|ps| - 1]
    ensures forall j :: 0 <= j < |ps'| ==> ps'[j] < k && owner[ps'[j]] == c
    ensures Ascending(ps')
    ensures forall k' :: 0 <= k' < k && owner[k'] == c ==> k' in ps'
  {
    forall k' | 0 <= k' < k && owner[k'] == c
      ensures k' in ps'
    {
      var j' :| 0 <= j' < |ps| && ps[j'] == k';
      assert ps'[j'] == k';
    }
  }

  /** Positions listed in strictly increasing order. */
  predicate Ascending(ps: seq<nat>) {
    forall m1, m2 :: 0 <= m1 < m2 < |ps| ==> ps[m1] < ps[m2]
  }

  /** The last of ascending positions is the largest. */
  lemma AscendingLast(ps: seq<nat>, j: int)
    requires Ascending(ps) && 0 <= j < |ps|
    ensures ps[j] <= ps[|ps| - 1]
  {
  }

  /** The positions kept by the parent filter stay ascending. */
  lemma {:induction false} WithParentSorted(t: seq<Node>, ids: seq<nat>, parentId: int)
    requires forall j :: 0 <= j < |ids| ==> ids[j] < |t|
    requires Ascending(ids)
    ensures Ascending(WithParent(t, ids, parentId))
    decreases |ids|
  {
    if |ids| > 0 {
      var init := ids[..|ids| - 1];
      WithParentSorted(t, init, parentId);
      var rest := WithParent(t, init, parentId);
      var last := ids[|ids| - 1];
      forall m | 0 <= m < |rest|
        ensures rest[m] < last
      {
        assert rest[m] in init;
        var j :| 0 <= j < |init| && init[j] == rest[m];
        assert ids[j] == init[j];
      }
      if t[last].parentId == parentId {
        var cs := rest + [last];
        assert WithParent(t, ids, parentId) == cs;
        forall m1, m2 | 0 <= m1 < m2 < |cs|
          ensures cs[m1] < cs[m2]
        {
          assert cs[m1] == rest[m1];
          if m2 < |rest| {
            assert cs[m2] == rest[m2];
          } else {
            assert cs[m2] == last;
          }
        }
      } else {
        assert WithParent(t, ids, parentId) == rest;
      }
    }
  }

  /** The origins of the outputs of a pass: in range, owned by their output, ascending. */
  ghost predicate Origins(n: int, owner: seq<int>, origin: seq<int>) {
    && |owner| == n
    && (forall c :: 0 <= c < |origin| ==> 0 <= origin[c] < n && owner[origin[c]] == c)
    && (forall c1, c2 :: 0 <= c1 < c2 < |origin| ==> origin[c1] < origin[c2])
  }

  /** Every node of the level went into an output whose origin lies within the merge radius. */
  ghost predicate Absorbed(s0: seq<Node>, owner: seq<int>, origin: seq<int>, r: real)
    requires |owner| == |s0|
  {
    forall k :: 0 <= k < |s0| ==>
      && 0 <= owner[k] < |origin| && 0 <= origin[owner[k]] < |s0|
      && InDisk(s0[k], s0[origin[owner[k]]].x, s0[origin[owner[k]]].y, r)
  }

  /** The parent a node names after the pass: the id of the cluster it went into, or none
      when its output stayed a single node. */
  ghost predicate Parents(s0: seq<Node>, s1: seq<Node>, owner: seq<int>, origin: seq<int>, z: int)
    requires |s0| == |s1| == |owner|
  {
    forall k :: 0 <= k < |s0| ==>
      && 0 <= owner[k] < |origin|
      && s1[k].parentId == (if SumOwned(s0, owner, owner[k]) >= 2 then EncodeId(origin[owner[k]], z) else NoParent)
  }

  /** What `_cluster(s0, z)` leaves behind, as `ClusterPass` states it, on a level whose
      nodes are all unvisited and without parent. */
  ghost predicate PassOut(o: Options, s0: seq<Node>, s1: seq<Node>, owner: seq<int>,
                          next: seq<Node>, origin: seq<int>, z: int)
    requires WellFormed(o)
  {
    && |s0| == |s1| == |owner| && |origin| == |next|
    && (forall k :: 0 <= k < |s0| ==> !Processed(s0[k], z) && s0[k].parentId == NoParent)
    && (forall k :: 0 <= k < |s0| ==> SameButScratch(s1[k], s0[k]))
    && (forall c :: 0 <= c < |next| ==> 0 <= origin[c] < |s0| && owner[origin[c]] == c)
    && (forall c1, c2 :: 0 <= c1 < c2 < |next| ==> origin[c1] < origin[c2])
    && (forall c :: 0 <= c < |next| ==> Formed(s0, s1, owner, next[c], origin[c], c, z))
    && (forall k :: 0 <= k < |s0| && !Processed(s0[k], z) ==>
          && 0 <= owner[k] < |next| && origin[owner[k]] <= k
          && InDisk(s0[k], s0[origin[owner[k]]].x, s0[origin[owner[k]]].y, MergeRadius(o, z))
          && (k == origin[owner[k]] || (IsCluster(next[owner[k]]) && s1[k].parentId == next[owner[k]].id)))
  }

  /** The pass facts in the smaller pieces the lemmas below use. */
  lemma PassParts(o: Options, s0: seq<Node>, s1: seq<Node>, owner: seq<int>,
                  next: seq<Node>, origin: seq<int>, z: int)
    requires WellFormed(o) && PassOut(o, s0, s1, owner, next, origin, z)
    ensures Origins(|s0|, owner, origin)
    ensures Absorbed(s0, owner, origin, MergeRadius(o, z))
    ensures Parents(s0, s1, owner, origin, z)
  {
    forall k | 0 <= k < |s0|
      ensures s1[k].parentId == (if SumOwned(s0, owner, owner[k]) >= 2 then EncodeId(origin[owner[k]], z) else NoParent)
    {
      var c := owner[k];
      assert Formed(s0, s1, owner, next[c], origin[c], c, z);
    }
  }

  /** The position of the output that took node k of a tree marked by a pass: the node
      itself when it names no parent (it stayed alone), otherwise the origin that its
      parent's id encodes. */
  function ClaimOf(t: seq<Node>, k: int): int
    requires 0 <= k < |t|
  {
    if t[k].parentId == NoParent then k else OriginIndex(t[k].parentId)
  }

  /** A marked tree was clustered greedily with radius r: no node within r of the origin
      of an output went into an output with a later origin. */
  ghost predicate Greedy(t: seq<Node>, r: real) {
    forall i, k :: 0 <= i < |t| && 0 <= k < |t| && ClaimOf(t, i) == i && InDisk(t[k], t[i].x, t[i].y, r)
      ==> ClaimOf(t, k) <= i
  }

  /** Reading a node's claim off the marked level gives the origin of its output. */
  lemma ClaimIsOrigin(s0: seq<Node>, s1: seq<Node>, owner: seq<int>, origin: seq<int>, z: int, k: int,
                      out: Node)
    requires |s0| == |s1| == |owner| && |s0| < TwoTo31 / 32 && 0 <= z <= 30 && 0 <= k < |s0|
    requires Origins(|s0|, owner, origin) && Parents(s0, s1, owner, origin, z)
    requires Formed(s0, s1, owner, out, origin[owner[k]], owner[k], z)
    ensures ClaimOf(s1, k) == origin[owner[k]]
  {
    var c := owner[k];
    if SumOwned(s0, owner, c) >= 2 {
      IdRoundTrip(origin[c], z);
      EncodeInjective(origin[c], origin[c], z);
    }
  }

  /** A pass that absorbed every free neighbour of each origin leaves a greedy tree. */
  lemma PassGreedy(o: Options, s0: seq<Node>, s1: seq<Node>, owner: seq<int>,
                   next: seq<Node>, origin: seq<int>, z: int)
    requires WellFormed(o) && PassOut(o, s0, s1, owner, next, origin, z)
    requires SumWeights(s0) < TwoTo31 / 32 && 0 <= z <= 30
    requires Maximal(s0, owner, origin, z, MergeRadius(o, z))
    ensures Greedy(s1, MergeRadius(o, z))
  {
    SizeBelowWeights(s0);
    PassParts(o, s0, s1, owner, next, origin, z);
    forall c | 0 <= c < |next|
      ensures Formed(s0, s1, owner, next[c], origin[c], c, z)
    {
    }
    ClaimsGreedy(s0, s1, owner, next, origin, z, MergeRadius(o, z));
  }

  /** The greedy step of `PassGreedy`, on the parts of the pass it needs. */
  lemma ClaimsGreedy(s0: seq<Node>, s1: seq<Node>, owner: seq<int>, next: seq<Node>, origin: seq<int>,
                     z: int, r: real)
    requires |s0| == |s1| == |owner| && |origin| == |next| && |s0| < TwoTo31 / 32 && 0 <= z <= 30
    requires Origins(|s0|, owner, origin) && Absorbed(s0, owner, origin, r) && Parents(s0, s1, owner, origin, z)
    requires forall c :: 0 <= c < |next| ==> Formed(s0, s1, owner, next[c], origin[c], c, z)
    requires forall k :: 0 <= k < |s0| ==> SameButScratch(s1[k], s0[k]) && !Processed(s0[k], z)
    requires Maximal(s0, owner, origin, z, r)
    ensures Greedy(s1, r)
  {
    forall i, k | 0 <= i < |s1| && 0 <= k < |s1| && ClaimOf(s1, i) == i && InDisk(s1[k], s1[i].x, s1[i].y, r)
      ensures ClaimOf(s1, k) <= i
    {
      ClaimPair(s0, s1, owner, next, origin, z, r, i, k);
    }
  }

  /** `ClaimsGreedy` for one origin i and one node k near it. */
  lemma ClaimPair(s0: seq<Node>, s1: seq<Node>, owner: seq<int>, next: seq<Node>, origin: seq<int>,
                  z: int, r: real, i: int, k: int)
    requires |s0| == |s1| == |owner| && |origin| == |next| && |s0| < TwoTo31 / 32 && 0 <= z <= 30
    requires Origins(|s0|, owner, origin) && Absorbed(s0, owner, origin, r) && Parents(s0, s1, owner, origin, z)
    requires forall c :: 0 <= c < |next| ==> Formed(s0, s1, owner, next[c], origin[c], c, z)
    requires forall k :: 0 <= k < |s0| ==> SameButScratch(s1[k], s0[k]) && !Processed(s0[k], z)
    requires Maximal(s0, owner, origin, z, r)
    requires 0 <= i < |s1| && 0 <= k < |s1| && ClaimOf(s1, i) == i && InDisk(s1[k], s1[i].x, s1[i].y, r)
    ensures ClaimOf(s1, k) <= i
  {
    var c, d := owner[i], owner[k];
    ClaimIsOrigin(s0, s1, owner, origin, z, i, next[c]);
    ClaimIsOrigin(s0, s1, owner, origin, z, k, next[d]);
    assert origin[c] == i;
    assert SameButScratch(s1[k], s0[k]) && SameButScratch(s1[i], s0[i]);
    InDiskSame(s1[k], s0[k], s1[i].x, s1[i].y, s0[origin[c]].x, s0[origin[c]].y, r);
    assert d <= c;
    if d < c {
      assert origin[d] < origin[c];
    }
  }

  /** Distinct origins below 2^26 give distinct ids, all of them positive. */
  lemma EncodeInjective(i: int, j: int, z: int)
    requires 0 <= i < TwoTo31 / 32 && 0 <= j < TwoTo31 / 32 && 0 <= z <= 30
    ensures EncodeId(i, z) > 0
    ensures EncodeId(i, z) == EncodeId(j, z) ==> i == j
  {
    IdRoundTrip(i, z);
    IdRoundTrip(j, z);
    assert Shl5(i) == i * 32;
  }

  /** A node that names a cluster as parent went into that cluster. */
  lemma NamedOwned(s0: seq<Node>, s1: seq<Node>, owner: seq<int>,
                   origin: seq<int>, z: int, c: int, k: int)
    requires |s0| == |s1| == |owner|
    requires Origins(|s0|, owner, origin) && Parents(s0, s1, owner, origin, z)
    requires 0 <= z <= 30 && |s0| < TwoTo31 / 32
    requires 0 <= c < |origin| && 0 <= k < |s1|
    requires s1[k].parentId == EncodeId(origin[c], z)
    ensures owner[k] == c
  {
    var c' := owner[k];
    EncodeInjective(origin[c], origin[c'], z);
    assert origin[c'] == origin[c];
  }

  /** A node a cluster absorbed lies near its origin and names it as parent. */
  lemma OwnedNamed(s0: seq<Node>, s1: seq<Node>, owner: seq<int>,
                   origin: seq<int>, z: int, r: real, c: int, k: int)
    requires |s0| == |s1| == |owner|
    requires forall k' :: 0 <= k' < |s0| ==> SameButScratch(s1[k'], s0[k'])
    requires Absorbed(s0, owner, origin, r) && Parents(s0, s1, owner, origin, z)
    requires 0 <= c < |origin| && 0 <= origin[c] < |s0| && SumOwned(s0, owner, c) >= 2
    requires 0 <= k < |s1| && owner[k] == c
    ensures InDisk(s1[k], s1[origin[c]].x, s1[origin[c]].y, r)
    ensures s1[k].parentId == EncodeId(origin[c], z)
  {
    var i := origin[c];
    assert InDisk(s0[k], s0[i].x, s0[i].y, r);
    assert SameButScratch(s1[i], s0[i]) && SameButScratch(s1[k], s0[k]);
    InDiskSame(s1[k], s0[k], s1[i].x, s1[i].y, s0[i].x, s0[i].y, r);
  }

  lemma InDiskSame(n: Node, m: Node, cx: real, cy: real, dx: real, dy: real, r: real)
    requires n.x == m.x && n.y == m.y && cx == dx && cy == dy
    ensures InDisk(n, cx, cy, r) == InDisk(m, dx, dy, r)
  {
  }

  /** The children `getChildren` finds for a cluster id with origin i at z + 1, given the
      ascending positions it keeps. */
  lemma ChildrenAt(o: Options, trees: map<int, seq<Node>>, s1: seq<Node>, i: int, z: int)
    requires WellFormed(o) && 0 <= z <= 30 && 0 <= i < |s1| && i < TwoTo31 / 32
    requires z + 1 in trees && trees[z + 1] == s1
    ensures var id := EncodeId(i, z);
      var cs := WithParent(s1, Within(s1, s1[i].x, s1[i].y, MergeRadius(o, z)), id);
      && Ascending(cs)
      && Children(o, trees, id) == if |cs| == 0 then Err(NoCluster) else Ok(FeaturesAt(s1, cs))
  {
    IdRoundTrip(i, z);
    var ids := Within(s1, s1[i].x, s1[i].y, MergeRadius(o, z));
    WithParentSorted(s1, ids, EncodeId(i, z));
  }

  /** A cluster formed by the pass at z, with the marked level stored at z + 1: its children
      are what it absorbed, and they stand for as many points as it does. */
  lemma PassChildren(o: Options, trees: map<int, seq<Node>>, s0: seq<Node>, s1: seq<Node>,
                     owner: seq<int>, next: seq<Node>, origin: seq<int>, z: int, c: int)
    requires WellFormed(o) && PassOut(o, s0, s1, owner, next, origin, z)
    requires forall k :: 0 <= k < |s0| && IsCluster(s0[k]) ==> Weight(s0[k]) >= 2
    requires 0 <= z <= 30 && |s0| < TwoTo31 / 32
    requires z + 1 in trees && trees[z + 1] == s1 && 0 <= c < |next|
    ensures ChildrenAddUp(o, trees, next[c])
  {
    var i := origin[c];
    var w := SumOwned(s0, owner, c);
    assert Formed(s0, s1, owner, next[c], i, c, z);
    if w < 2 {
      assert next[c] == s1[i] && SameButScratch(s1[i], s0[i]);
    } else {
      PassParts(o, s0, s1, owner, next, origin, z);
      ClusterChildren(o, trees, s0, s1, owner, origin, z, c);
    }
  }

  /** The children of the cluster output c stand for the points it absorbed. */
  lemma ClusterChildren(o: Options, trees: map<int, seq<Node>>, s0: seq<Node>, s1: seq<Node>,
                        owner: seq<int>, origin: seq<int>, z: int, c: int)
    requires WellFormed(o) && |s0| == |s1| == |owner|
    requires forall k :: 0 <= k < |s0| ==> SameButScratch(s1[k], s0[k])
    requires Origins(|s0|, owner, origin) && Absorbed(s0, owner, origin, MergeRadius(o, z))
    requires Parents(s0, s1, owner, origin, z)
    requires 0 <= z <= 30 && |s0| < TwoTo31 / 32
    requires z + 1 in trees && trees[z + 1] == s1
    requires 0 <= c < |origin| && SumOwned(s0, owner, c) >= 2
    ensures var r := Children(o, trees, EncodeId(origin[c], z));
      r.Ok? && SumFeatureWeights(r.value) == SumOwned(s0, owner, c)
  {
    var i := origin[c];
    ChildrenAt(o, trees, s1, i, z);
    var cs := WithParent(s1, Within(s1, s1[i].x, s1[i].y, MergeRadius(o, z)), EncodeId(i, z));
    ChildPositions(s0, s1, owner, origin, z, MergeRadius(o, z), c);
    assert owner[i] == c;
    SumAtAllOwned(s1, owner, c, cs);
    SumOwnedScratch(s0, s1, owner, c);
    FeatureWeights(s1, cs);
  }

  /** The positions `getChildren` keeps for cluster output c are the ones it absorbed. */
  lemma ChildPositions(s0: seq<Node>, s1: seq<Node>, owner: seq<int>,
                       origin: seq<int>, z: int, r: real, c: int)
    requires |s0| == |s1| == |owner|
    requires forall k :: 0 <= k < |s0| ==> SameButScratch(s1[k], s0[k])
    requires Origins(|s0|, owner, origin) && Absorbed(s0, owner, origin, r)
    requires Parents(s0, s1, owner, origin, z)
    requires 0 <= z <= 30 && |s0| < TwoTo31 / 32
    requires 0 <= c < |origin| && SumOwned(s0, owner, c) >= 2
    ensures var i := origin[c];
      var cs := WithParent(s1, Within(s1, s1[i].x, s1[i].y, r), EncodeId(i, z));
      && (forall m :: 0 <= m < |cs| ==> owner[cs[m]] == c)
      && (forall k :: 0 <= k < |s1| && owner[k] == c ==> k in cs)
  {
    var i := origin[c];
    var ids := Within(s1, s1[i].x, s1[i].y, r);
    var cs := WithParent(s1, ids, EncodeId(i, z));
    forall m | 0 <= m < |cs|
      ensures owner[cs[m]] == c
    {
      NamedOwned(s0, s1, owner, origin, z, c, cs[m]);
    }
    forall k | 0 <= k < |s1| && owner[k] == c
      ensures k in cs
    {
      OwnedNamed(s0, s1, owner, origin, z, r, c, k);
      InWithin(s1, s1[i].x, s1[i].y, r, k);
      var j :| 0 <= j < |ids| && ids[j] == k;
    }
  }

  /** A node in the disk is among the positions `Within` reports. */
  lemma InWithin(t: seq<Node>, cx: real, cy: real, r: real, k: int)
    requires 0 <= k < |t| && InDisk(t[k], cx, cy, r)
    ensures k in Within(t, cx, cy, r)
  {
  }

  /** `SumAtOwned` over the whole level. */
  lemma SumAtAllOwned(s: seq<Node>, owner: seq<int>, c: int, ps: seq<nat>)
    requires |owner| == |s|
    requires forall j :: 0 <= j < |ps| ==> ps[j] < |s| && owner[ps[j]] == c
    requires Ascending(ps)
    requires forall k :: 0 <= k < |s| && owner[k] == c ==> k in ps
    ensures SumAt(s, ps) == SumOwned(s, owner, c)
  {
    SumAtOwned(s, owner, c, ps, |s|);
    assert s[..|s|] == s && owner[..|s|] == owner;
  }

  /** Owned sums only depend on the fields a pass does not change. */
  lemma {:induction false} SumOwnedScratch(s0: seq<Node>, s1: seq<Node>, owner: seq<int>, c: int)
    requires |s0| == |s1| == |owner|
    requires forall k :: 0 <= k < |s0| ==> SameButScratch(s1[k], s0[k])
    ensures SumOwned(s1, owner, c) == SumOwned(s0, owner, c)
    decreases |s0|
  {
    if |s0| > 0 {
      var n := |s0| - 1;
      SumOwnedScratch(s0[..n], s1[..n], owner[..n], c);
      assert Weight(s1[n]) == Weight(s0[n]);
    }
  }
}
