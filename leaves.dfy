/** Which source points `getLeaves` returns: the points under a cluster, listed by
    following `getChildren` down to the source points, and each page a slice of that list. */
module LeafPages {
  import opened Wrappers
  import opened ClusterIds
  import opened Nodes
  import opened Queries
  import opened Hierarchy

  /** Every cluster of every stored tree has children that stand for all its points. */
  ghost predicate TreesAddUp(o: Options, trees: map<int, seq<Node>>)
    requires WellFormed(o)
  {
    forall z :: z in trees ==> AllAddUp(o, trees, trees[z])
  }

  /** The source points under cluster `id`: its children in `getChildren` order, each child
      cluster replaced by the points under it. */
  ghost function LeavesUnder(o: Options, trees: map<int, seq<Node>>, id: int): (r: Result<seq<Feature>>)
    requires WellFormed(o) && IndexOk(o, trees)
    ensures r.Ok? ==> forall j :: 0 <= j < |r.value| ==> r.value[j].PointFeature?
    decreases Depth(o, trees, id), 1
  {
    var children := Children(o, trees, id);
    if children.Err? then Err(children.error) else LeavesUnderList(o, trees, id, children.value, 0)
  }

  /** The points under `children[i..]`, one child after the other. */
  ghost function LeavesUnderList(o: Options, trees: map<int, seq<Node>>, parent: int, children: seq<Feature>,
                                 i: int): (r: Result<seq<Feature>>)
    requires WellFormed(o) && IndexOk(o, trees)
    requires Children(o, trees, parent) == Ok(children) && 0 <= i <= |children|
    ensures r.Ok? ==> forall j :: 0 <= j < |r.value| ==> r.value[j].PointFeature?
    decreases Depth(o, trees, parent), 0, |children| - i
  {
    if i == |children| then Ok([])
    else
      var head := LeavesOfChild(o, trees, parent, children, i);
      var tail := LeavesUnderList(o, trees, parent, children, i + 1);
      if head.Err? then head else if tail.Err? then tail else Ok(head.value + tail.value)
  }

  /** The points under one child: a source point is itself, a cluster its own leaves. */
  ghost function LeavesOfChild(o: Options, trees: map<int, seq<Node>>, parent: int, children: seq<Feature>,
                               i: int): (r: Result<seq<Feature>>)
    requires WellFormed(o) && IndexOk(o, trees)
    requires Children(o, trees, parent) == Ok(children) && 0 <= i < |children|
    ensures r.Ok? ==> forall j :: 0 <= j < |r.value| ==> r.value[j].PointFeature?
    decreases Depth(o, trees, parent), 0, |children| - i, 0
  {
    var f := children[i];
    if f.ClusterFeature? then
      ChildDepth(o, trees, parent, children, i);
      LeavesUnder(o, trees, f.props.clusterId)
    else Ok([f])
  }

  function Min(a: int, b: int): int {
    if a <= b then a else b
  }

  /** `n` brought into 0 .. hi. */
  function Clamp(n: int, hi: nat): (c: nat)
    ensures c <= hi
    ensures 0 <= n <= hi ==> c == n
  {
    if n < 0 then 0 else if n > hi then hi else n
  }

  /** The paging of `_appendLeaves` on a flat list of points: points are skipped until
      `offset` have been skipped, then pushed onto `acc` until it holds `limit` of them
      (all the rest when `acc` already holds `limit` or more); with the new skipped count. */
  function PageOf(ps: seq<Feature>, limit: int, offset: int, acc: seq<Feature>, skipped: int): (seq<Feature>, int) {
    var d := Clamp(offset - skipped, |ps|);
    var e := if |acc| < limit then Min(d + (limit - |acc|), |ps|) else |ps|;
    (acc + ps[d..e], skipped + d)
  }

  /** The page of a whole list: from position `offset` (clamped to the list), `limit`
      points, or all the rest for a negative limit. */
  function PageSlice(ps: seq<Feature>, limit: int, offset: int): seq<Feature> {
    var d := Clamp(offset, |ps|);
    ps[d..if limit >= 1 then Min(d + limit, |ps|) else |ps|]
  }

  /** Paging a list in two parts: once the first part fills the page, the second adds
      nothing; otherwise the second part is paged from where the first left off. */
  lemma PageConcat(h: seq<Feature>, t: seq<Feature>, limit: int, offset: int, acc: seq<Feature>, skipped: int)
    ensures var (a1, s1) := PageOf(h, limit, offset, acc, skipped);
      && (|a1| == limit && |acc| != limit ==> PageOf(h + t, limit, offset, acc, skipped) == (a1, s1))
      && (|a1| != limit ==> PageOf(h + t, limit, offset, acc, skipped) == PageOf(t, limit, offset, a1, s1))
  {
    var (a1, s1) := PageOf(h, limit, offset, acc, skipped);
    if |a1| == limit && |acc| != limit {
      PageStop(h, t, limit, offset, acc, skipped);
    } else if |a1| != limit {
      if Clamp(offset - skipped, |h|) < |h| {
        PageInside(h, t, limit, offset, acc, skipped);
      } else {
        PagePast(h, t, limit, offset, acc, skipped);
      }
    }
  }

  /** The first part filled the page. */
  lemma PageStop(h: seq<Feature>, t: seq<Feature>, limit: int, offset: int, acc: seq<Feature>, skipped: int)
    requires |PageOf(h, limit, offset, acc, skipped).0| == limit && |acc| != limit
    ensures PageOf(h + t, limit, offset, acc, skipped) == PageOf(h, limit, offset, acc, skipped)
  {
    var d := Clamp(offset - skipped, |h|);
    var e := if |acc| < limit then Min(d + (limit - |acc|), |h|) else |h|;
    assert |acc| < limit && e == d + (limit - |acc|) && d < |h|;
    assert Clamp(offset - skipped, |h| + |t|) == d;
    assert (h + t)[d..e] == h[d..e];
  }

  /** The first part ended inside the page, its paging having started inside it. */
  lemma PageInside(h: seq<Feature>, t: seq<Feature>, limit: int, offset: int, acc: seq<Feature>, skipped: int)
    requires |PageOf(h, limit, offset, acc, skipped).0| != limit
    requires Clamp(offset - skipped, |h|) < |h|
    ensures var (a1, s1) := PageOf(h, limit, offset, acc, skipped);
      PageOf(h + t, limit, offset, acc, skipped) == PageOf(t, limit, offset, a1, s1)
  {
    var (a1, s1) := PageOf(h, limit, offset, acc, skipped);
    var d := Clamp(offset - skipped, |h|);
    assert d == Clamp(offset - skipped, |h| + |t|);
    assert Clamp(offset - s1, |t|) == 0;
    var e := if |acc| < limit then Min(d + (limit - |acc|), |h|) else |h|;
    assert e == |h|;
    assert a1 == acc + h[d..];
    var te := if |a1| < limit then Min(0 + (limit - |a1|), |t|) else |t|;
    var he := if |acc| < limit then Min(d + (limit - |acc|), |h| + |t|) else |h| + |t|;
    assert he == |h| + te;
    assert (h + t)[d..he] == h[d..] + t[0..te];
    assert a1 + t[0..te] == acc + (h[d..] + t[0..te]);
  }

  /** The paging skipped the whole first part. */
  lemma PagePast(h: seq<Feature>, t: seq<Feature>, limit: int, offset: int, acc: seq<Feature>, skipped: int)
    requires Clamp(offset - skipped, |h|) == |h|
    ensures var (a1, s1) := PageOf(h, limit, offset, acc, skipped);
      PageOf(h + t, limit, offset, acc, skipped) == PageOf(t, limit, offset, a1, s1)
  {
    var (a1, s1) := PageOf(h, limit, offset, acc, skipped);
    assert a1 == acc + h[|h|..|h|] == acc && s1 == skipped + |h|;
    var td := Clamp(offset - s1, |t|);
    assert Clamp(offset - skipped, |h| + |t|) == |h| + td;
    var te := if |acc| < limit then Min(td + (limit - |acc|), |t|) else |t|;
    var he := if |acc| < limit then Min(|h| + td + (limit - |acc|), |h| + |t|) else |h| + |t|;
    assert he == |h| + te;
    assert (h + t)[|h| + td..he] == t[td..te];
  }

  /** A cluster whose points all fall before `offset` is skipped whole. */
  lemma PageSkipAll(h: seq<Feature>, limit: int, offset: int, acc: seq<Feature>, skipped: int)
    requires skipped + |h| <= offset
    ensures PageOf(h, limit, offset, acc, skipped) == (acc, skipped + |h|)
  {
    assert acc + h[|h|..|h|] == acc;
  }

  /** A single point is skipped before `offset`, pushed after it. */
  lemma PageOne(f: Feature, limit: int, offset: int, acc: seq<Feature>, skipped: int)
    ensures PageOf([f], limit, offset, acc, skipped) == if skipped < offset then (acc, skipped + 1) else (acc + [f], skipped)
  {
    if skipped < offset {
      assert acc + [f][1..1] == acc;
    } else {
      assert [f][0..1] == [f];
    }
  }

  /** `SumFeatureWeights` taken from the front. */
  lemma {:induction false} WeightsFront(fs: seq<Feature>)
    requires |fs| > 0
    ensures SumFeatureWeights(fs) == FeatureWeight(fs[0]) + SumFeatureWeights(fs[1..])
    decreases |fs|
  {
    if |fs| > 1 {
      WeightsFront(fs[..|fs| - 1]);
      assert fs[..|fs| - 1][1..] == fs[1..][..|fs| - 2];
    } else {
      assert fs[1..] == [];
    }
  }

  /** A cluster among the children is a stored cluster: it has children of its own, and
      they stand for its point count. */
  lemma ChildAddsUp(o: Options, trees: map<int, seq<Node>>, parent: int, children: seq<Feature>, i: int)
    requires WellFormed(o) && IndexOk(o, trees) && TreesAddUp(o, trees)
    requires Children(o, trees, parent) == Ok(children) && 0 <= i < |children| && children[i].ClusterFeature?
    ensures var r := Children(o, trees, children[i].props.clusterId);
      r.Ok? && SumFeatureWeights(r.value) == children[i].props.pointCount
  {
    var k := ChildWitness(o, trees, parent, i);
    var z := OriginZoom(parent);
    assert ChildrenAddUp(o, trees, trees[z][k]);
  }

  /** Under a cluster lie as many source points as its children stand for. */
  lemma {:induction false} LeavesCount(o: Options, trees: map<int, seq<Node>>, id: int)
    requires WellFormed(o) && IndexOk(o, trees) && TreesAddUp(o, trees)
    requires Children(o, trees, id).Ok?
    ensures LeavesUnder(o, trees, id).Ok?
    ensures |LeavesUnder(o, trees, id).value| == SumFeatureWeights(Children(o, trees, id).value)
    decreases Depth(o, trees, id), 1
  {
    LeavesListCount(o, trees, id, Children(o, trees, id).value, 0);
  }

  lemma {:induction false} LeavesListCount(o: Options, trees: map<int, seq<Node>>, parent: int,
                                           children: seq<Feature>, i: int)
    requires WellFormed(o) && IndexOk(o, trees) && TreesAddUp(o, trees)
    requires Children(o, trees, parent) == Ok(children) && 0 <= i <= |children|
    ensures LeavesUnderList(o, trees, parent, children, i).Ok?
    ensures |LeavesUnderList(o, trees, parent, children, i).value| == SumFeatureWeights(children[i..])
    decreases Depth(o, trees, parent), 0, |children| - i
  {
    if i < |children| {
      LeavesChildCount(o, trees, parent, children, i);
      LeavesListCount(o, trees, parent, children, i + 1);
      WeightsFront(children[i..]);
      assert children[i..][1..] == children[i + 1..];
    }
  }

  lemma {:induction false} LeavesChildCount(o: Options, trees: map<int, seq<Node>>, parent: int,
                                            children: seq<Feature>, i: int)
    requires WellFormed(o) && IndexOk(o, trees) && TreesAddUp(o, trees)
    requires Children(o, trees, parent) == Ok(children) && 0 <= i < |children|
    ensures LeavesOfChild(o, trees, parent, children, i).Ok?
    ensures |LeavesOfChild(o, trees, parent, children, i).value| == FeatureWeight(children[i])
    decreases Depth(o, trees, parent), 0, |children| - i, 0
  {
    if children[i].ClusterFeature? {
      ChildAddsUp(o, trees, parent, children, i);
      ChildDepth(o, trees, parent, children, i);
      LeavesCount(o, trees, children[i].props.clusterId);
    }
  }

  /** `_appendLeaves` pages through the points under the cluster: what it pushes and skips
      is `PageOf` on `LeavesUnder`, as long as it does not start with a full page. */
  lemma {:induction false} LeavesAsPage(o: Options, trees: map<int, seq<Node>>, id: int,
                                        limit: int, offset: int, acc: seq<Feature>, skipped: int)
    requires WellFormed(o) && IndexOk(o, trees) && TreesAddUp(o, trees)
    requires Children(o, trees, id).Ok? && |acc| != limit
    ensures LeavesUnder(o, trees, id).Ok?
    ensures Leaves(o, trees, id, limit, offset, acc, skipped)
         == Ok(PageOf(LeavesUnder(o, trees, id).value, limit, offset, acc, skipped))
    decreases Depth(o, trees, id), 1
  {
    LeavesListAsPage(o, trees, id, Children(o, trees, id).value, 0, limit, offset, acc, skipped);
  }

  lemma {:induction false} LeavesListAsPage(o: Options, trees: map<int, seq<Node>>, parent: int,
                                            children: seq<Feature>, i: int,
                                            limit: int, offset: int, acc: seq<Feature>, skipped: int)
    requires WellFormed(o) && IndexOk(o, trees) && TreesAddUp(o, trees)
    requires Children(o, trees, parent) == Ok(children) && 0 <= i <= |children| && |acc| != limit
    ensures LeavesUnderList(o, trees, parent, children, i).Ok?
    ensures LeavesList(o, trees, parent, children, i, limit, offset, acc, skipped)
         == Ok(PageOf(LeavesUnderList(o, trees, parent, children, i).value, limit, offset, acc, skipped))
    decreases Depth(o, trees, parent), 0, |children| - i, 2
  {
    if i == |children| {
      ListEndAsPage(o, trees, parent, children, limit, offset, acc, skipped);
    } else {
      ListStepAsPage(o, trees, parent, children, i, limit, offset, acc, skipped);
    }
  }

  /** The loop at a child: page the child, then the rest of the list if there is room. */
  lemma {:induction false} ListStepAsPage(o: Options, trees: map<int, seq<Node>>, parent: int,
                                          children: seq<Feature>, i: int,
                                          limit: int, offset: int, acc: seq<Feature>, skipped: int)
    requires WellFormed(o) && IndexOk(o, trees) && TreesAddUp(o, trees)
    requires Children(o, trees, parent) == Ok(children) && 0 <= i < |children| && |acc| != limit
    ensures LeavesUnderList(o, trees, parent, children, i).Ok?
    ensures LeavesList(o, trees, parent, children, i, limit, offset, acc, skipped)
         == Ok(PageOf(LeavesUnderList(o, trees, parent, children, i).value, limit, offset, acc, skipped))
    decreases Depth(o, trees, parent), 0, |children| - i, 1
  {
    LeafStepAsPage(o, trees, parent, children, i, limit, offset, acc, skipped);
    LeavesListCount(o, trees, parent, children, i + 1);
    var page := PageOf(LeavesOfChild(o, trees, parent, children, i).value, limit, offset, acc, skipped);
    if |page.0| != limit {
      LeavesListAsPage(o, trees, parent, children, i + 1, limit, offset, page.0, page.1);
    }
    ListJoin(o, trees, parent, children, i, limit, offset, acc, skipped);
  }

  /** Past the last child the loop pushes and skips nothing. */
  lemma ListEndAsPage(o: Options, trees: map<int, seq<Node>>, parent: int, children: seq<Feature>,
                      limit: int, offset: int, acc: seq<Feature>, skipped: int)
    requires WellFormed(o) && IndexOk(o, trees) && Children(o, trees, parent) == Ok(children)
    ensures LeavesUnderList(o, trees, parent, children, |children|) == Ok([])
    ensures LeavesList(o, trees, parent, children, |children|, limit, offset, acc, skipped)
         == Ok(PageOf([], limit, offset, acc, skipped))
  {
    assert acc + [] == acc;
  }

  /** One child paged, then the rest of the children paged from where it left off (or
      nothing more once the page is full), is the paging of all their points. */
  lemma ListJoin(o: Options, trees: map<int, seq<Node>>, parent: int, children: seq<Feature>, i: int,
                 limit: int, offset: int, acc: seq<Feature>, skipped: int)
    requires WellFormed(o) && IndexOk(o, trees)
    requires Children(o, trees, parent) == Ok(children) && 0 <= i < |children| && |acc| != limit
    requires LeavesOfChild(o, trees, parent, children, i).Ok?
    requires LeavesUnderList(o, trees, parent, children, i + 1).Ok?
    requires LeafStep(o, trees, parent, children, i, limit, offset, acc, skipped)
          == Ok(PageOf(LeavesOfChild(o, trees, parent, children, i).value, limit, offset, acc, skipped))
    requires var page := PageOf(LeavesOfChild(o, trees, parent, children, i).value, limit, offset, acc, skipped);
      |page.0| != limit ==>
        LeavesList(o, trees, parent, children, i + 1, limit, offset, page.0, page.1)
        == Ok(PageOf(LeavesUnderList(o, trees, parent, children, i + 1).value, limit, offset, page.0, page.1))
    ensures LeavesUnderList(o, trees, parent, children, i).Ok?
    ensures LeavesList(o, trees, parent, children, i, limit, offset, acc, skipped)
         == Ok(PageOf(LeavesUnderList(o, trees, parent, children, i).value, limit, offset, acc, skipped))
  {
    var h := LeavesOfChild(o, trees, parent, children, i).value;
    var t := LeavesUnderList(o, trees, parent, children, i + 1).value;
    assert LeavesUnderList(o, trees, parent, children, i) == Ok(h + t);
    var (a1, s1) := PageOf(h, limit, offset, acc, skipped);
    PageConcat(h, t, limit, offset, acc, skipped);
  }

  lemma {:induction false} LeafStepAsPage(o: Options, trees: map<int, seq<Node>>, parent: int,
                                          children: seq<Feature>, i: int,
                                          limit: int, offset: int, acc: seq<Feature>, skipped: int)
    requires WellFormed(o) && IndexOk(o, trees) && TreesAddUp(o, trees)
    requires Children(o, trees, parent) == Ok(children) && 0 <= i < |children| && |acc| != limit
    ensures LeavesOfChild(o, trees, parent, children, i).Ok?
    ensures LeafStep(o, trees, parent, children, i, limit, offset, acc, skipped)
         == Ok(PageOf(LeavesOfChild(o, trees, parent, children, i).value, limit, offset, acc, skipped))
    decreases Depth(o, trees, parent), 0, |children| - i, 0
  {
    var f := children[i];
    LeavesChildCount(o, trees, parent, children, i);
    if f.ClusterFeature? && skipped + f.props.pointCount > offset {
      ChildDepth(o, trees, parent, children, i);
      LeavesAsPage(o, trees, f.props.clusterId, limit, offset, acc, skipped);
      StepEnter(o, trees, parent, children, i, limit, offset, acc, skipped);
    } else {
      StepPass(o, trees, parent, children, i, limit, offset, acc, skipped);
    }
  }

  /** A cluster that reaches past `offset` is paged through. */
  lemma StepEnter(o: Options, trees: map<int, seq<Node>>, parent: int, children: seq<Feature>, i: int,
                  limit: int, offset: int, acc: seq<Feature>, skipped: int)
    requires WellFormed(o) && IndexOk(o, trees)
    requires Children(o, trees, parent) == Ok(children) && 0 <= i < |children|
    requires children[i].ClusterFeature? && skipped + children[i].props.pointCount > offset
    requires LeavesUnder(o, trees, children[i].props.clusterId).Ok?
    requires Leaves(o, trees, children[i].props.clusterId, limit, offset, acc, skipped)
          == Ok(PageOf(LeavesUnder(o, trees, children[i].props.clusterId).value, limit, offset, acc, skipped))
    ensures LeavesOfChild(o, trees, parent, children, i).Ok?
    ensures LeafStep(o, trees, parent, children, i, limit, offset, acc, skipped)
         == Ok(PageOf(LeavesOfChild(o, trees, parent, children, i).value, limit, offset, acc, skipped))
  {
    ChildDepth(o, trees, parent, children, i);
    assert LeavesOfChild(o, trees, parent, children, i) == LeavesUnder(o, trees, children[i].props.clusterId);
  }

  /** A cluster wholly before `offset` is skipped; a point is skipped or pushed. */
  lemma StepPass(o: Options, trees: map<int, seq<Node>>, parent: int, children: seq<Feature>, i: int,
                 limit: int, offset: int, acc: seq<Feature>, skipped: int)
    requires WellFormed(o) && IndexOk(o, trees)
    requires Children(o, trees, parent) == Ok(children) && 0 <= i < |children|
    requires children[i].ClusterFeature? ==> skipped + children[i].props.pointCount <= offset
    requires LeavesOfChild(o, trees, parent, children, i).Ok?
    requires |LeavesOfChild(o, trees, parent, children, i).value| == FeatureWeight(children[i])
    ensures LeafStep(o, trees, parent, children, i, limit, offset, acc, skipped)
         == Ok(PageOf(LeavesOfChild(o, trees, parent, children, i).value, limit, offset, acc, skipped))
  {
    var f := children[i];
    if f.ClusterFeature? {
      PageSkipAll(LeavesOfChild(o, trees, parent, children, i).value, limit, offset, acc, skipped);
    } else {
      assert LeavesOfChild(o, trees, parent, children, i) == Ok([f]);
      PageOne(f, limit, offset, acc, skipped);
    }
  }

  /** `getLeaves(clusterId, limit, offset)` on a cluster that has children, when every
      stored cluster adds up: it returns the page of the points under the cluster that
      starts at `offset` (0 when missing) and holds `limit` points (10 when missing or 0,
      the rest of the list when negative); there are as many points under the cluster as
      its children stand for. */
  lemma GetLeavesPage(o: Options, trees: map<int, seq<Node>>, clusterId: int, limit: Option<int>, offset: Option<int>)
    requires WellFormed(o) && IndexOk(o, trees) && TreesAddUp(o, trees)
    requires Children(o, trees, clusterId).Ok?
    ensures var ps := LeavesUnder(o, trees, clusterId);
      && ps.Ok? && |ps.value| == SumFeatureWeights(Children(o, trees, clusterId).value)
      && LeafPage(o, trees, clusterId, limit, offset)
         == Ok(PageSlice(ps.value, LimitOrDefault(limit), OffsetOrDefault(offset)))
  {
    var lim, off := LimitOrDefault(limit), OffsetOrDefault(offset);
    LeavesCount(o, trees, clusterId);
    LeavesAsPage(o, trees, clusterId, lim, off, [], 0);
    var ps := LeavesUnder(o, trees, clusterId).value;
    var r := Leaves(o, trees, clusterId, lim, off, [], 0);
    assert r == Ok(PageOf(ps, lim, off, [], 0));
    PageFromStart(ps, lim, off);
    assert LeafPage(o, trees, clusterId, limit, offset) == Ok(r.value.0);
  }

  /** Paging a whole list from an empty page is taking its slice. */
  lemma PageFromStart(ps: seq<Feature>, limit: int, offset: int)
    requires limit != 0
    ensures PageOf(ps, limit, offset, [], 0) == (PageSlice(ps, limit, offset), Clamp(offset, |ps|))
  {
    assert [] + PageSlice(ps, limit, offset) == PageSlice(ps, limit, offset);
  }

  /** A cluster stored by `load` has exactly its point count of points under it. */
  lemma StoredLeavesCount(o: Options, trees: map<int, seq<Node>>, z: int, k: int)
    requires WellFormed(o) && IndexOk(o, trees) && TreesAddUp(o, trees)
    requires z in trees && 0 <= k < |trees[z]| && IsCluster(trees[z][k])
    ensures LeavesUnder(o, trees, trees[z][k].id).Ok?
    ensures |LeavesUnder(o, trees, trees[z][k].id).value| == Weight(trees[z][k])
  {
    assert ChildrenAddUp(o, trees, trees[z][k]);
    LeavesCount(o, trees, trees[z][k].id);
  }

  /** Consecutive pages join up: the page of `l1` points at `off` followed by the page of
      `l2` points at `off + l1` is the page of `l1 + l2` points at `off`. */
  lemma PagesJoin(ps: seq<Feature>, off: int, l1: int, l2: int)
    requires 0 <= off && l1 >= 1 && l2 >= 1
    ensures PageSlice(ps, l1, off) + PageSlice(ps, l2, off + l1) == PageSlice(ps, l1 + l2, off)
  {
    var d := Clamp(off, |ps|);
    var m := Min(d + l1, |ps|);
    assert Clamp(off + l1, |ps|) == m;
    assert ps[d..m] + ps[m..Min(m + l2, |ps|)] == ps[d..Min(m + l2, |ps|)];
  }
}
