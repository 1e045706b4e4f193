/**
 * The edge-splitting script (scripts/04_3d_concepts/modeling/geometry/
 * geometry_polgyon_edges_2024.0.py): every polygon that owns a selected raw edge is removed and
 * replaced by two polygons (a triangle and a quadrangle) or, in triangle mode, three triangles,
 * sharing a new point in the middle of the split edge; UVW data follows the polygons and the new
 * edge selection marks the two halves of every split edge.
 *
 * Points are of any type `P` with equality and the UVW coordinates of any type `U`; the linear
 * interpolation `MixVec(x, y, 0.5)` is the parameter `mix` (and `uvMix` for UVWs).
 */
module EdgeSplit {
  import opened Wrappers
  import opened Mesh

  /** One entry of `splitData`: the polygon index, the local edge, the polygon and its UVWs. */
  datatype SplitItem<U> = SplitItem(pid: nat, eid: nat, poly: CPolygon, uvw: Option<Quad<U>>)

  datatype SplitOutcome<P, U> =
    | NotApplicable
    | DuplicatePolygon(pid: nat)
    | Split(state: SplitState<P, U>)

  /** Every point index of every polygon names an existing point. */
  predicate ValidMesh(pointCount: nat, polygons: seq<CPolygon>) {
    forall i :: 0 <= i < |polygons| ==> ValidPolygon(pointCount, polygons[i])
  }

  predicate ValidPolygon(pointCount: nat, p: CPolygon) {
    0 <= p.a < pointCount && 0 <= p.b < pointCount && 0 <= p.c < pointCount && 0 <= p.d < pointCount
  }

  /** Two selected raw edges belong to the same polygon. */
  predicate SharesPolygon(edges: seq<nat>) {
    exists i, j :: 0 <= i < j < |edges| && edges[i] / 4 == edges[j] / 4
  }

  function Pids<U>(items: seq<SplitItem<U>>): set<int> {
    set k | 0 <= k < |items| :: items[k].pid
  }

  /** The `splitData` entry the first loop builds for raw edge `raw`. */
  function ItemFor<U>(polygons: seq<CPolygon>, uvwData: seq<Quad<U>>, raw: nat): SplitItem<U>
    requires raw / 4 < |polygons|
    requires uvwData == [] || |uvwData| == |polygons|
  {
    SplitItem(raw / 4, raw % 4, polygons[raw / 4], if uvwData == [] then None else Some(uvwData[raw / 4]))
  }

  // ---------------------------------------------------------------------------------------------
  // First loop: remove the polygons to split (lines 105-129)
  // ---------------------------------------------------------------------------------------------

  datatype Collected<U> =
    | Duplicate(pid: nat)
    | Collected(items: seq<SplitItem<U>>, polygons: seq<CPolygon>, uvwData: seq<Quad<U>>)

  lemma PidsAppend<U>(items: seq<SplitItem<U>>, x: SplitItem<U>)
    ensures Pids(items + [x]) == Pids(items) + {x.pid}
  {
    var s := items + [x];
    assert s[|items|] == x;
    forall p | p in Pids(items) ensures p in Pids(s) {
      var k :| 0 <= k < |items| && items[k].pid == p;
      assert s[k] == items[k];
    }
  }

  /** The polygons of the first `i` selected raw edges strictly increase. */
  predicate DistinctPolygonsUpTo(selectedEdges: seq<nat>, i: nat) {
    forall a, b :: 0 <= a < b < i && b < |selectedEdges| ==> selectedEdges[a] / 4 < selectedEdges[b] / 4
  }

  lemma NotSharedUpTo(selectedEdges: seq<nat>, i: nat)
    requires i <= |selectedEdges|
    requires DistinctPolygonsUpTo(selectedEdges, i)
    ensures !SharesPolygon(selectedEdges[..i])
  {
    var s := selectedEdges[..i];
    assert forall a, b :: 0 <= a < b < |s| ==> s[a] / 4 < s[b] / 4;
  }

  /** The entries the first loop has collected after `i` selected raw edges: one per edge, all
      on different polygons. */
  ghost predicate ItemsCollected<U>(polygons: seq<CPolygon>, uvwData: seq<Quad<U>>, selectedEdges: seq<nat>,
                                    i: nat, items: seq<SplitItem<U>>)
    requires forall k :: 0 <= k < |selectedEdges| ==> selectedEdges[k] < 4 * |polygons|
    requires uvwData == [] || |uvwData| == |polygons|
  {
    && i <= |selectedEdges|
    && |items| == i
    && (forall k :: 0 <= k < i ==> items[k] == ItemFor(polygons, uvwData, selectedEdges[k]))
    && |Pids(items)| == i
  }

  /** The polygons (and UVWs) kept once the polygons in `taken` are popped. */
  ghost predicate ListsKept<U>(polygons: seq<CPolygon>, uvwData: seq<Quad<U>>, taken: set<int>,
                               polys: seq<CPolygon>, uvws: seq<Quad<U>>) {
    && polys == Without(polygons, taken)
    && uvws == if uvwData == [] then [] else Without(uvwData, taken)
  }

  /** An edge whose polygon is already collected follows an edge of the same polygon. */
  lemma CollectDuplicate<U>(polygons: seq<CPolygon>, uvwData: seq<Quad<U>>, selectedEdges: seq<nat>, i: nat,
                            items: seq<SplitItem<U>>)
    requires StrictlyIncreasing(selectedEdges)
    requires forall k :: 0 <= k < |selectedEdges| ==> selectedEdges[k] < 4 * |polygons|
    requires uvwData == [] || |uvwData| == |polygons|
    requires ItemsCollected(polygons, uvwData, selectedEdges, i, items)
    requires DistinctPolygonsUpTo(selectedEdges, i)
    requires i < |selectedEdges| && selectedEdges[i] / 4 in Pids(items)
    ensures 0 < i && selectedEdges[i - 1] / 4 == selectedEdges[i] / 4
    ensures SharesPolygon(selectedEdges) && !SharesPolygon(selectedEdges[..i])
  {
    var pid := selectedEdges[i] / 4;
    var k :| 0 <= k < i && items[k].pid == pid;
    assert selectedEdges[k] <= selectedEdges[i - 1] < selectedEdges[i];
    NotSharedUpTo(selectedEdges, i);
  }

  /** Collecting the entry of a new edge, on a new polygon, keeps the entries in step. */
  lemma CollectItem<U>(polygons: seq<CPolygon>, uvwData: seq<Quad<U>>, selectedEdges: seq<nat>, i: nat,
                       items: seq<SplitItem<U>>)
    requires forall k :: 0 <= k < |selectedEdges| ==> selectedEdges[k] < 4 * |polygons|
    requires uvwData == [] || |uvwData| == |polygons|
    requires ItemsCollected(polygons, uvwData, selectedEdges, i, items)
    requires i < |selectedEdges| && selectedEdges[i] / 4 !in Pids(items)
    ensures var grown := items + [ItemFor(polygons, uvwData, selectedEdges[i])];
      && ItemsCollected(polygons, uvwData, selectedEdges, i + 1, grown)
      && Pids(grown) == Pids(items) + {selectedEdges[i] / 4}
  {
    var x := ItemFor(polygons, uvwData, selectedEdges[i]);
    var grown := items + [x];
    forall k | 0 <= k < i + 1 ensures grown[k] == ItemFor(polygons, uvwData, selectedEdges[k]) {
      if k < i {
        assert grown[k] == items[k];
      }
    }
    assert x.pid == selectedEdges[i] / 4;
    PidsAppend(items, x);
    assert |Pids(grown)| == i + 1;
  }

  /** The polygons of the earlier edges, none of them that of edge `i`, all lie below it. */
  lemma EarlierPolygonsBelow<U>(polygons: seq<CPolygon>, uvwData: seq<Quad<U>>, selectedEdges: seq<nat>, i: nat,
                                items: seq<SplitItem<U>>)
    requires StrictlyIncreasing(selectedEdges)
    requires forall k :: 0 <= k < |selectedEdges| ==> selectedEdges[k] < 4 * |polygons|
    requires uvwData == [] || |uvwData| == |polygons|
    requires i < |selectedEdges| && |items| == i
    requires forall k :: 0 <= k < i ==> items[k] == ItemFor(polygons, uvwData, selectedEdges[k])
    requires DistinctPolygonsUpTo(selectedEdges, i)
    requires selectedEdges[i] / 4 !in Pids(items)
    ensures forall p :: p in Pids(items) ==> 0 <= p < selectedEdges[i] / 4
    ensures DistinctPolygonsUpTo(selectedEdges, i + 1)
  {
    var pid := selectedEdges[i] / 4;
    forall k | 0 <= k < i ensures selectedEdges[k] / 4 < pid {
      assert selectedEdges[k] < selectedEdges[i];
      assert items[k].pid in Pids(items);
    }
  }

  /** Popping position `pid - |taken|`, when every polygon taken so far lies below `pid`, pops
      polygon `pid` (and its UVWs). */
  lemma PopKept<U>(polygons: seq<CPolygon>, uvwData: seq<Quad<U>>, taken: set<int>, pid: nat,
                   polys: seq<CPolygon>, uvws: seq<Quad<U>>)
    requires uvwData == [] || |uvwData| == |polygons|
    requires pid < |polygons|
    requires forall p :: p in taken ==> 0 <= p < pid
    requires ListsKept(polygons, uvwData, taken, polys, uvws)
    ensures var j := pid - |taken|;
      && 0 <= j < |polys| && polys[j] == polygons[pid]
      && (uvws != [] <==> uvwData != [])
      && (uvws != [] ==> j < |uvws| && uvws[j] == uvwData[pid])
      && ListsKept(polygons, uvwData, taken + {pid}, polys[..j] + polys[j + 1..],
                   if uvws != [] then uvws[..j] + uvws[j + 1..] else uvws)
  {
    PopAfterWithout(polygons, taken, pid);
    if uvwData != [] {
      PopAfterWithout(uvwData, taken, pid);
    }
  }

  /**
   * Walks the selected raw edges in increasing order, stops at the first one whose polygon is
   * already collected, and otherwise pops each polygon (and its UVWs) at its index shifted by the
   * number of polygons popped before it.
   */
  method CollectSplits<U>(polygons: seq<CPolygon>, uvwData: seq<Quad<U>>, selectedEdges: seq<nat>)
    returns (r: Collected<U>)
    requires StrictlyIncreasing(selectedEdges)
    requires forall k :: 0 <= k < |selectedEdges| ==> selectedEdges[k] < 4 * |polygons|
    requires uvwData == [] || |uvwData| == |polygons|
    ensures r.Duplicate? <==> SharesPolygon(selectedEdges)
    ensures r.Duplicate? ==> exists j :: (0 < j < |selectedEdges| && selectedEdges[j - 1] / 4 == r.pid
      && selectedEdges[j] / 4 == r.pid && !SharesPolygon(selectedEdges[..j]))
    ensures r.Collected? ==>
      && ItemsCollected(polygons, uvwData, selectedEdges, |selectedEdges|, r.items)
      && ListsKept(polygons, uvwData, Pids(r.items), r.polygons, r.uvwData)
  {
    var items: seq<SplitItem<U>> := [];
    var polys := polygons;
    var uvws := uvwData;
    var i := 0;
    WithoutNothing(polygons);
    WithoutNothing(uvwData);
    while i < |selectedEdges|
      invariant ItemsCollected(polygons, uvwData, selectedEdges, i, items)
      invariant ListsKept(polygons, uvwData, Pids(items), polys, uvws)
      invariant DistinctPolygonsUpTo(selectedEdges, i)
    {
      var pid := selectedEdges[i] / 4;
      if pid in Pids(items) {
        CollectDuplicate(polygons, uvwData, selectedEdges, i, items);
        return Duplicate(pid);
      }
      items, polys, uvws := PopSplit(polygons, uvwData, selectedEdges, i, items, polys, uvws);
      i := i + 1;
    }
    NotSharedUpTo(selectedEdges, i);
    assert selectedEdges[..i] == selectedEdges;
    r := Collected(items, polys, uvws);
  }

  /** One step of the first loop, for an edge whose polygon is new: pop the polygon (and its
      UVWs) and collect its entry. */
  method PopSplit<U>(polygons: seq<CPolygon>, uvwData: seq<Quad<U>>, selectedEdges: seq<nat>, i: nat,
                     items: seq<SplitItem<U>>, polys: seq<CPolygon>, uvws: seq<Quad<U>>)
    returns (items': seq<SplitItem<U>>, polys': seq<CPolygon>, uvws': seq<Quad<U>>)
    requires StrictlyIncreasing(selectedEdges)
    requires forall k :: 0 <= k < |selectedEdges| ==> selectedEdges[k] < 4 * |polygons|
    requires uvwData == [] || |uvwData| == |polygons|
    requires ItemsCollected(polygons, uvwData, selectedEdges, i, items)
    requires ListsKept(polygons, uvwData, Pids(items), polys, uvws)
    requires DistinctPolygonsUpTo(selectedEdges, i)
    requires i < |selectedEdges| && selectedEdges[i] / 4 !in Pids(items)
    ensures ItemsCollected(polygons, uvwData, selectedEdges, i + 1, items')
    ensures ListsKept(polygons, uvwData, Pids(items'), polys', uvws')
    ensures DistinctPolygonsUpTo(selectedEdges, i + 1)
  {
    var raw := selectedEdges[i];
    var pid, eid := raw / 4, raw % 4;
    ghost var taken := Pids(items);
    EarlierPolygonsBelow(polygons, uvwData, selectedEdges, i, items);
    PopKept(polygons, uvwData, taken, pid, polys, uvws);
    var j := pid - |items|;
    var poly := polys[j];
    polys' := polys[..j] + polys[j + 1..];
    var uvw: Option<Quad<U>> := if uvws != [] then Some(uvws[j]) else None;
    uvws' := if uvws != [] then uvws[..j] + uvws[j + 1..] else uvws;
    assert ListsKept(polygons, uvwData, taken + {pid}, polys', uvws');
    CollectItem(polygons, uvwData, selectedEdges, i, items);
    ghost var item := ItemFor(polygons, uvwData, raw);
    assert SplitItem(pid, eid, poly, uvw) == item;
    items' := items + [SplitItem(pid, eid, poly, uvw)];
    assert Pids(items') == taken + {pid};
  }

  // ---------------------------------------------------------------------------------------------
  // Second loop: build the new points, polygons, UVWs and edges (lines 153-207)
  // ---------------------------------------------------------------------------------------------

  /** Number of polygons replacing a split one: a triangle and a quadrangle, or three triangles. */
  function FaceCount(isQuadMode: bool): nat {
    if isQuadMode then 2 else 3
  }

  /** Index of the first new polygon of the `k`-th split, after `base` kept polygons. */
  function FaceStart(base: nat, isQuadMode: bool, k: nat): nat {
    if isQuadMode then base + 2 * k else base + 3 * k
  }

  /** The polygons (or UVW quads) replacing one whose corners, rotated so that the split edge is
      `a`-`b`, are `r`, with `mid` in the middle of `a`-`b`. */
  function SplitFaces<T>(r: seq<T>, mid: T, isQuadMode: bool): (faces: seq<Quad<T>>)
    requires |r| == 4
    ensures |faces| == FaceCount(isQuadMode)
  {
    if isQuadMode then [Quad(r[0], mid, r[3], r[3]), Quad(mid, r[1], r[2], r[3])]
    else [Quad(r[0], mid, r[3], r[3]), Quad(mid, r[1], r[2], r[2]), Quad(mid, r[2], r[3], r[3])]
  }

  /** The split edge of an item: corner `eid` to the corner after it. */
  function SplitEdge<U>(item: SplitItem<U>): (int, int)
    requires item.eid < 4
  {
    (Corners(item.poly)[item.eid], Corners(item.poly)[(item.eid + 1) % 4])
  }

  predicate ValidItems<U>(items: seq<SplitItem<U>>, pointCount: nat) {
    forall k :: 0 <= k < |items| ==> items[k].eid < 4 && ValidPolygon(pointCount, items[k].poly)
  }

  /** `points.index(x) if x in points else len(points)`. */
  function IndexOf<P(==)>(s: seq<P>, x: P): (r: nat)
    ensures r <= |s|
    ensures r < |s| ==> s[r] == x
    ensures forall t :: 0 <= t < r ==> s[t] != x
  {
    if s == [] then 0
    else if s[0] == x then 0
    else 1 + IndexOf(s[1..], x)
  }

  /** The lists the second loop grows: points, polygons, UVWs, the new raw edge selection and
      `pointData`, the two end points each middle point was mixed from. */
  datatype SplitState<P, U> = SplitState(points: seq<P>, polygons: seq<CPolygon>, uvwData: seq<Quad<U>>,
                                         edges: seq<int>, pointData: map<int, (int, int)>)

  function MidPoint<P, U>(points: seq<P>, item: SplitItem<U>, mix: (P, P) -> P): P
    requires item.eid < 4 && ValidPolygon(|points|, item.poly)
  {
    mix(points[SplitEdge(item).0], points[SplitEdge(item).1])
  }

  /** `mid` is the first index of the point `pts[at]`. */
  ghost predicate FirstIndexOf<P>(pts: seq<P>, at: nat, mid: int) {
    0 <= mid <= at < |pts| && pts[mid] == pts[at] && forall t :: 0 <= t < mid ==> pts[t] != pts[at]
  }

  /** The UVW quads replacing those of a split polygon. */
  function SplitUvws<U>(item: SplitItem<U>, isQuadMode: bool, uvMix: (U, U) -> U): seq<Quad<U>>
    requires item.eid < 4 && item.uvw.Some?
  {
    var ur := Rotate(Corners(item.uvw.value), item.eid);
    SplitFaces(ur, uvMix(ur[0], ur[1]), isQuadMode)
  }

  predicate AllUvw<U>(items: seq<SplitItem<U>>) {
    forall k :: 0 <= k < |items| ==> items[k].uvw.Some?
  }

  predicate NoUvw<U>(items: seq<SplitItem<U>>) {
    forall k :: 0 <= k < |items| ==> items[k].uvw.None?
  }

  // The parts of the second loop's result after its first `k` iterations.

  /** The old points, then the middle of the split edge of each of the first `k` items. */
  ghost predicate PointsSplit<P, U>(points: seq<P>, items: seq<SplitItem<U>>, k: nat, mix: (P, P) -> P, pts: seq<P>)
    requires k <= |items| && ValidItems(items, |points|)
  {
    && |pts| == |points| + k && pts[..|points|] == points
    && forall t :: 0 <= t < k ==> pts[|points| + t] == MidPoint(points, items[t], mix)
  }

  /** The kept polygons, then the replacing polygons of each of the first `k` items, which
      reference the first point equal to that item's middle. */
  ghost predicate PolygonsSplit<P, U>(n: nat, polygons: seq<CPolygon>, items: seq<SplitItem<U>>, k: nat,
                                      isQuadMode: bool, pts: seq<P>, polys: seq<CPolygon>)
    requires k <= |items| && forall t :: 0 <= t < |items| ==> items[t].eid < 4
  {
    var q := |polygons|;
    && |polys| == FaceStart(q, isQuadMode, k) && polys[..q] == polygons
    && forall t :: 0 <= t < k ==> FacesAt(n, q, items[t], t, isQuadMode, pts, polys)
  }

  /** The replacing polygons of item number `t`, after `q` kept polygons, reference the first
      point equal to its middle, the point `n + t`. */
  ghost predicate FacesAt<P, U>(n: nat, q: nat, item: SplitItem<U>, t: nat, isQuadMode: bool,
                                pts: seq<P>, polys: seq<CPolygon>)
    requires item.eid < 4
  {
    var s, m := FaceStart(q, isQuadMode, t), FaceCount(isQuadMode);
    && s + m <= |polys|
    && FirstIndexOf(pts, n + t, polys[s].b)
    && polys[s..s + m] == SplitFaces(Rotate(Corners(item.poly), item.eid), polys[s].b, isQuadMode)
  }

  /** The middle point of each of the first `k` items has an entry in `pointData`. */
  ghost predicate MidsRecorded(q: nat, k: nat, isQuadMode: bool, polys: seq<CPolygon>, pointData: map<int, (int, int)>) {
    && FaceStart(q, isQuadMode, k) <= |polys|
    && forall t :: 0 <= t < k ==> polys[FaceStart(q, isQuadMode, t)].b in pointData
  }

  /** The raw edges `a`-`b` of the first two replacing polygons of each of the first `k` items. */
  ghost predicate EdgesSplit(q: nat, k: nat, isQuadMode: bool, edges: seq<int>) {
    && |edges| == 2 * k
    && forall t :: 0 <= t < k ==>
         edges[2 * t] == 4 * FaceStart(q, isQuadMode, t) && edges[2 * t + 1] == 4 * FaceStart(q, isQuadMode, t) + 4
  }

  /** The kept UVWs, then the replacing UVWs of each of the first `k` items. */
  ghost predicate UvwSplit<U>(uvwData: seq<Quad<U>>, items: seq<SplitItem<U>>, k: nat, isQuadMode: bool,
                              uvMix: (U, U) -> U, uvws: seq<Quad<U>>)
    requires k <= |items| && forall t :: 0 <= t < |items| ==> items[t].eid < 4
    requires AllUvw(items)
  {
    && |uvws| == FaceStart(|uvwData|, isQuadMode, k) && uvws[..|uvwData|] == uvwData
    && forall t :: 0 <= t < k ==> UvwsAt(|uvwData|, items[t], t, isQuadMode, uvMix, uvws)
  }

  /** The replacing UVWs of item number `t`, after `q` kept ones. */
  ghost predicate UvwsAt<U>(q: nat, item: SplitItem<U>, t: nat, isQuadMode: bool, uvMix: (U, U) -> U,
                            uvws: seq<Quad<U>>)
    requires item.eid < 4 && item.uvw.Some?
  {
    var s, m := FaceStart(q, isQuadMode, t), FaceCount(isQuadMode);
    s + m <= |uvws| && uvws[s..s + m] == SplitUvws(item, isQuadMode, uvMix)
  }

  /** Every entry of `pointData` maps a point to the two old points it is the middle of. */
  ghost predicate PointDataSound<P>(points: seq<P>, mix: (P, P) -> P, pts: seq<P>, pointData: map<int, (int, int)>) {
    forall key :: key in pointData ==>
      && 0 <= key < |pts| && 0 <= pointData[key].0 < |points| && 0 <= pointData[key].1 < |points|
      && pts[key] == mix(points[pointData[key].0], points[pointData[key].1])
  }

  /**
   * What the second loop produces from the `points`, the kept `polygons` and `uvwData` and the
   * collected `items`: the old points followed by the middle of every split edge; the kept
   * polygons followed, for every item, by its `FaceCount` replacing polygons, which reference the
   * first point equal to the item's middle; the UVWs built the same way; the raw edges `a`-`b` of
   * the first two replacing polygons of every item; and `pointData` mapping middle points to the
   * two old points they were mixed from.
   */
  ghost predicate SplitsApplied<P, U>(points: seq<P>, polygons: seq<CPolygon>, uvwData: seq<Quad<U>>,
                                      items: seq<SplitItem<U>>, isQuadMode: bool, mix: (P, P) -> P,
                                      uvMix: (U, U) -> U, r: SplitState<P, U>)
    requires ValidItems(items, |points|)
  {
    Applying(points, polygons, uvwData, items, isQuadMode, mix, uvMix, |items|, r)
  }

  /** The state of the second loop after the first `k` items. */
  ghost predicate Applying<P, U>(points: seq<P>, polygons: seq<CPolygon>, uvwData: seq<Quad<U>>,
                                 items: seq<SplitItem<U>>, isQuadMode: bool, mix: (P, P) -> P,
                                 uvMix: (U, U) -> U, k: nat, st: SplitState<P, U>)
    requires ValidItems(items, |points|)
  {
    && k <= |items|
    && PointsSplit(points, items, k, mix, st.points)
    && PolygonsSplit(|points|, polygons, items, k, isQuadMode, st.points, st.polygons)
    && MidsRecorded(|polygons|, k, isQuadMode, st.polygons, st.pointData)
    && EdgesSplit(|polygons|, k, isQuadMode, st.edges)
    && (AllUvw(items) ==> UvwSplit(uvwData, items, k, isQuadMode, uvMix, st.uvwData))
    && (NoUvw(items) ==> st.uvwData == uvwData)
    && PointDataSound(points, mix, st.points, st.pointData)
  }

  /** Before the second loop nothing is split yet. */
  lemma ApplyingStart<P, U>(points: seq<P>, polygons: seq<CPolygon>, uvwData: seq<Quad<U>>,
                            items: seq<SplitItem<U>>, isQuadMode: bool, mix: (P, P) -> P, uvMix: (U, U) -> U)
    requires ValidItems(items, |points|)
    ensures Applying(points, polygons, uvwData, items, isQuadMode, mix, uvMix, 0,
                     SplitState(points, polygons, uvwData, [], map[]))
  {
    assert points[..|points|] == points;
    assert polygons[..|polygons|] == polygons;
    assert uvwData[..|uvwData|] == uvwData;
  }

  lemma PointsStep<P, U>(points: seq<P>, items: seq<SplitItem<U>>, k: nat, mix: (P, P) -> P, pts: seq<P>)
    requires k < |items| && ValidItems(items, |points|)
    requires PointsSplit(points, items, k, mix, pts)
    ensures PointsSplit(points, items, k + 1, mix, pts + [MidPoint(points, items[k], mix)])
  {
    var grown := pts + [MidPoint(points, items[k], mix)];
    assert grown[..|points|] == pts[..|points|];
  }

  lemma PolygonsStep<P, U>(n: nat, polygons: seq<CPolygon>, items: seq<SplitItem<U>>, k: nat,
                           isQuadMode: bool, pts: seq<P>, polys: seq<CPolygon>, mpoint: P, mid: int)
    requires k < |items| && forall t :: 0 <= t < |items| ==> items[t].eid < 4
    requires PolygonsSplit(n, polygons, items, k, isQuadMode, pts, polys)
    requires |pts| == n + k
    requires 0 <= mid <= |pts| && (mid < |pts| ==> pts[mid] == mpoint) && forall t :: 0 <= t < mid ==> pts[t] != mpoint
    ensures PolygonsSplit(n, polygons, items, k + 1, isQuadMode, pts + [mpoint],
                          polys + SplitFaces(Rotate(Corners(items[k].poly), items[k].eid), mid, isQuadMode))
  {
    var q := |polygons|;
    var faces := SplitFaces(Rotate(Corners(items[k].poly), items[k].eid), mid, isQuadMode);
    var grownPts, grownPolys := pts + [mpoint], polys + faces;
    PrefixSlice(polys, faces, 0, q);
    forall t | 0 <= t < k ensures FacesAt(n, q, items[t], t, isQuadMode, grownPts, grownPolys) {
      FacesAtGrown(n, q, items[t], t, isQuadMode, pts, polys, mpoint, faces);
    }
    assert grownPolys[|polys|..] == faces;
    FirstIndexOfAppended(pts, mpoint, mid);
    assert FacesAt(n, q, items[k], k, isQuadMode, grownPts, grownPolys);
  }

  /** Appending a point and polygons keeps the replacing polygons of an earlier item in place. */
  lemma FacesAtGrown<P, U>(n: nat, q: nat, item: SplitItem<U>, t: nat, isQuadMode: bool,
                           pts: seq<P>, polys: seq<CPolygon>, x: P, faces: seq<CPolygon>)
    requires item.eid < 4 && FacesAt(n, q, item, t, isQuadMode, pts, polys)
    ensures FacesAt(n, q, item, t, isQuadMode, pts + [x], polys + faces)
  {
    var s, m := FaceStart(q, isQuadMode, t), FaceCount(isQuadMode);
    PrefixSlice(polys, faces, s, s + m);
    FirstIndexOfExtended(pts, n + t, polys[s].b, x);
  }

  /** A slice inside the first part of a concatenation is a slice of that part. */
  lemma PrefixSlice<T>(a: seq<T>, b: seq<T>, i: nat, j: nat)
    requires i <= j <= |a|
    ensures (a + b)[i..j] == a[i..j] && (i < j ==> (a + b)[i] == a[i])
  {
  }

  /** Appending a point keeps the first index of an earlier one. */
  lemma FirstIndexOfExtended<P>(pts: seq<P>, at: nat, mid: int, x: P)
    requires FirstIndexOf(pts, at, mid)
    ensures FirstIndexOf(pts + [x], at, mid)
  {
    var grown := pts + [x];
    assert grown[mid] == pts[mid] && grown[at] == pts[at];
    forall t | 0 <= t < mid ensures grown[t] != grown[at] {
      assert grown[t] == pts[t];
    }
  }

  /** The first index of an appended point: where it already was, or its new position. */
  lemma FirstIndexOfAppended<P>(pts: seq<P>, x: P, mid: int)
    requires 0 <= mid <= |pts| && (mid < |pts| ==> pts[mid] == x) && forall t :: 0 <= t < mid ==> pts[t] != x
    ensures FirstIndexOf(pts + [x], |pts|, mid)
  {
    var grown := pts + [x];
    assert grown[|pts|] == x;
    if mid < |pts| {
      assert grown[mid] == pts[mid];
    }
    forall t | 0 <= t < mid ensures grown[t] != x {
      assert grown[t] == pts[t];
    }
  }

  lemma MidsStep(q: nat, k: nat, isQuadMode: bool, polys: seq<CPolygon>, pointData: map<int, (int, int)>,
                 faces: seq<CPolygon>, mid: int, e: (int, int))
    requires MidsRecorded(q, k, isQuadMode, polys, pointData)
    requires |polys| == FaceStart(q, isQuadMode, k) && |faces| == FaceCount(isQuadMode) && faces[0].b == mid
    ensures MidsRecorded(q, k + 1, isQuadMode, polys + faces, pointData[mid := e])
  {
    var grown := polys + faces;
    forall t | 0 <= t < k + 1 ensures grown[FaceStart(q, isQuadMode, t)].b in pointData[mid := e] {
      if t < k {
        assert grown[FaceStart(q, isQuadMode, t)] == polys[FaceStart(q, isQuadMode, t)];
      }
    }
  }

  lemma EdgesStep(q: nat, k: nat, isQuadMode: bool, edges: seq<int>, lastPid: nat)
    requires EdgesSplit(q, k, isQuadMode, edges)
    requires lastPid == FaceStart(q, isQuadMode, k)
    ensures EdgesSplit(q, k + 1, isQuadMode, edges + [lastPid * 4, (lastPid + 1) * 4])
  {
  }

  lemma UvwStep<U>(uvwData: seq<Quad<U>>, items: seq<SplitItem<U>>, k: nat, isQuadMode: bool,
                   uvMix: (U, U) -> U, uvws: seq<Quad<U>>)
    requires k < |items| && (forall t :: 0 <= t < |items| ==> items[t].eid < 4) && AllUvw(items)
    requires UvwSplit(uvwData, items, k, isQuadMode, uvMix, uvws)
    ensures UvwSplit(uvwData, items, k + 1, isQuadMode, uvMix, uvws + SplitUvws(items[k], isQuadMode, uvMix))
  {
    var q := |uvwData|;
    var faces := SplitUvws(items[k], isQuadMode, uvMix);
    var grown := uvws + faces;
    PrefixSlice(uvws, faces, 0, q);
    forall t | 0 <= t < k ensures UvwsAt(q, items[t], t, isQuadMode, uvMix, grown) {
      var s := FaceStart(q, isQuadMode, t);
      PrefixSlice(uvws, faces, s, s + FaceCount(isQuadMode));
    }
    assert grown[|uvws|..] == faces;
    assert UvwsAt(q, items[k], k, isQuadMode, uvMix, grown);
  }

  lemma PointDataStep<P>(points: seq<P>, mix: (P, P) -> P, pts: seq<P>, pointData: map<int, (int, int)>,
                         e: (int, int), mid: int)
    requires PointDataSound(points, mix, pts, pointData)
    requires |points| <= |pts| && pts[..|points|] == points
    requires 0 <= e.0 < |points| && 0 <= e.1 < |points|
    requires 0 <= mid <= |pts| && (mid < |pts| ==> pts[mid] == mix(points[e.0], points[e.1]))
    ensures PointDataSound(points, mix, pts + [mix(points[e.0], points[e.1])], pointData[mid := e])
  {
    var grown := pts + [mix(points[e.0], points[e.1])];
    forall key | key in pointData[mid := e]
      ensures 0 <= key < |grown|
      ensures grown[key] == mix(points[pointData[mid := e][key].0], points[pointData[mid := e][key].1])
    {
      if key != mid {
        assert grown[key] == pts[key];
      }
    }
  }

  /**
   * One round of the second loop: mixes the middle of item `k`'s split edge, appends it, and
   * appends the replacing polygons, their UVWs and the two new raw edges.
   */
  method SplitOne<P(==), U>(points: seq<P>, polygons: seq<CPolygon>, uvwData: seq<Quad<U>>,
                            items: seq<SplitItem<U>>, isQuadMode: bool, mix: (P, P) -> P, uvMix: (U, U) -> U,
                            k: nat, st: SplitState<P, U>)
    returns (next: SplitState<P, U>)
    requires ValidItems(items, |points|)
    requires AllUvw(items) || NoUvw(items)
    requires k < |items| && Applying(points, polygons, uvwData, items, isQuadMode, mix, uvMix, k, st)
    ensures Applying(points, polygons, uvwData, items, isQuadMode, mix, uvMix, k + 1, next)
  {
    var n, q := |points|, |polygons|;
    var item := items[k];
    var polyPointIndices := Corners(item.poly);
    var a, b := polyPointIndices[item.eid], polyPointIndices[(item.eid + 1) % 4];
    assert st.points[..n][a] == points[a] && st.points[..n][b] == points[b];
    var mpoint := mix(st.points[a], st.points[b]);
    var mid := IndexOf(st.points, mpoint);
    var faces := SplitFaces(Rotate(polyPointIndices, item.eid), mid, isQuadMode);
    var lastPid := |st.polygons|;

    PointsStep(points, items, k, mix, st.points);
    PolygonsStep(n, polygons, items, k, isQuadMode, st.points, st.polygons, mpoint, mid);
    MidsStep(q, k, isQuadMode, st.polygons, st.pointData, faces, mid, (a, b));
    EdgesStep(q, k, isQuadMode, st.edges, lastPid);
    PointDataStep(points, mix, st.points, st.pointData, (a, b), mid);
    var uvws := st.uvwData;
    if item.uvw.Some? {
      var ur := Rotate(Corners(item.uvw.value), item.eid);
      var uvMid := uvMix(ur[0], ur[1]);
      UvwStep(uvwData, items, k, isQuadMode, uvMix, uvws);
      uvws := uvws + SplitFaces(ur, uvMid, isQuadMode);
    }
    next := SplitState(st.points + [mpoint], st.polygons + faces, uvws,
                       st.edges + [(lastPid + 0) * 4 + 0, (lastPid + 1) * 4 + 0],
                       st.pointData[mid := (a, b)]);
  }

  /** The second loop, over every collected polygon in order. */
  method ApplySplits<P(==), U>(points: seq<P>, polygons: seq<CPolygon>, uvwData: seq<Quad<U>>,
                               items: seq<SplitItem<U>>, isQuadMode: bool, mix: (P, P) -> P, uvMix: (U, U) -> U)
    returns (st: SplitState<P, U>)
    requires ValidItems(items, |points|)
    requires AllUvw(items) || NoUvw(items)
    ensures SplitsApplied(points, polygons, uvwData, items, isQuadMode, mix, uvMix, st)
  {
    st := SplitState(points, polygons, uvwData, [], map[]);
    var k := 0;
    ApplyingStart(points, polygons, uvwData, items, isQuadMode, mix, uvMix);
    while k < |items|
      invariant Applying(points, polygons, uvwData, items, isQuadMode, mix, uvMix, k, st)
    {
      st := SplitOne(points, polygons, uvwData, items, isQuadMode, mix, uvMix, k, st);
      k := k + 1;
    }
  }

  // ---------------------------------------------------------------------------------------------
  // The script (lines 39-227)
  // ---------------------------------------------------------------------------------------------

  function ItemsFor<U>(polygons: seq<CPolygon>, uvwData: seq<Quad<U>>, selectedEdges: seq<nat>): (items: seq<SplitItem<U>>)
    requires forall k :: 0 <= k < |selectedEdges| ==> selectedEdges[k] < 4 * |polygons|
    requires uvwData == [] || |uvwData| == |polygons|
    ensures |items| == |selectedEdges|
  {
    seq(|selectedEdges|, k requires 0 <= k < |selectedEdges| => ItemFor(polygons, uvwData, selectedEdges[k]))
  }

  /**
   * Splits the polygons of the selected raw edges. Nothing happens unless the object is a polygon
   * object with a non-empty edge selection; the split is refused when two selected edges belong to
   * the same polygon; otherwise the new points, polygons and UVWs are written back and the edge
   * selection is replaced by the halves of the split edges.
   */
  method SplitPolygonEdges<P(==), U>(isPolygonObject: bool, points: seq<P>, polygons: seq<CPolygon>,
                                     uvwData: seq<Quad<U>>, edgeSelection: set<int>, isQuadMode: bool,
                                     mix: (P, P) -> P, uvMix: (U, U) -> U)
    returns (r: SplitOutcome<P, U>)
    requires ValidMesh(|points|, polygons)
    requires uvwData == [] || |uvwData| == |polygons|
    ensures r.NotApplicable? <==> !isPolygonObject || edgeSelection == {}
    ensures var selected := SelectedIndices(GetAll(edgeSelection, 4 * |polygons|));
      && (r.DuplicatePolygon? <==> isPolygonObject && edgeSelection != {} && SharesPolygon(selected))
      && (r.Split? ==>
            var items := ItemsFor(polygons, uvwData, selected);
            var kept := Without(polygons, Pids(items));
            var keptUvw := if uvwData == [] then [] else Without(uvwData, Pids(items));
            && |kept| == |polygons| - |selected|
            && ValidItems(items, |points|)
            && (uvwData == [] ==> NoUvw(items))
            && (uvwData != [] ==> AllUvw(items))
            && SplitsApplied(points, kept, keptUvw, items, isQuadMode, mix, uvMix, r.state))
  {
    if !isPolygonObject || |edgeSelection| < 1 {
      return NotApplicable;
    }
    var selected := SelectedIndices(GetAll(edgeSelection, 4 * |polygons|));
    var collected := CollectSplits(polygons, uvwData, selected);
    if collected.Duplicate? {
      return DuplicatePolygon(collected.pid);
    }
    var items := collected.items;
    assert items == ItemsFor(polygons, uvwData, selected);
    assert ValidItems(items, |points|) by {
      forall k | 0 <= k < |items|
        ensures items[k].eid < 4 && ValidPolygon(|points|, items[k].poly)
      {
        assert items[k].poly == polygons[items[k].pid];
      }
    }
    assert |collected.polygons| == |polygons| - |selected| by {
      assert forall p :: p in Pids(items) ==> 0 <= p < |polygons|;
      WithoutLength(polygons, Pids(items));
    }
    var st := ApplySplits(points, collected.polygons, collected.uvwData, items, isQuadMode, mix, uvMix);
    r := Split(st);
  }

  // ---------------------------------------------------------------------------------------------
  // Properties of one split
  // ---------------------------------------------------------------------------------------------

  /**
   * The first edge of the first and of the second new polygon are the two halves of the split
   * edge (corner `eid` to the middle, and the middle to the next corner), which is why the new
   * selection holds exactly those two raw edges. The new polygons use no point but the old
   * corners and the middle, and every old corner survives in one of them. In quadrangle mode the
   * first is a triangle; in triangle mode all three are triangles.
   */
  lemma SplitFacesHalveEdge(poly: CPolygon, eid: nat, mid: int, isQuadMode: bool)
    requires eid < 4
    ensures var faces := SplitFaces(Rotate(Corners(poly), eid), mid, isQuadMode);
      && faces[0].a == Corners(poly)[eid] && faces[0].b == mid
      && faces[1].a == mid && faces[1].b == Corners(poly)[(eid + 1) % 4]
      && (forall f, x :: 0 <= f < |faces| && x in Corners(faces[f]) ==> x == mid || x in Corners(poly))
      && (forall x :: x in Corners(poly) ==> x in Corners(faces[0]) || x in Corners(faces[1]))
      && IsTriangle(faces[0])
      && (!isQuadMode ==> forall f :: 0 <= f < |faces| ==> IsTriangle(faces[f]))
  {
    var c := Corners(poly);
    var r := Rotate(c, eid);
    RotatedCorners(poly, eid);
    var faces := SplitFaces(r, mid, isQuadMode);
    assert r[0] == c[eid] && r[1] == c[(eid + 1) % 4];
    assert forall x :: x in c <==> x == r[0] || x == r[1] || x == r[2] || x == r[3];
    assert Corners(faces[0]) == [r[0], mid, r[3], r[3]];
    assert Corners(faces[1]) == if isQuadMode then [mid, r[1], r[2], r[3]] else [mid, r[1], r[2], r[2]];
    assert !isQuadMode ==> Corners(faces[2]) == [mid, r[2], r[3], r[3]];
  }

  /** The four rotations of a polygon's corners, written out. */
  lemma RotatedCorners(poly: CPolygon, eid: nat)
    requires eid < 4
    ensures Rotate(Corners(poly), eid) ==
      if eid == 0 then [poly.a, poly.b, poly.c, poly.d]
      else if eid == 1 then [poly.b, poly.c, poly.d, poly.a]
      else if eid == 2 then [poly.c, poly.d, poly.a, poly.b]
      else [poly.d, poly.a, poly.b, poly.c]
  {
  }
}
