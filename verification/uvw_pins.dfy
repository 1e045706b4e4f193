/**
 * The two scripts that translate between a UVW tag's pinned UV points and an object's point
 * selection (`uvwtag_retrieve_uv_point_pinned_s22_114.py` and
 * `uvwtag_removeselection_to_uv_point_pinned_s22_114.py`).
 *
 * UV point `u` is corner `u % 4` of polygon `u / 4`, so an object with `n` polygons has `4 * n` UV
 * points. Selections are sets of indices. The host's pin selection only ever holds existing UV
 * points.
 */
module UvwPins {
  import opened Wrappers
  import opened Mesh

  /** `CPolygonGetItem`: corners 0 to 3 are `a` to `d`; any other index is a `ValueError`. */
  function CPolygonGetItem(cPoly: CPolygon, idx: int): (r: Result<int>)
    ensures r.Ok? <==> 0 <= idx <= 3
    ensures r.Ok? ==> r.value == Corners(cPoly)[idx]
  {
    if !(0 <= idx <= 3) then Err("ValueError: not between 0 and 3 included")
    else if idx == 0 then Ok(cPoly.a)
    else if idx == 1 then Ok(cPoly.b)
    else if idx == 2 then Ok(cPoly.c)
    else Ok(cPoly.d)
  }

  /** The point behind UV point `u`. */
  function UvPoint(polygons: seq<CPolygon>, u: int): int
    requires 0 <= u < 4 * |polygons|
  {
    Corners(polygons[u / 4])[u % 4]
  }

  /** The points a set of pinned UV points stands for. */
  ghost function PointsOf(polygons: seq<CPolygon>, pins: set<int>): set<int> {
    set u | u in pins && 0 <= u < 4 * |polygons| :: UvPoint(polygons, u)
  }

  predicate PinsExist(polygons: seq<CPolygon>, pins: set<int>) {
    forall u :: u in pins ==> 0 <= u < 4 * |polygons|
  }

  // ---------------------------------------------------------------------------------------------
  // Pinned UV points to a point selection
  // ---------------------------------------------------------------------------------------------

  /** `ptSelect.Select(CPolygonGetItem(...))` for each of the given UV points, on a cleared
      selection. */
  method SelectCorners(polygons: seq<CPolygon>, ids: seq<nat>) returns (ptSelect: set<int>)
    requires forall k :: 0 <= k < |ids| ==> ids[k] < 4 * |polygons|
    ensures forall p :: p in ptSelect <==> exists k :: 0 <= k < |ids| && UvPoint(polygons, ids[k]) == p
  {
    ptSelect := {};
    for i := 0 to |ids|
      invariant forall p :: p in ptSelect <==> exists k :: 0 <= k < i && UvPoint(polygons, ids[k]) == p
    {
      var pinnedUvPointId := ids[i];
      var polyId := pinnedUvPointId / 4;
      var cpolyPtId := pinnedUvPointId % 4;
      var ptId := CPolygonGetItem(polygons[polyId], cpolyPtId).value;
      assert ptId == UvPoint(polygons, ids[i]);
      ptSelect := ptSelect + {ptId};
    }
  }

  /**
   * `main` of the retrieve script as written: no UVW tag or no pinned UV point is an error and
   * the point selection is left alone; otherwise the selection is cleared and then holds the
   * points of the pinned UV points, reading the pin selection only up to the object's point count.
   */
  method PinnedToPointsAsWritten(polygons: seq<CPolygon>, pointCount: nat, pins: set<int>, hasUvwTag: bool)
    returns (r: Result<set<int>>)
    requires PinsExist(polygons, pins)
    ensures r.Err? <==> !hasUvwTag || pins == {}
    ensures r.Ok? ==> r.value == PointsOf(polygons, set u | u in pins && u < pointCount)
  {
    if !hasUvwTag {
      return Err("RuntimeError: no uvw tag");
    }
    if |pins| == 0 {
      return Err("ValueError: no uv point pinned");
    }
    var rawSelectionList := GetAll(pins, pointCount);
    var pinnedUvPointIds := SelectedIndices(rawSelectionList);
    assert forall k :: 0 <= k < |pinnedUvPointIds| ==> pinnedUvPointIds[k] in pins by {
      forall k | 0 <= k < |pinnedUvPointIds| ensures pinnedUvPointIds[k] in pins {
        assert pinnedUvPointIds[k] in pinnedUvPointIds;
      }
    }
    var ptSelect := SelectCorners(polygons, pinnedUvPointIds);
    SelectedPoints(polygons, pinnedUvPointIds, (set u | u in pins && u < pointCount), ptSelect);
    return Ok(ptSelect);
  }

  /** The retrieve script with the pin selection read over all `4 * |polygons|` UV points: the
      selection then holds exactly the points of all pinned UV points. */
  method PinnedToPoints(polygons: seq<CPolygon>, pins: set<int>, hasUvwTag: bool) returns (r: Result<set<int>>)
    requires PinsExist(polygons, pins)
    ensures r.Err? <==> !hasUvwTag || pins == {}
    ensures r.Ok? ==> r.value == PointsOf(polygons, pins)
  {
    if !hasUvwTag {
      return Err("RuntimeError: no uvw tag");
    }
    if |pins| == 0 {
      return Err("ValueError: no uv point pinned");
    }
    var rawSelectionList := GetAll(pins, 4 * |polygons|);
    var pinnedUvPointIds := SelectedIndices(rawSelectionList);
    var ptSelect := SelectCorners(polygons, pinnedUvPointIds);
    SelectedPoints(polygons, pinnedUvPointIds, pins, ptSelect);
    return Ok(ptSelect);
  }

  lemma SelectedPoints(polygons: seq<CPolygon>, ids: seq<nat>, pins: set<int>, ptSelect: set<int>)
    requires forall u: int :: u in ids <==> u in pins && 0 <= u < 4 * |polygons|
    requires forall k :: 0 <= k < |ids| ==> ids[k] < 4 * |polygons|
    requires forall p :: p in ptSelect <==> exists k :: 0 <= k < |ids| && UvPoint(polygons, ids[k]) == p
    ensures ptSelect == PointsOf(polygons, pins)
  {
    forall p | p in PointsOf(polygons, pins) ensures p in ptSelect {
      var u :| u in pins && 0 <= u < 4 * |polygons| && UvPoint(polygons, u) == p;
      assert u in ids;
      var k :| 0 <= k < |ids| && ids[k] == u;
    }
    forall p | p in ptSelect ensures p in PointsOf(polygons, pins) {
      var k :| 0 <= k < |ids| && UvPoint(polygons, ids[k]) == p;
      assert ids[k] in ids;
    }
  }

  /**
   * Reading the pins only up to the point count loses pinned UV points whenever the object has
   * fewer points than UV points: two quads sharing an edge have six points and eight UV points,
   * and pinning UV point 6 (corner `c` of the second quad, point 5) selects nothing.
   */
  lemma PointCountLimitLosesPins()
    ensures var polygons := [Quad(0, 1, 2, 3), Quad(1, 4, 5, 2)];
      var pins := {6};
      && PinsExist(polygons, pins)
      && PointsOf(polygons, set u | u in pins && u < 6) == {}
      && PointsOf(polygons, pins) == {5}
  {
    var polygons := [Quad(0, 1, 2, 3), Quad(1, 4, 5, 2)];
    var pins: set<int> := {6};
    assert (set u | u in pins && u < 6) == {};
    assert UvPoint(polygons, 6) == 5;
    assert forall u :: u in pins ==> u == 6;
  }

  // ---------------------------------------------------------------------------------------------
  // A point selection to the UV pins to remove
  // ---------------------------------------------------------------------------------------------

  /** UV point `u` belongs to a selected point among the first `pointCount` points. */
  predicate HitsSelection(polygons: seq<CPolygon>, pointCount: nat, pointSelection: set<int>, u: int)
    requires 0 <= u < 4 * |polygons|
  {
    0 <= UvPoint(polygons, u) < pointCount && UvPoint(polygons, u) in pointSelection
  }

  /**
   * The nested loops of the remove script: every corner of every polygon is scanned, and the UV
   * point `4 * polyId + polyPtId` is collected when that corner's point is selected.
   */
  method PinsToSet(polygons: seq<CPolygon>, pointCount: nat, pointSelection: set<int>) returns (pinsToSet: set<int>)
    ensures forall u :: u in pinsToSet <==> 0 <= u < 4 * |polygons| && HitsSelection(polygons, pointCount, pointSelection, u)
  {
    var rawSelectionList := GetAll(pointSelection, pointCount);
    var pointIdSelected := SelectedIndices(rawSelectionList);
    pinsToSet := {};
    for polyId := 0 to |polygons|
      invariant forall u :: u in pinsToSet <==> 0 <= u < 4 * polyId && HitsSelection(polygons, pointCount, pointSelection, u)
    {
      var cPoly := polygons[polyId];
      for polyPtId := 0 to 4
        invariant forall u :: u in pinsToSet <==>
          0 <= u < 4 * polyId + polyPtId && HitsSelection(polygons, pointCount, pointSelection, u)
      {
        var ptId := CPolygonGetItem(cPoly, polyPtId).value;
        assert ptId == UvPoint(polygons, 4 * polyId + polyPtId);
        if ptId in pointIdSelected {
          pinsToSet := pinsToSet + {polyId * 4 + polyPtId};
        }
      }
    }
  }

  /** `main` of the remove script: no UVW tag is an error raised before any selection is built;
      otherwise the collected UV points are removed from the pin selection. */
  method RemoveSelectionFromPins(polygons: seq<CPolygon>, pointCount: nat, pointSelection: set<int>,
                                 pins: set<int>, hasUvwTag: bool)
    returns (r: Result<set<int>>)
    ensures r.Err? <==> !hasUvwTag
    ensures r.Ok? ==> r.value <= pins
    ensures r.Ok? ==> forall u :: u in pins ==>
      (u in r.value <==> !(0 <= u < 4 * |polygons| && HitsSelection(polygons, pointCount, pointSelection, u)))
  {
    if !hasUvwTag {
      return Err("RuntimeError: no uvw tag");
    }
    var pinsToSet := PinsToSet(polygons, pointCount, pointSelection);
    return Ok(pins - pinsToSet);
  }

  /** Every collected UV point is below `4 * |polygons|`, and a triangle's selected third point
      is collected twice, as corner `c` and as corner `d`. */
  lemma TrianglePinsCollectedTwice(polygons: seq<CPolygon>, pointCount: nat, pointSelection: set<int>, p: nat)
    requires p < |polygons| && IsTriangle(polygons[p])
    requires 0 <= polygons[p].c < pointCount && polygons[p].c in pointSelection
    ensures HitsSelection(polygons, pointCount, pointSelection, 4 * p + 2)
    ensures HitsSelection(polygons, pointCount, pointSelection, 4 * p + 3)
  {
    assert (4 * p + 2) / 4 == p && (4 * p + 2) % 4 == 2;
    assert (4 * p + 3) / 4 == p && (4 * p + 3) % 4 == 3;
  }

  /** After removing the pins of a point selection, the remaining pins name no selected point: the
      two scripts undo each other's effect on the selected points. */
  lemma RemovedPinsMissSelection(polygons: seq<CPolygon>, pointCount: nat, pointSelection: set<int>,
                                 pins: set<int>, remaining: set<int>)
    requires PinsExist(polygons, pins)
    requires forall k :: 0 <= k < |polygons| ==> forall c :: c in Corners(polygons[k]) ==> 0 <= c < pointCount
    requires remaining <= pins
    requires forall u :: u in pins ==>
      (u in remaining <==> !(0 <= u < 4 * |polygons| && HitsSelection(polygons, pointCount, pointSelection, u)))
    ensures PointsOf(polygons, remaining) !! pointSelection
  {
    forall p | p in PointsOf(polygons, remaining) ensures p !in pointSelection {
      var u :| u in remaining && 0 <= u < 4 * |polygons| && UvPoint(polygons, u) == p;
      assert UvPoint(polygons, u) in Corners(polygons[u / 4]);
    }
  }
}
