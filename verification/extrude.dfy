/**
 * The topology of extruding the selected polygons of a polygon object
 * (`operation_extrude_polygons_s26.py`): which points and polygons are appended per selected
 * polygon, which are removed, and which end up selected.
 *
 * Point positions are opaque: the extruded copy of a corner is `lift(point, pid)`, standing for
 * the corner moved along the normal of polygon `pid` by `ClampDistance(distance)`, the script's
 * extrusion distance after the clamp below.
 */
module Extrude {
  import opened Wrappers
  import opened Mesh

  /** The extrusion distance: a negative one is clamped to zero. */
  function ClampDistance(distance: real): (r: real)
    ensures r >= 0.0
    ensures distance >= 0.0 ==> r == distance
    ensures distance < 0.0 ==> r == 0.0
  {
    if distance < 0.0 then 0.0 else distance
  }

  // ---------------------------------------------------------------------------------------------
  // GetPolygonNormal: the vertex neighbourhoods
  // ---------------------------------------------------------------------------------------------

  /** A vertex between its previous and its next neighbour. */
  datatype Neighbourhood<T> = Neighbourhood(previous: T, vertex: T, next: T)

  /**
   * The neighbourhood triples `GetPolygonNormal` forms its vertex normals from: only three or four
   * points are accepted, and the first and last vertex wrap around to the other end.
   */
  method VertexNeighbourhoods<T>(points: seq<T>) returns (r: Result<seq<Neighbourhood<T>>>)
    ensures r.Ok? <==> |points| == 3 || |points| == 4
    ensures r.Ok? ==> |r.value| == |points|
    ensures r.Ok? ==> forall i :: 0 <= i < |points| ==>
      r.value[i] == Neighbourhood(points[(i - 1) % |points|], points[i], points[(i + 1) % |points|])
  {
    if |points| != 3 && |points| != 4 {
      return Err("RuntimeError: invalid length");
    }
    var count := |points|;
    var vertexNormals: seq<Neighbourhood<T>> := [];
    for index := 0 to count
      invariant |vertexNormals| == index
      invariant forall i :: 0 <= i < index ==>
        vertexNormals[i] == Neighbourhood(points[(i - 1) % count], points[i], points[(i + 1) % count])
    {
      var h := if index > 0 then points[index - 1] else points[count - 1];
      var i := points[index];
      var j := if index < count - 1 then points[index + 1] else points[0];
      vertexNormals := vertexNormals + [Neighbourhood(h, i, j)];
    }
    return Ok(vertexNormals);
  }

  /** The neighbourhoods close into a cycle: each vertex is the previous neighbour of the next
      vertex and the next neighbour of the previous one. */
  lemma NeighbourhoodsFormCycle<T>(points: seq<T>, hoods: seq<Neighbourhood<T>>, i: nat)
    requires |points| == 3 || |points| == 4
    requires |hoods| == |points|
    requires forall k :: 0 <= k < |points| ==>
      hoods[k] == Neighbourhood(points[(k - 1) % |points|], points[k], points[(k + 1) % |points|])
    requires i < |points|
    ensures hoods[(i + 1) % |points|].previous == hoods[i].vertex
    ensures hoods[(i - 1) % |points|].next == hoods[i].vertex
  {
    var n := |points|;
    var j := (i + 1) % n;
    var h := (i - 1) % n;
    assert (j - 1) % n == i;
    assert (h + 1) % n == i;
  }

  // ---------------------------------------------------------------------------------------------
  // The new geometry of one polygon
  // ---------------------------------------------------------------------------------------------

  predicate ValidPolygons(polygons: seq<CPolygon>, pointCount: nat) {
    forall k :: 0 <= k < |polygons| ==>
      && 0 <= polygons[k].a < pointCount && 0 <= polygons[k].b < pointCount
      && 0 <= polygons[k].c < pointCount && 0 <= polygons[k].d < pointCount
  }

  /** The extruded copies of the corners of `q`: three for a triangle, four for a quad. */
  function Lifted<T>(points: seq<T>, q: CPolygon, pid: nat, lift: (T, nat) -> T): (r: seq<T>)
    requires 0 <= q.a < |points| && 0 <= q.b < |points| && 0 <= q.c < |points| && 0 <= q.d < |points|
    ensures |r| == if IsTriangle(q) then 3 else 4
  {
    var top := [lift(points[q.a], pid), lift(points[q.b], pid), lift(points[q.c], pid)];
    if IsTriangle(q) then top else top + [lift(points[q.d], pid)]
  }

  /**
   * The polygons built for `q` when its extruded corners start at point index `n`: the top face
   * first, then one side face per edge of `q`. A triangle's top face repeats its third index.
   */
  function Faces(q: CPolygon, n: int): seq<CPolygon> {
    if IsTriangle(q) then
      [Quad(n, n + 1, n + 2, n + 2), Quad(q.a, q.b, n + 1, n), Quad(q.b, q.c, n + 2, n + 1),
       Quad(n + 2, q.c, q.a, n)]
    else
      [Quad(n, n + 1, n + 2, n + 3), Quad(q.a, q.b, n + 1, n), Quad(q.b, q.c, n + 2, n + 1),
       Quad(n + 2, q.c, q.d, n + 3), Quad(n + 3, q.d, q.a, n)]
  }

  /** The faces of one polygon: four for a triangle and five for a quad, the top face is a
      triangle exactly when the polygon is, and every index names an old point or one of the
      new corners. */
  lemma FacesSpec(q: CPolygon, n: nat)
    requires 0 <= q.a < n && 0 <= q.b < n && 0 <= q.c < n && 0 <= q.d < n
    ensures |Faces(q, n)| == if IsTriangle(q) then 4 else 5
    ensures IsTriangle(Faces(q, n)[0]) <==> IsTriangle(q)
    ensures ValidPolygons(Faces(q, n), n + if IsTriangle(q) then 3 else 4)
  {
  }

  // ---------------------------------------------------------------------------------------------
  // The extrusion loop
  // ---------------------------------------------------------------------------------------------

  datatype Growth<T> = Growth(points: seq<T>, faces: seq<CPolygon>)

  predicate InRange(sel: seq<nat>, count: nat) {
    forall k :: 0 <= k < |sel| ==> sel[k] < count
  }

  /** The points and the new polygons after extruding the polygons `sel`, one after the other. */
  function Grown<T>(points: seq<T>, polygons: seq<CPolygon>, sel: seq<nat>, lift: (T, nat) -> T): (g: Growth<T>)
    requires ValidPolygons(polygons, |points|) && InRange(sel, |polygons|)
    ensures |points| <= |g.points| && g.points[..|points|] == points
    decreases |sel|
  {
    if sel == [] then Growth(points, [])
    else
      var prev := Grown(points, polygons, sel[..|sel| - 1], lift);
      var pid := sel[|sel| - 1];
      var q := polygons[pid];
      Growth(prev.points + Lifted(points, q, pid, lift), prev.faces + Faces(q, |prev.points|))
  }

  /** How many of the extruded polygons are triangles. */
  function Triangles(polygons: seq<CPolygon>, sel: seq<nat>): (r: nat)
    requires InRange(sel, |polygons|)
    ensures r <= |sel|
  {
    if sel == [] then 0
    else Triangles(polygons, sel[..|sel| - 1]) + if IsTriangle(polygons[sel[|sel| - 1]]) then 1 else 0
  }

  /** Each quad adds four points and five polygons, each triangle three points and four polygons,
      and every new polygon only names existing points. */
  lemma {:induction false} GrownSpec<T>(points: seq<T>, polygons: seq<CPolygon>, sel: seq<nat>, lift: (T, nat) -> T)
    requires ValidPolygons(polygons, |points|) && InRange(sel, |polygons|)
    ensures var g := Grown(points, polygons, sel, lift);
      && |g.points| == |points| + 4 * |sel| - Triangles(polygons, sel)
      && |g.faces| == 5 * |sel| - Triangles(polygons, sel)
      && ValidPolygons(g.faces, |g.points|)
    decreases |sel|
  {
    if sel != [] {
      var init := sel[..|sel| - 1];
      GrownSpec(points, polygons, init, lift);
      var prev := Grown(points, polygons, init, lift);
      var q := polygons[sel[|sel| - 1]];
      FacesSpec(q, |prev.points|);
      var g := Grown(points, polygons, sel, lift);
      assert g.faces == prev.faces + Faces(q, |prev.points|);
      assert forall k :: 0 <= k < |prev.faces| ==> g.faces[k] == prev.faces[k];
    }
  }

  /** The new corners of the `j`-th extruded polygon start right after the points that existed
      when it was extruded, and are the lifted copies of its corners. */
  lemma GrownLastPoints<T>(points: seq<T>, polygons: seq<CPolygon>, sel: seq<nat>, lift: (T, nat) -> T)
    requires ValidPolygons(polygons, |points|) && InRange(sel, |polygons|) && sel != []
    ensures var g := Grown(points, polygons, sel, lift);
      var prev := Grown(points, polygons, sel[..|sel| - 1], lift);
      var q := polygons[sel[|sel| - 1]];
      && g.points[|prev.points|] == lift(points[q.a], sel[|sel| - 1])
      && g.points[|prev.points| + 1] == lift(points[q.b], sel[|sel| - 1])
      && g.points[|prev.points| + 2] == lift(points[q.c], sel[|sel| - 1])
      && (!IsTriangle(q) ==> g.points[|prev.points| + 3] == lift(points[q.d], sel[|sel| - 1]))
  {
  }

  /** The indices of `s` as a set: Python's `x in s` on a tuple. */
  function Elements(s: seq<nat>): (r: set<int>)
    ensures forall x :: x in r <==> x in s
  {
    if s == [] then {} else Elements(s[..|s| - 1]) + {s[|s| - 1]}
  }

  lemma {:induction false} ElementsCard(s: seq<nat>)
    requires StrictlyIncreasing(s)
    ensures |Elements(s)| == |s|
  {
    if s != [] {
      var init := s[..|s| - 1];
      assert StrictlyIncreasing(init);
      ElementsCard(init);
      assert s[|s| - 1] !in init by {
        forall k | 0 <= k < |init| ensures init[k] != s[|s| - 1] {
          assert s[k] < s[|s| - 1];
        }
      }
    }
  }

  datatype Extruded<T> = Extruded(points: seq<T>, polygons: seq<CPolygon>, selection: set<int>)

  /** The points and polygons after the first `i` selected polygons are extruded. */
  ghost predicate ExtrudedUpTo<T>(points: seq<T>, polygons: seq<CPolygon>, sel: seq<nat>, lift: (T, nat) -> T,
                                  i: nat, pts: seq<T>, polys: seq<CPolygon>)
    requires ValidPolygons(polygons, |points|) && InRange(sel, |polygons|)
  {
    && i <= |sel|
    && pts == Grown(points, polygons, sel[..i], lift).points
    && polys == polygons + Grown(points, polygons, sel[..i], lift).faces
  }

  /**
   * The outcome the extrusion promises: the points are the old points followed by the extruded
   * corners; the polygons are the unselected old polygons in their order followed by all new
   * faces in creation order; each quad adds four points and five polygons and each triangle three
   * points and four; every polygon names an existing point; and the selection is exactly the new
   * faces.
   */
  ghost predicate ExtrusionOf<T>(points: seq<T>, polygons: seq<CPolygon>, sel: seq<nat>, lift: (T, nat) -> T,
                                 e: Extruded<T>)
    requires ValidPolygons(polygons, |points|) && InRange(sel, |polygons|)
  {
    var g := Grown(points, polygons, sel, lift);
    var kept := |polygons| - |sel|;
    && e.points == g.points
    && e.polygons == Without(polygons, Elements(sel)) + g.faces
    && |e.points| == |points| + 4 * |sel| - Triangles(polygons, sel)
    && |e.polygons| == kept + 5 * |sel| - Triangles(polygons, sel)
    && ValidPolygons(e.polygons, |e.points|)
    && (forall i :: i in e.selection <==> kept <= i < |e.polygons|)
    && 0 <= kept <= |e.polygons| && e.polygons[kept..] == g.faces
  }

  /**
   * `ExtrudePolygonObject`: an object outside any document, or one without a selected polygon,
   * is refused before anything changes. Otherwise each selected polygon, in index order, appends
   * its extruded corners and its faces; the selected polygons are then dropped, and the new
   * polygons, which now sit at the end of the list, become the polygon selection.
   */
  method ExtrudePolygons<T>(points: seq<T>, polygons: seq<CPolygon>, selection: set<int>, attached: bool,
                            lift: (T, nat) -> T)
    returns (r: Result<Extruded<T>>)
    requires ValidPolygons(polygons, |points|)
    ensures var sel := SelectedIndices(GetAll(selection, |polygons|));
      r.Err? <==> !attached || sel == []
    ensures var sel := SelectedIndices(GetAll(selection, |polygons|));
      r.Ok? ==> ExtrusionOf(points, polygons, sel, lift, r.value)
  {
    if !attached {
      return Err("RuntimeError: not attached to a document");
    }
    var states := GetAll(selection, |polygons|);
    var selectedPolygonIndices := SelectedIndices(states);
    if |selectedPolygonIndices| == 0 {
      return Err("RuntimeError: no selected polygons");
    }
    var pts := points;
    var polys := polygons;
    var oldAdjustedMaxPolygonIndex := |polygons| - |selectedPolygonIndices|;
    for i := 0 to |selectedPolygonIndices|
      invariant ExtrudedUpTo(points, polygons, selectedPolygonIndices, lift, i, pts, polys)
    {
      pts, polys := ExtrudeOne(points, polygons, selectedPolygonIndices, lift, i, pts, polys);
    }
    var dropped := Elements(selectedPolygonIndices);
    assert selectedPolygonIndices[..|selectedPolygonIndices|] == selectedPolygonIndices;
    DroppedExtruded(points, polygons, selectedPolygonIndices, lift);
    polys := Without(polys, dropped);
    var newSelection := SelectRange(oldAdjustedMaxPolygonIndex, |polys|);
    return Ok(Extruded(pts, polys, newSelection));
  }

  /** `DeselectAll` followed by `Select(i)` for every `i` in `range(lo, hi)`. */
  method SelectRange(lo: int, hi: int) returns (selection: set<int>)
    requires lo <= hi
    ensures forall k :: k in selection <==> lo <= k < hi
  {
    selection := {};
    for i := lo to hi
      invariant forall k :: k in selection <==> lo <= k < i
    {
      selection := selection + {i};
    }
  }

  /** The body of the extrusion loop for the `i`-th selected polygon. */
  method ExtrudeOne<T>(points: seq<T>, polygons: seq<CPolygon>, sel: seq<nat>, lift: (T, nat) -> T,
                       i: nat, pts: seq<T>, polys: seq<CPolygon>)
    returns (pts': seq<T>, polys': seq<CPolygon>)
    requires ValidPolygons(polygons, |points|) && InRange(sel, |polygons|) && i < |sel|
    requires ExtrudedUpTo(points, polygons, sel, lift, i, pts, polys)
    ensures ExtrudedUpTo(points, polygons, sel, lift, i + 1, pts', polys')
  {
    var pid := sel[i];
    ghost var prev := Grown(points, polygons, sel[..i], lift);
    assert sel[..i + 1][..i] == sel[..i];
    var cpoly := polys[pid];
    assert cpoly == polygons[pid];
    // The new corners are appended after the existing points, so they start at `|pts|`.
    var lifted := Lifted(pts, cpoly, pid, lift);
    var newPolygons := Faces(cpoly, |pts|);
    LiftedPrefix(points, pts, cpoly, pid, lift);
    assert Grown(points, polygons, sel[..i + 1], lift) == Growth(prev.points + lifted, prev.faces + newPolygons);
    pts' := pts + lifted;
    polys' := polys + newPolygons;
  }

  /** Lifting reads only the old points, which the growing point list keeps as its prefix. */
  lemma LiftedPrefix<T>(points: seq<T>, pts: seq<T>, q: CPolygon, pid: nat, lift: (T, nat) -> T)
    requires |points| <= |pts| && pts[..|points|] == points
    requires 0 <= q.a < |points| && 0 <= q.b < |points| && 0 <= q.c < |points| && 0 <= q.d < |points|
    ensures Lifted(pts, q, pid, lift) == Lifted(points, q, pid, lift)
  {
    assert pts[q.a] == points[q.a] && pts[q.b] == points[q.b];
    assert pts[q.c] == points[q.c] && pts[q.d] == points[q.d];
  }

  /** Dropping the extruded polygons after the loop leaves the unselected old polygons followed by
      the new faces, with every index in range. */
  lemma DroppedExtruded<T>(points: seq<T>, polygons: seq<CPolygon>, sel: seq<nat>, lift: (T, nat) -> T)
    requires ValidPolygons(polygons, |points|) && InRange(sel, |polygons|) && StrictlyIncreasing(sel)
    ensures var g := Grown(points, polygons, sel, lift);
      var kept := Without(polygons, Elements(sel));
      && Without(polygons + g.faces, Elements(sel)) == kept + g.faces
      && |kept| == |polygons| - |sel|
      && |g.points| == |points| + 4 * |sel| - Triangles(polygons, sel)
      && |g.faces| == 5 * |sel| - Triangles(polygons, sel)
      && ValidPolygons(kept + g.faces, |g.points|)
  {
    var g := Grown(points, polygons, sel, lift);
    var dropped := Elements(sel);
    var all := polygons + g.faces;
    ElementsCard(sel);
    WithoutSplit(all, dropped, |polygons|);
    assert all[..|polygons|] == polygons && all[|polygons|..] == g.faces;
    WithoutLength(polygons, dropped);
    GrownSpec(points, polygons, sel, lift);
    KeptPolygonsValid(polygons, dropped, |points|, |g.points|);
    ValidAppend(Without(polygons, dropped), g.faces, |g.points|);
  }

  lemma {:induction false} KeptPolygonsValid(polygons: seq<CPolygon>, drop: set<int>, count: nat, bigger: nat)
    requires ValidPolygons(polygons, count) && count <= bigger
    ensures ValidPolygons(Without(polygons, drop), bigger)
  {
    if polygons != [] {
      KeptPolygonsValid(polygons[..|polygons| - 1], drop, count, bigger);
    }
  }

  lemma ValidAppend(a: seq<CPolygon>, b: seq<CPolygon>, count: nat)
    requires ValidPolygons(a, count) && ValidPolygons(b, count)
    ensures ValidPolygons(a + b, count)
  {
  }
}
