/**
 * The polygon-mesh vocabulary shared by the geometry scripts: Cinema 4D's `CPolygon` (always four
 * point indices; a triangle repeats its third index as the fourth), raw edge and point
 * selections (`BaseSelect`), and the list operations the scripts use to drop polygons.
 */
module Mesh {

  /** Four values in corner order `a, b, c, d`: the point indices of a `CPolygon` or its UVWs. */
  datatype Quad<T> = Quad(a: T, b: T, c: T, d: T)

  type CPolygon = Quad<int>

  function Corners<T>(q: Quad<T>): seq<T> {
    [q.a, q.b, q.c, q.d]
  }

  /** A `CPolygon` is a triangle when its last two indices coincide. */
  predicate IsTriangle(p: CPolygon) {
    p.c == p.d
  }

  /** Python's `s[e:] + s[:e]`. */
  function Rotate<T>(s: seq<T>, e: nat): seq<T>
    requires e <= |s|
  {
    s[e..] + s[..e]
  }

  /**
   * Rotating the corners by the local edge index `e` moves corner `e` to the front, so that
   * edge `e` (from corner `e` to corner `e + 1`, wrapping around) becomes edge `a`-`b`; the
   * corners are only reordered.
   */
  lemma RotateCorners<T>(q: Quad<T>, e: nat)
    requires e < 4
    ensures var r := Rotate(Corners(q), e);
      && |r| == 4
      && (forall i :: 0 <= i < 4 ==> r[i] == Corners(q)[(e + i) % 4])
      && multiset(r) == multiset(Corners(q))
  {
    var s := Corners(q);
    assert s == s[..e] + s[e..];
  }

  lemma PrefixTransitive<T>(a: seq<T>, b: seq<T>, c: seq<T>)
    requires |a| <= |b| <= |c| && b[..|a|] == a && c[..|b|] == b
    ensures c[..|a|] == a
  {
    assert c[..|a|] == c[..|b|][..|a|];
  }

  /** `BaseSelect.GetAll(count)`: the selection state of each of the first `count` elements. */
  function GetAll(selection: set<int>, count: nat): (r: seq<bool>)
    ensures |r| == count
    ensures forall i :: 0 <= i < count ==> (r[i] <==> i in selection)
  {
    seq(count, i => i in selection)
  }

  predicate StrictlyIncreasing(s: seq<int>) {
    forall i, j :: 0 <= i < j < |s| ==> s[i] < s[j]
  }

  /** `[i for i, value in enumerate(states) if value]`: the selected indices, in order. */
  function SelectedIndices(states: seq<bool>): (r: seq<nat>)
    ensures forall i: int :: i in r <==> 0 <= i < |states| && states[i]
    ensures StrictlyIncreasing(r)
    ensures forall k :: 0 <= k < |r| ==> r[k] < |states|
  {
    if states == [] then []
    else
      var prefix := SelectedIndices(states[..|states| - 1]);
      if states[|states| - 1] then prefix + [|states| - 1] else prefix
  }

  // ---------------------------------------------------------------------------------------------
  // Dropping elements by index
  // ---------------------------------------------------------------------------------------------

  /** The elements of `s` whose index is not in `drop`, in their order:
      `[x for i, x in enumerate(s) if i not in drop]`. */
  function Without<T>(s: seq<T>, drop: set<int>): (r: seq<T>)
    ensures |r| <= |s|
  {
    if s == [] then []
    else
      var last := |s| - 1;
      Without(s[..last], drop) + if last in drop then [] else [s[last]]
  }

  lemma {:induction false} WithoutNothing<T>(s: seq<T>)
    ensures Without(s, {}) == s
  {
    if s != [] {
      WithoutNothing(s[..|s| - 1]);
      assert s[..|s| - 1] + [s[|s| - 1]] == s;
    }
  }

  /** An element is kept exactly when some index outside `drop` holds it. */
  lemma {:induction false} WithoutMembers<T>(s: seq<T>, drop: set<int>, x: T)
    ensures x in Without(s, drop) <==> exists i :: 0 <= i < |s| && i !in drop && s[i] == x
  {
    if s != [] {
      var last := |s| - 1;
      WithoutMembers(s[..last], drop, x);
      if exists i :: 0 <= i < |s| && i !in drop && s[i] == x {
        var i :| 0 <= i < |s| && i !in drop && s[i] == x;
        if i < last {
          assert s[..last][i] == x;
        }
      }
    }
  }

  /** Dropping indices below `m` leaves the elements from `m` on untouched. */
  lemma {:induction false} WithoutSplit<T>(s: seq<T>, drop: set<int>, m: nat)
    requires m <= |s|
    requires forall i :: i in drop ==> i < m
    ensures Without(s, drop) == Without(s[..m], drop) + s[m..]
    decreases |s|
  {
    if |s| > m {
      var last := |s| - 1;
      WithoutSplit(s[..last], drop, m);
      assert s[..last][..m] == s[..m];
      assert s[..last][m..] + [s[last]] == s[m..];
    } else {
      assert s[..m] == s;
    }
  }

  /** Indices at or beyond the end are irrelevant. */
  lemma {:induction false} WithoutIgnoresOutOfRange<T>(s: seq<T>, drop: set<int>, extra: set<int>)
    requires forall i :: i in extra ==> i >= |s|
    ensures Without(s, drop + extra) == Without(s, drop)
  {
    if s != [] {
      WithoutIgnoresOutOfRange(s[..|s| - 1], drop, extra);
    }
  }

  /** When every dropped index is in range, exactly `|drop|` elements go. */
  lemma {:induction false} WithoutLength<T>(s: seq<T>, drop: set<int>)
    requires forall i :: i in drop ==> 0 <= i < |s|
    ensures |Without(s, drop)| == |s| - |drop|
  {
    if s == [] {
      assert forall i :: i !in drop;
      assert drop == {};
    } else {
      var last := |s| - 1;
      var rest := drop - {last};
      WithoutLength(s[..last], rest);
      WithoutIgnoresOutOfRange(s[..last], rest, drop * {last});
      assert rest + drop * {last} == drop;
    }
  }

  /**
   * Popping position `pid - |drop|` from `Without(s, drop)`, when every index in `drop` lies
   * below `pid`, removes exactly the element at index `pid` of `s`: this is how the scripts
   * shift a polygon index by the number of polygons already removed.
   */
  lemma PopAfterWithout<T>(s: seq<T>, drop: set<int>, pid: nat)
    requires pid < |s|
    requires forall i :: i in drop ==> 0 <= i < pid
    ensures var w := Without(s, drop);
      var j := pid - |drop|;
      && 0 <= j < |w|
      && w[j] == s[pid]
      && w[..j] + w[j + 1..] == Without(s, drop + {pid})
  {
    var w := Without(s, drop);
    var head := Without(s[..pid], drop);
    var j := pid - |drop|;
    WithoutSplit(s, drop, pid);
    WithoutLength(s[..pid], drop);
    assert w == head + s[pid..] && |head| == j;
    assert w[j] == s[pid];
    assert w[..j] == head;
    assert w[j + 1..] == s[pid + 1..];
    WithoutPopped(s, drop, pid);
  }

  lemma WithoutPopped<T>(s: seq<T>, drop: set<int>, pid: nat)
    requires pid < |s|
    requires forall i :: i in drop ==> 0 <= i < pid
    ensures Without(s, drop + {pid}) == Without(s[..pid], drop) + s[pid + 1..]
  {
    var more := drop + {pid};
    var upTo := s[..pid + 1];
    WithoutSplit(s, more, pid + 1);
    assert upTo[..pid] == s[..pid];
    WithoutIgnoresOutOfRange(s[..pid], drop, {pid});
  }
}
