/**
 * Python list operations the scripts rely on, on sequences: `index`, `remove`, `insert`,
 * indexing with negative positions, and slicing from a position.
 */
module Lists {
  import opened Wrappers

  predicate Distinct<T(==)>(s: seq<T>) {
    forall i, j :: 0 <= i < j < |s| ==> s[i] != s[j]
  }

  /** `s.index(x)`: the first position of `x`. */
  function IndexOf<T(==)>(s: seq<T>, x: T): (r: nat)
    requires x in s
    ensures r < |s| && s[r] == x && x !in s[..r]
  {
    if s[0] == x then 0
    else
      var r := 1 + IndexOf(s[1..], x);
      assert s[..r] == [s[0]] + s[1..][..r - 1];
      r
  }

  /** In a list without repetitions, the position of an entry is its only position. */
  lemma DistinctIndex<T>(s: seq<T>, i: nat, x: T)
    requires Distinct(s) && i < |s| && s[i] == x
    ensures IndexOf(s, x) == i
  {
    var j := IndexOf(s, x);
    assert s[j] == s[i];
    assert forall k :: 0 <= k < j ==> s[..j][k] == s[k];
  }

  /** `s.remove(x)`: drop the first occurrence of `x`. */
  function ListRemove<T(==)>(s: seq<T>, x: T): (r: seq<T>)
    requires x in s
    ensures |r| == |s| - 1
    ensures multiset(r) == multiset(s) - multiset{x}
    ensures forall k :: 0 <= k < |r| ==> r[k] in s
  {
    var i := IndexOf(s, x);
    assert s == s[..i] + [x] + s[i + 1..];
    s[..i] + s[i + 1..]
  }

  /** In a list without repetitions, removing the entry at position `i` drops exactly position `i`. */
  lemma ListRemoveAt<T>(s: seq<T>, i: nat)
    requires Distinct(s) && i < |s|
    ensures ListRemove(s, s[i]) == s[..i] + s[i + 1..]
  {
    DistinctIndex(s, i, s[i]);
  }

  /** `s.insert(i, x)` for `0 <= i <= |s|`: `x` lands at position `i`, the rest keep their order. */
  function ListInsert<T>(s: seq<T>, i: nat, x: T): (r: seq<T>)
    requires i <= |s|
    ensures |r| == |s| + 1 && r[i] == x
    ensures r[..i] == s[..i] && r[i + 1..] == s[i..]
  {
    s[..i] + [x] + s[i..]
  }

  /** `s[k]`: negative positions count from the end; anything else is an `IndexError`. */
  function PyIndex<T>(s: seq<T>, k: int): (r: Result<T>)
    ensures r.Ok? <==> -|s| <= k < |s|
    ensures 0 <= k < |s| ==> r == Ok(s[k])
    ensures -|s| <= k < 0 ==> r == Ok(s[|s| + k])
  {
    if 0 <= k < |s| then Ok(s[k])
    else if -|s| <= k < 0 then Ok(s[|s| + k])
    else Err("IndexError: list index out of range")
  }

  /** `s[k:]`: a negative start counts from the end, and starts outside the list are clamped. */
  function PySliceFrom<T>(s: seq<T>, k: int): (r: seq<T>)
    ensures |r| <= |s| && r == s[|s| - |r|..]
    ensures 0 <= k <= |s| ==> |r| == |s| - k
    ensures k > |s| ==> r == []
    ensures k < 0 ==> |r| == if -k < |s| then -k else |s|
  {
    var start := if k < 0 then (if |s| + k < 0 then 0 else |s| + k) else (if k > |s| then |s| else k);
    s[start..]
  }
}
