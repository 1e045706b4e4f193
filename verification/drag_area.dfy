/**
 * The list logic of the drag-and-swap user area (`geuserarea_drag_r13.py`): squares laid out in
 * slots of 100 pixels with 5-pixel gaps, a strict hit test, the drag state a mouse drag builds up
 * tick by tick, and the release rules that reorder the list.
 *
 * Mouse positions and deltas are reals (the host reports floats). The host's drag loop is given
 * as the sequence of deltas `MouseDrag` reports while the drag continues, and whether the drag
 * ended by a release.
 */
module DragArea {
  import opened Wrappers
  import opened Lists

  const SIZE: int := 100
  const NOTOK: int := -1

  // ---------------------------------------------------------------------------------------------
  // Slots and the hit test
  // ---------------------------------------------------------------------------------------------

  /** `GetXYFromId`: the top-left corner of slot `index`, `SIZE` (100) pixels per slot plus a
      5-pixel gap before each, 5 pixels from the top. */
  function GetXYFromId(index: int): (int, int) {
    (100 * index + 5 * index, 5)
  }

  /** The point lies strictly inside slot `i`: not on its border and not in a gap. */
  predicate InSlot(i: int, x: real, y: real) {
    var (sx, sy) := GetXYFromId(i);
    sx as real < x < (sx + SIZE) as real && sy as real < y < (sy + SIZE) as real
  }

  /** Slots do not overlap, so a point hits at most one. */
  lemma SlotsDisjoint(i: int, j: int, x: real, y: real)
    requires i != j && InSlot(i, x, y)
    ensures !InSlot(j, x, y)
  {
    assert 105 * i + 100 <= 105 * j || 105 * j + 100 <= 105 * i;
  }

  /** The first of the first `n` slots that holds the point, or `NOTOK`. */
  function SlotAt(n: nat, x: real, y: real): (r: int)
    ensures r == NOTOK || 0 <= r < n
    ensures r != NOTOK <==> exists i :: 0 <= i < n && InSlot(i, x, y)
    ensures r != NOTOK ==> InSlot(r, x, y)
  {
    if n == 0 then NOTOK
    else
      var prev := SlotAt(n - 1, x, y);
      if prev != NOTOK then prev else if InSlot(n - 1, x, y) then n - 1 else NOTOK
  }

  /** A point inside slot `i` is found at slot `i`. */
  lemma SlotAtFirst(n: nat, i: nat, x: real, y: real)
    requires i < n && InSlot(i, x, y)
    ensures SlotAt(n, x, y) == i
  {
    var r := SlotAt(n, x, y);
    if r != i {
      SlotsDisjoint(i, r, x, y);
    }
  }

  /** The centre of every slot hits that slot, and a point in the gap after a slot, or on its
      border, hits none. */
  lemma SlotHits(n: nat, i: nat, y: real)
    requires i < n
    ensures SlotAt(n, (105 * i + 50) as real, 55.0) == i
    ensures SlotAt(n, (105 * i + 100) as real, y) == NOTOK
    ensures SlotAt(n, (105 * i + 102) as real, y) == NOTOK
  {
    var cx := (105 * i + 50) as real;
    assert InSlot(i, cx, 55.0);
    forall j | 0 <= j < n && j != i ensures !InSlot(j, cx, 55.0) {
      SlotsDisjoint(i, j, cx, 55.0);
    }
    var edge, gap := (105 * i + 100) as real, (105 * i + 102) as real;
    forall j | 0 <= j < n ensures !InSlot(j, edge, y) && !InSlot(j, gap, y) {
      if j <= i {
        assert (105 * j + 100) as real <= (105 * i + 100) as real;
      } else {
        assert (105 * (i + 1)) as real <= (105 * j) as real;
      }
    }
  }

  // ---------------------------------------------------------------------------------------------
  // List operations and the release rules
  // ---------------------------------------------------------------------------------------------

  /** `s[i], s[j] = s[j], s[i]`. */
  function Swap<T>(s: seq<T>, i: nat, j: nat): seq<T>
    requires i < |s| && j < |s|
  {
    s[i := s[j]][j := s[i]]
  }

  /**
   * What releasing the square at position `current` over `pos` does to the list: over another
   * square the two are swapped; over no square, left of the first slot the dragged square moves to
   * the front, past the end of the last slot it moves to the back, unless it is already there.
   */
  function Released<T>(s: seq<T>, current: nat, pos: (real, real)): (r: seq<T>)
    requires current < |s|
    ensures |r| == |s|
  {
    var target := SlotAt(|s|, pos.0, pos.1);
    var last := |s| - 1;
    if target != NOTOK then
      if target != current then Swap(s, current, target) else s
    else MovedOff(s, current, pos.0)
  }

  /** The release rules over no square, for a release at horizontal position `x`. */
  function MovedOff<T>(s: seq<T>, current: nat, x: real): (r: seq<T>)
    requires current < |s|
    ensures |r| == |s|
  {
    var last := |s| - 1;
    if current != 0 && x < GetXYFromId(0).0 as real then
      [s[current]] + s[..current] + s[current + 1..]
    else if current != last && x > (GetXYFromId(last).0 + SIZE) as real then
      s[..current] + s[current + 1..] + [s[current]]
    else s
  }

  /** Every release leaves the list a permutation of what it was. */
  lemma ReleasedIsPermutation<T>(s: seq<T>, current: nat, pos: (real, real))
    requires current < |s|
    ensures multiset(Released(s, current, pos)) == multiset(s)
  {
    var target := SlotAt(|s|, pos.0, pos.1);
    assert s == s[..current] + [s[current]] + s[current + 1..];
    if target != NOTOK && target != current {
      SwapIsPermutation(s, current, target);
    }
  }

  lemma SwapIsPermutation<T>(s: seq<T>, i: nat, j: nat)
    requires i < |s| && j < |s|
    ensures multiset(Swap(s, i, j)) == multiset(s)
  {
    var t := s[i := s[j]];
    assert multiset(t) == multiset(s) - multiset{s[i]} + multiset{s[j]};
    assert multiset(t[j := s[i]]) == multiset(t) - multiset{t[j]} + multiset{s[i]};
  }

  /** Releasing over another square swaps exactly those two entries. */
  lemma ReleasedSwaps<T>(s: seq<T>, current: nat, pos: (real, real))
    requires current < |s|
    requires SlotAt(|s|, pos.0, pos.1) != NOTOK && SlotAt(|s|, pos.0, pos.1) != current
    ensures var target := SlotAt(|s|, pos.0, pos.1);
      var r := Released(s, current, pos);
      && r[current] == s[target] && r[target] == s[current]
      && forall k :: 0 <= k < |s| && k != current && k != target ==> r[k] == s[k]
  {
  }

  /** Releasing left of the first slot puts the dragged entry first and keeps the others in
      their order. */
  lemma ReleasedMovesToFront<T>(s: seq<T>, current: nat, pos: (real, real))
    requires current < |s| && SlotAt(|s|, pos.0, pos.1) == NOTOK
    requires current != 0 && pos.0 < 0.0
    ensures Released(s, current, pos)[0] == s[current]
    ensures Released(s, current, pos)[1..] == s[..current] + s[current + 1..]
  {
    var r := Released(s, current, pos);
    assert r == MovedOff(s, current, pos.0);
    assert r == [s[current]] + (s[..current] + s[current + 1..]);
  }

  /** Releasing past the end of the last slot puts the dragged entry last and keeps the others
      in their order. */
  lemma ReleasedMovesToBack<T>(s: seq<T>, current: nat, pos: (real, real))
    requires current < |s| && SlotAt(|s|, pos.0, pos.1) == NOTOK
    requires current != |s| - 1 && pos.0 > (105 * (|s| - 1) + 100) as real
    ensures Released(s, current, pos)[|s| - 1] == s[current]
    ensures Released(s, current, pos)[..|s| - 1] == s[..current] + s[current + 1..]
  {
    var r := Released(s, current, pos);
    assert r == MovedOff(s, current, pos.0);
    assert GetXYFromId(|s| - 1).0 + SIZE == 105 * (|s| - 1) + 100;
    assert !(pos.0 < GetXYFromId(0).0 as real);
    assert r == (s[..current] + s[current + 1..]) + [s[current]];
  }

  // ---------------------------------------------------------------------------------------------
  // The drag ticks
  // ---------------------------------------------------------------------------------------------

  /** The ticks that move the mouse: the first tick is ignored, and so are ticks without motion. */
  function Moves(ticks: seq<(real, real)>): seq<(real, real)> {
    if |ticks| <= 1 then []
    else
      var last := ticks[|ticks| - 1];
      Moves(ticks[..|ticks| - 1]) + if last.0 == 0.0 && last.1 == 0.0 then [] else [last]
  }

  /** The mouse position after the moves: each delta is subtracted. */
  function Position(x0: real, y0: real, moves: seq<(real, real)>): (real, real) {
    if moves == [] then (x0, y0)
    else
      var prev := Position(x0, y0, moves[..|moves| - 1]);
      (prev.0 - moves[|moves| - 1].0, prev.1 - moves[|moves| - 1].1)
  }

  /** The slot of the first position along the moves that hits a square, or `NOTOK`. */
  function FirstSquare(n: nat, x0: real, y0: real, moves: seq<(real, real)>): (r: int)
    ensures r == NOTOK || 0 <= r < n
  {
    if moves == [] then NOTOK
    else
      var prev := FirstSquare(n, x0, y0, moves[..|moves| - 1]);
      if prev != NOTOK then prev else SlotAt(n, Position(x0, y0, moves).0, Position(x0, y0, moves).1)
  }

  /** Once a square is dragged, later moves never change which one. */
  lemma {:induction false} FirstSquareStays(n: nat, x0: real, y0: real, moves: seq<(real, real)>, more: seq<(real, real)>)
    requires FirstSquare(n, x0, y0, moves) != NOTOK
    ensures FirstSquare(n, x0, y0, moves + more) == FirstSquare(n, x0, y0, moves)
    decreases |more|
  {
    if more != [] {
      var init := more[..|more| - 1];
      FirstSquareStays(n, x0, y0, moves, init);
      assert (moves + more)[..|moves + more| - 1] == moves + init;
    } else {
      assert moves + more == moves;
    }
  }

  /** One more tick: the first one and one without motion add no move, any other adds itself. */
  lemma MovesStep(ticks: seq<(real, real)>, i: nat)
    requires i < |ticks|
    ensures var before := Moves(ticks[..i]);
      Moves(ticks[..i + 1]) == before + if i == 0 || (ticks[i].0 == 0.0 && ticks[i].1 == 0.0) then [] else [ticks[i]]
    ensures var before := Moves(ticks[..i]);
      i != 0 && !(ticks[i].0 == 0.0 && ticks[i].1 == 0.0) ==>
      (before + [ticks[i]])[..|before|] == before
  {
    assert ticks[..i + 1][..i] == ticks[..i];
  }

  /** A tick without motion changes nothing. */
  lemma StillTickIgnored(ticks: seq<(real, real)>)
    ensures Moves(ticks + [(0.0, 0.0)]) == Moves(ticks)
  {
    if |ticks| >= 1 {
      assert (ticks + [(0.0, 0.0)])[..|ticks|] == ticks;
    }
  }

  // ---------------------------------------------------------------------------------------------
  // The input guard
  // ---------------------------------------------------------------------------------------------

  datatype Device = Mouse | Keyboard | OtherDevice
  datatype Channel = MouseLeft | MouseRight | MouseMiddle | OtherChannel

  /** The guard as written: the event is ignored only when it is neither from the mouse nor on
      the left channel. */
  predicate HandledAsWritten(device: Device, channel: Channel) {
    !(device != Mouse && channel != MouseLeft)
  }

  /** The left mouse click the guard is documented to let through. */
  predicate IsLeftClick(device: Device, channel: Channel) {
    device == Mouse && channel == MouseLeft
  }

  /** The guard as written also lets a right or middle button press start a drag. */
  lemma GuardLetsOtherButtonsThrough()
    ensures HandledAsWritten(Mouse, MouseRight) && !IsLeftClick(Mouse, MouseRight)
    ensures forall d, c :: IsLeftClick(d, c) ==> HandledAsWritten(d, c)
  {
  }

  // ---------------------------------------------------------------------------------------------
  // The classes
  // ---------------------------------------------------------------------------------------------

  class Square {
    /** The index the square was created with; only used to tell squares apart. */
    const index: int
    const parent: DraggingArea?

    constructor(parent: DraggingArea?, index: int)
      ensures this.parent == parent && this.index == index
    {
      this.parent := parent;
      this.index := index;
    }

    /** `GetParentedIndex`: `NOTOK` without a parent, otherwise the square's position in the
        parent's list (a `ValueError` when it is not there). */
    function GetParentedIndex(): (r: Result<int>)
      reads parent
      ensures parent == null ==> r == Ok(NOTOK)
      ensures parent != null ==> (r.Ok? <==> this in parent.squareList)
      ensures parent != null && r.Ok? ==>
        0 <= r.value < |parent.squareList| && parent.squareList[r.value] == this && this !in parent.squareList[..r.value]
    {
      if parent == null then Ok(NOTOK)
      else if this in parent.squareList then Ok(IndexOf(parent.squareList, this))
      else Err("ValueError: not in list")
    }
  }

  class DraggingArea {
    var squareList: seq<Square>
    var draggedObj: Square?
    var clickedPos: Option<(real, real)>

    /** The squares are distinct and all belong to this area. */
    predicate Valid()
      reads this
    {
      Distinct(squareList) && forall i :: 0 <= i < |squareList| ==> squareList[i].parent == this
    }

    /** No drag in progress. */
    predicate Idle()
      reads this
    {
      draggedObj == null && clickedPos.None?
    }

    /** A new area holds four squares created with indices 0 to 3, in order. */
    constructor()
      ensures Valid() && Idle()
      ensures |squareList| == 4 && forall i :: 0 <= i < 4 ==> squareList[i].index == i
    {
      squareList := [];
      draggedObj := null;
      clickedPos := None;
      new;
      var _ := CreateSquare();
      var _ := CreateSquare();
      var _ := CreateSquare();
      var _ := CreateSquare();
    }

    /** `CreateSquare`: a new square indexed by the current list length is appended. */
    method CreateSquare() returns (square: Square)
      modifies this
      requires Valid()
      ensures Valid()
      ensures fresh(square) && square.parent == this && square.index == |old(squareList)|
      ensures squareList == old(squareList) + [square]
      ensures draggedObj == old(draggedObj) && clickedPos == old(clickedPos)
    {
      square := new Square(this, |squareList|);
      squareList := squareList + [square];
    }

    /** `GetIdFromXY`: the slot strictly containing the point, searched in list order. */
    method GetIdFromXY(xIn: real, yIn: real) returns (r: int)
      ensures r == SlotAt(|squareList|, xIn, yIn)
    {
      for squareId := 0 to |squareList|
        invariant SlotAt(squareId, xIn, yIn) == NOTOK
      {
        var (x, y) := GetXYFromId(squareId);
        if x as real < xIn < (x + SIZE) as real && y as real < yIn < (y + SIZE) as real {
          SlotAtFirst(|squareList|, squareId, xIn, yIn);
          return squareId;
        }
      }
      return NOTOK;
    }

    /** `GetDraggedSquareWithPosition`: the square under the last drag position, if any. */
    method GetDraggedSquareWithPosition() returns (square: Square?)
      ensures clickedPos.None? ==> square == null
      ensures clickedPos.Some? ==>
        var id := SlotAt(|squareList|, clickedPos.value.0, clickedPos.value.1);
        square == if id == NOTOK then null else squareList[id]
    {
      if clickedPos.None? {
        return null;
      }
      var (x, y) := clickedPos.value;
      var squareId := GetIdFromXY(x, y);
      if squareId == NOTOK {
        return null;
      }
      return squareList[squareId];
    }

    /**
     * The drag loop of `InputEvent`: from the click at `(x0, y0)`, each moving tick updates the
     * position, and the first position over a square makes that square the dragged one.
     */
    method Drag(x0: real, y0: real, ticks: seq<(real, real)>)
      modifies this
      requires Idle()
      ensures squareList == old(squareList)
      ensures clickedPos == if Moves(ticks) == [] then None else Some(Position(x0, y0, Moves(ticks)))
      ensures var id := FirstSquare(|squareList|, x0, y0, Moves(ticks));
        draggedObj == if id == NOTOK then null else squareList[id]
    {
      var mouseX, mouseY := x0, y0;
      var isFirstTick := true;
      var i := 0;
      while i < |ticks|
        invariant 0 <= i <= |ticks| && squareList == old(squareList)
        invariant isFirstTick <==> i == 0
        invariant (mouseX, mouseY) == Position(x0, y0, Moves(ticks[..i]))
        invariant clickedPos == if Moves(ticks[..i]) == [] then None else Some((mouseX, mouseY))
        invariant var id := FirstSquare(|squareList|, x0, y0, Moves(ticks[..i]));
          draggedObj == if id == NOTOK then null else squareList[id]
      {
        var (deltaX, deltaY) := ticks[i];
        ghost var before := Moves(ticks[..i]);
        MovesStep(ticks, i);
        i := i + 1;
        if isFirstTick {
          isFirstTick := false;
          assert Moves(ticks[..i]) == before;
          continue;
        }
        if deltaX == 0.0 && deltaY == 0.0 {
          assert Moves(ticks[..i]) == before;
          continue;
        }
        ghost var moves := Moves(ticks[..i]);
        assert moves == before + [(deltaX, deltaY)];
        mouseX := mouseX - deltaX;
        mouseY := mouseY - deltaY;
        assert moves[..|moves| - 1] == before;
        DragTo(mouseX, mouseY, x0, y0, moves);
      }
      assert ticks[..i] == ticks;
    }

    /** One tick that moves the mouse to `(mouseX, mouseY)`, the position after `moves`: the
        position is recorded, and the square under it becomes the dragged one if none is yet. */
    method DragTo(mouseX: real, mouseY: real, ghost x0: real, ghost y0: real, ghost moves: seq<(real, real)>)
      modifies this
      requires moves != [] && (mouseX, mouseY) == Position(x0, y0, moves)
      requires var id := FirstSquare(|squareList|, x0, y0, moves[..|moves| - 1]);
        draggedObj == if id == NOTOK then null else squareList[id]
      ensures squareList == old(squareList) && clickedPos == Some((mouseX, mouseY))
      ensures var id := FirstSquare(|squareList|, x0, y0, moves);
        draggedObj == if id == NOTOK then null else squareList[id]
    {
      clickedPos := Some((mouseX, mouseY));
      var square := GetDraggedSquareWithPosition();
      if square != null && draggedObj == null {
        draggedObj := square;
      }
    }

    /** The release branch of `InputEvent`, run when the drag ended because the mouse button was
        released. */
    method Release()
      modifies this
      requires Valid()
      requires draggedObj != null ==> draggedObj in squareList
      ensures Valid() && draggedObj == old(draggedObj) && clickedPos == old(clickedPos)
      ensures draggedObj == null || clickedPos.None? ==> squareList == old(squareList)
      ensures draggedObj != null && clickedPos.Some? ==>
        squareList == Released(old(squareList), IndexOf(old(squareList), draggedObj), clickedPos.value)
    {
      if draggedObj == null || clickedPos.None? {
        return;
      }
      var s := squareList;
      var currentIndex := draggedObj.GetParentedIndex().value;
      DistinctIndex(s, currentIndex, draggedObj);
      var releasedSquare := GetDraggedSquareWithPosition();
      if releasedSquare != null {
        var targetIndex := releasedSquare.GetParentedIndex().value;
        DistinctIndex(s, targetIndex, releasedSquare);
        if targetIndex != currentIndex {
          squareList := squareList[currentIndex := squareList[targetIndex]][targetIndex := squareList[currentIndex]];
          SwapKeepsValid(s, currentIndex, targetIndex, this);
        }
      } else {
        ReleaseMove(currentIndex);
        assert Released(s, currentIndex, clickedPos.value) == MovedOff(s, currentIndex, clickedPos.value.0);
      }
    }

    /** Moving the dragged square to the front or to the back. */
    method ReleaseMove(currentIndex: nat)
      modifies this
      requires Valid() && draggedObj != null && clickedPos.Some?
      requires currentIndex < |squareList| && squareList[currentIndex] == draggedObj
      ensures Valid() && draggedObj == old(draggedObj) && clickedPos == old(clickedPos)
      ensures squareList == MovedOff(old(squareList), currentIndex, clickedPos.value.0)
    {
      var moved := RemoveInsert(squareList, currentIndex, draggedObj, clickedPos.value.0);
      MoveKeepsValid(squareList, currentIndex, moved, this);
      squareList := moved;
    }

    /**
     * `InputEvent` after the guard: the drag loop, then the release rules when the drag ended by
     * releasing the button, then the drag state is cleared. Only the list order can change, and
     * it changes to a permutation.
     */
    method InputEvent(device: Device, channel: Channel, x0: real, y0: real, ticks: seq<(real, real)>,
                      finished: bool)
      returns (handled: bool)
      modifies this
      requires Valid() && Idle()
      ensures handled && Valid() && Idle()
      ensures multiset(squareList) == multiset(old(squareList))
      ensures !IsLeftClick(device, channel) || !finished ==> squareList == old(squareList)
      ensures IsLeftClick(device, channel) && finished ==>
        var moves := Moves(ticks);
        var current := FirstSquare(|old(squareList)|, x0, y0, moves);
        squareList == if current == NOTOK then old(squareList)
                      else Released(old(squareList), current, Position(x0, y0, moves))
    {
      if !IsLeftClick(device, channel) {
        return true;
      }
      ghost var s := squareList;
      Drag(x0, y0, ticks);
      if finished {
        if draggedObj != null {
          DistinctIndex(squareList, FirstSquare(|s|, x0, y0, Moves(ticks)), draggedObj);
        }
        Release();
        if draggedObj != null && clickedPos.Some? {
          ReleasedIsPermutation(s, IndexOf(s, draggedObj), clickedPos.value);
        }
      }
      if clickedPos.Some? || draggedObj != null {
        clickedPos := None;
        draggedObj := null;
      }
      return true;
    }
  }

  /** The release rules over no square on the list itself, by `remove` and `insert`: `x` is the
      release position and `dragged` the entry at `currentIndex`. */
  method RemoveInsert<T(==)>(list: seq<T>, currentIndex: nat, dragged: T, x: real) returns (r: seq<T>)
    requires Distinct(list) && currentIndex < |list| && list[currentIndex] == dragged
    ensures r == MovedOff(list, currentIndex, x)
  {
    r := list;
    if currentIndex != 0 {
      if x < GetXYFromId(0).0 as real {
        ListRemoveAt(r, currentIndex);
        var rest := ListRemove(r, dragged);
        r := ListInsert(rest, 0, dragged);
        assert r == [list[currentIndex]] + rest;
      }
    }
    var lastIndex := |r| - 1;
    if currentIndex != lastIndex {
      if x > (GetXYFromId(lastIndex).0 + SIZE) as real {
        assert r == list;
        ListRemoveAt(r, currentIndex);
        var rest := ListRemove(r, dragged);
        r := ListInsert(rest, lastIndex, dragged);
        assert r == rest + [list[currentIndex]];
      }
    }
  }

  lemma SwapKeepsValid(s: seq<Square>, i: nat, j: nat, area: DraggingArea)
    requires Distinct(s) && i < |s| && j < |s| && forall k :: 0 <= k < |s| ==> s[k].parent == area
    ensures var t := Swap(s, i, j);
      Distinct(t) && forall k :: 0 <= k < |t| ==> t[k].parent == area
  {
  }

  /** Moving one entry to the front or to the back keeps the entries distinct and their owner. */
  lemma MoveKeepsValid(s: seq<Square>, i: nat, t: seq<Square>, area: DraggingArea)
    requires Distinct(s) && i < |s| && forall k :: 0 <= k < |s| ==> s[k].parent == area
    requires t == s || t == [s[i]] + s[..i] + s[i + 1..] || t == s[..i] + s[i + 1..] + [s[i]]
    ensures Distinct(t) && forall k :: 0 <= k < |t| ==> t[k].parent == area
  {
    if t == s {
    } else if t == [s[i]] + s[..i] + s[i + 1..] {
      assert forall k :: 0 <= k < |t| ==> t[k] == s[if k == 0 then i else if k <= i then k - 1 else k];
    } else {
      assert forall k :: 0 <= k < |t| ==> t[k] == s[if k == |s| - 1 then i else if k < i then k else k + 1];
    }
  }
}
