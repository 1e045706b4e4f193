/**
 * Scene objects as a tree with the host's links: `down` is the first child, `next` the next
 * sibling, and every object may carry a generator cache and a deformer cache. `Nil` stands for
 * `None`, including where a script is handed something that is not a scene object. The host
 * compares objects by identity; `id` stands for that identity, so two objects that agree in every
 * other field are still different values.
 *
 * This module holds the object-tree walk of `operation_transfer_axis_s26.py` (`GetAllNodes` and
 * the choice of a target object in `main`).
 */
module ObjectTree {
  import opened Wrappers
  import opened Lists

  datatype Color = Color(r: real, g: real, b: real)

  datatype Obj =
    | Nil
    | Obj(id: nat, name: string, typeName: string, typeId: int, control: bool, polygon: bool, color: Color,
          cache: Obj, deformCache: Obj, down: Obj, next: Obj)

  /** The number of objects reachable through every link; a measure for the walks. */
  function Size(n: Obj): nat {
    if n.Nil? then 0 else 1 + Size(n.cache) + Size(n.deformCache) + Size(n.down) + Size(n.next)
  }

  /** `GetChildren`: the sibling chain that starts at `c`. */
  function Chain(c: Obj): (r: seq<Obj>)
    ensures forall k :: 0 <= k < |r| ==> r[k].Obj?
  {
    if c.Nil? then [] else [c] + Chain(c.next)
  }

  // ---------------------------------------------------------------------------------------------
  // GetAllNodes
  // ---------------------------------------------------------------------------------------------

  /** The objects of the forest that starts at `n`: each object, then everything below it, then
      its next siblings with everything below them. Caches are not part of it. */
  function AllNodes(n: Obj): (r: seq<Obj>)
    ensures forall k :: 0 <= k < |r| ==> r[k].Obj?
  {
    if n.Nil? then [] else [n] + AllNodes(n.down) + AllNodes(n.next)
  }

  /** `GetAllNodes`: nothing for `None`; otherwise a walk along the sibling chain that yields each
      object and then, recursively, everything below it. */
  method GetAllNodes(node: Obj) returns (r: seq<Obj>)
    ensures r == AllNodes(node)
    decreases Size(node)
  {
    if node.Nil? {
      return [];
    }
    r := [];
    var n := node;
    while n.Obj?
      invariant r + AllNodes(n) == AllNodes(node)
      invariant Size(n) <= Size(node)
      decreases Size(n)
    {
      var descendants := GetAllNodes(n.down);
      assert AllNodes(n) == [n] + descendants + AllNodes(n.next);
      assert (r + [n] + descendants) + AllNodes(n.next) == r + ([n] + descendants + AllNodes(n.next));
      r := r + [n] + descendants;
      n := n.next;
    }
  }

  /**
   * The walk is a pre-order: from any position, the walk continues with the walk of the object
   * found there, that is the object, all of its descendants and then its following siblings with
   * theirs, before anything else.
   */
  lemma {:induction false} AllNodesPreorder(n: Obj, i: nat)
    requires i < |AllNodes(n)|
    ensures AllNodes(AllNodes(n)[i]) <= AllNodes(n)[i..]
  {
    var down, next := AllNodes(n.down), AllNodes(n.next);
    assert AllNodes(n) == [n] + down + next;
    if i == 0 {
    } else if i - 1 < |down| {
      AllNodesPreorder(n.down, i - 1);
      SuffixFromMiddle(n, down, next, i);
    } else {
      AllNodesPreorder(n.next, i - 1 - |down|);
      SuffixFromLast(n, down, next, i);
    }
  }

  /** A suffix of `[x] + d + e` that starts inside `d`. */
  lemma SuffixFromMiddle<T>(x: T, d: seq<T>, e: seq<T>, i: nat)
    requires 1 <= i <= |d|
    ensures ([x] + d + e)[i..] == d[i - 1..] + e
  {
  }

  /** A suffix of `[x] + d + e` that starts inside `e`. */
  lemma SuffixFromLast<T>(x: T, d: seq<T>, e: seq<T>, i: nat)
    requires |d| < i <= |d| + |e|
    ensures ([x] + d + e)[i..] == e[i - 1 - |d|..]
  {
  }

  /** Every object below a yielded one is yielded after it. */
  lemma AllNodesDescendants(n: Obj, i: nat, k: nat)
    requires i < |AllNodes(n)| && k < |AllNodes(AllNodes(n)[i].down)|
    ensures i + 1 + k < |AllNodes(n)| && AllNodes(n)[i + 1 + k] == AllNodes(AllNodes(n)[i].down)[k]
  {
    AllNodesPreorder(n, i);
    var m := AllNodes(n)[i];
    assert AllNodes(m)[1 + k] == AllNodes(m.down)[k];
    assert AllNodes(n)[i..][1 + k] == AllNodes(m)[1 + k];
  }

  /** Starting at the first object, the walk holds every object of the scene's hierarchy: each
      top-level object and all objects below it. */
  lemma {:induction false} AllNodesCoversForest(n: Obj, i: nat, m: Obj)
    requires i < |Chain(n)| && m in AllNodes(Chain(n)[i].down)
    ensures Chain(n)[i] in AllNodes(n) && m in AllNodes(n)
  {
    assert AllNodes(n) == [n] + AllNodes(n.down) + AllNodes(n.next);
    if i > 0 {
      AllNodesCoversForest(n.next, i - 1, m);
    }
  }

  // ---------------------------------------------------------------------------------------------
  // The target of the axis transfer
  // ---------------------------------------------------------------------------------------------

  const ID_BASE: int := 1000

  datatype Transfer = Aborted | TransferTo(source: Obj, target: Obj)

  /** A popup menu entry: its id and the object's name and type, which the host shows as label
      and icon. */
  datatype MenuEntry = MenuEntry(id: int, name: string, typeId: int)

  /** The popup menu: one entry per object, with id `1000 + i` for position `i`. */
  method PopupMenu(objects: seq<Obj>) returns (bc: seq<MenuEntry>)
    requires forall k :: 0 <= k < |objects| ==> objects[k].Obj?
    ensures |bc| == |objects|
    ensures forall i :: 0 <= i < |bc| ==>
      bc[i].id - ID_BASE == i && bc[i].name == objects[i].name && bc[i].typeId == objects[i].typeId
  {
    bc := [];
    for i := 0 to |objects|
      invariant |bc| == i
      invariant forall k :: 0 <= k < i ==>
        bc[k].id - ID_BASE == k && bc[k].name == objects[k].name && bc[k].typeId == objects[k].typeId
    {
      var node := objects[i];
      bc := bc + [MenuEntry(ID_BASE + i, node.name, node.typeId)];
    }
  }

  /** Every object of the scene is its own host object: no two positions of the walk share an
      identity. */
  predicate UniqueIds(objs: seq<Obj>) {
    forall i, j :: 0 <= i < j < |objs| ==> objs[i].Obj? && objs[j].Obj? && objs[i].id != objs[j].id
  }

  const ERR_NO_SELECTION: string := "RuntimeError: Please select an object."
  const ERR_NOT_IN_LIST: string := "ValueError: list.remove(x): x not in list"
  const ERR_NO_OTHERS: string := "RuntimeError: There are no other objects to transfer the axis to."

  /**
   * `main`: without a selected object nothing happens. Otherwise the selected object is taken out
   * of the list of all objects, and the target is chosen among the others.
   */
  method TransferAxisTarget(first: Obj, op: Obj, res: int) returns (r: Result<Transfer>)
    ensures op.Nil? ==> r == Err(ERR_NO_SELECTION)
    ensures op.Obj? && op !in AllNodes(first) ==> r == Err(ERR_NOT_IN_LIST)
    ensures op.Obj? && op in AllNodes(first) ==> Chosen(op, ListRemove(AllNodes(first), op), res, r)
    ensures UniqueIds(AllNodes(first)) ==> forall i :: 0 <= i < |AllNodes(first)| && AllNodes(first)[i] == op ==>
      Chosen(op, AllNodes(first)[..i] + AllNodes(first)[i + 1..], res, r)
  {
    if op.Nil? {
      return Err(ERR_NO_SELECTION);
    }
    var objects := GetAllNodes(first);
    if op !in objects {
      return Err(ERR_NOT_IN_LIST);
    }
    var all := objects;
    objects := ListRemove(objects, op);
    r := ChooseTarget(op, objects, res);
    if UniqueIds(all) {
      forall i | 0 <= i < |all| && all[i] == op
        ensures Chosen(op, all[..i] + all[i + 1..], res, r)
      {
        UniqueIdsDistinct(all);
        ListRemoveAt(all, i);
      }
    }
  }

  /** Objects with their own identities are distinct values, so `remove` takes out the selected
      object itself and no other. */
  lemma UniqueIdsDistinct(objs: seq<Obj>)
    requires UniqueIds(objs)
    ensures Distinct(objs)
  {
  }

  /** What choosing a target for `op` among `others` may answer when the popup returns `res`: with
      no other object nothing happens, 0 aborts, `1000 + i` picks `others[i]`, and any transfer
      is from `op` to one of the others. */
  ghost predicate Chosen(op: Obj, others: seq<Obj>, res: int, r: Result<Transfer>) {
    && (others == [] ==> r == Err(ERR_NO_OTHERS))
    && (others != [] && res == 0 ==> r == Ok(Aborted))
    && (others != [] && ID_BASE <= res < ID_BASE + |others| ==> r == Ok(TransferTo(op, others[res - ID_BASE])))
    && (r.Ok? && r.value.TransferTo? ==> r.value.source == op && r.value.target in others)
  }

  /** The popup part of `main`: the menu of the other objects, and the answer `res` read as
      `objects[res - 1000]` unless it is 0. */
  method ChooseTarget(op: Obj, objects: seq<Obj>, res: int) returns (r: Result<Transfer>)
    requires forall k :: 0 <= k < |objects| ==> objects[k].Obj?
    ensures Chosen(op, objects, res, r)
  {
    if |objects| < 1 {
      return Err(ERR_NO_OTHERS);
    }
    var bc := PopupMenu(objects);
    if res == 0 {
      return Ok(Aborted);
    }
    var target := PyIndex(objects, res - ID_BASE);
    if target.Err? {
      return Err(target.error);
    }
    return Ok(TransferTo(op, target.value));
  }
}
