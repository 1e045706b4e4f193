/**
 * `read_modata_color_r16.py`: the colours of a cloner's clones, read either from its MoGraph
 * data or from the polygon objects of its caches.
 *
 * The MoGraph data, when the cloner has any, is given as its colour array; the cloner's
 * `MG_LINEAR_OFFSET` parameter is `offset`.
 */
module MoDataColor {
  import opened Wrappers
  import opened Lists
  import opened ObjectTree

  /** The type id `CheckType` tests for a MoGraph cloner. */
  const CLONER_TYPE_ID: int := 1018544

  datatype MoData = MoData(colors: seq<Color>)

  /** `RetrieveColorWithMoData`: a `TypeError` for anything but a cloner, no colours without
      MoGraph data, and otherwise the colour array without its first `offset` entries. */
  function RetrieveColorWithMoData(op: Obj, md: Option<MoData>, offset: int): (r: Result<seq<Color>>)
    requires op.Obj?
    ensures r.Err? <==> op.typeId != CLONER_TYPE_ID
    ensures r.Ok? && md.None? ==> r.value == []
    ensures r.Ok? && md.Some? ==>
      && |r.value| <= |md.value.colors| && r.value == md.value.colors[|md.value.colors| - |r.value|..]
      && (0 <= offset <= |md.value.colors| ==> r.value == md.value.colors[offset..])
      && (offset > |md.value.colors| ==> r.value == [])
  {
    if op.typeId != CLONER_TYPE_ID then Err("TypeError: objects is not a cloner.")
    else if md.None? then Ok([])
    else Ok(PySliceFrom(md.value.colors, offset))
  }

  // ---------------------------------------------------------------------------------------------
  // DeformedPolygonCacheIterator
  // ---------------------------------------------------------------------------------------------

  /** The polygon objects the iterator yields for `op`: those of its deformer cache, those of its
      generator cache, `op` itself when it is a polygon object that is not a control object, and
      those of its children in order. */
  function PolygonCaches(op: Obj): (r: seq<Obj>)
    ensures forall k :: 0 <= k < |r| ==> r[k].Obj?
    decreases op, 1
  {
    if op.Nil? then []
    else
      PolygonCaches(op.deformCache) + PolygonCaches(op.cache)
      + (if !op.control && op.polygon then [op] else [])
      + ChildCaches(op.down)
  }

  /** The polygon objects yielded for the sibling chain starting at `c`. */
  function ChildCaches(c: Obj): (r: seq<Obj>)
    ensures forall k :: 0 <= k < |r| ==> r[k].Obj?
    decreases c, 2
  {
    if c.Nil? then [] else PolygonCaches(c) + ChildCaches(c.next)
  }

  /** `DeformedPolygonCacheIterator`: a `TypeError` for anything but a scene object; otherwise the
      deformer cache is walked first, then the generator cache, then the object, then its
      children one after the other. */
  method DeformedPolygonCacheIterator(op: Obj) returns (r: Result<seq<Obj>>)
    ensures r.Err? <==> op.Nil?
    ensures r.Ok? ==> r.value == PolygonCaches(op)
    decreases Size(op), 1
  {
    if op.Nil? {
      return Err("TypeError: Expected a BaseObject");
    }
    var objs := OwnPolygonCaches(op);
    var temp := op.down;
    while temp.Obj?
      invariant objs + ChildCaches(temp) == PolygonCaches(op)
      invariant Size(temp) < Size(op)
      decreases Size(temp)
    {
      var sub := DeformedPolygonCacheIterator(temp);
      assert (objs + sub.value) + ChildCaches(temp.next) == objs + (sub.value + ChildCaches(temp.next));
      objs := objs + sub.value;
      temp := temp.next;
    }
    return Ok(objs);
  }

  /** The part of the iterator before the children: the deformer cache, the generator cache and
      the object itself. */
  method OwnPolygonCaches(op: Obj) returns (objs: seq<Obj>)
    requires op.Obj?
    ensures objs == PolygonCaches(op.deformCache) + PolygonCaches(op.cache)
      + (if !op.control && op.polygon then [op] else [])
    decreases Size(op), 0
  {
    var fromDeformCache: seq<Obj> := [];
    var temp := op.deformCache;
    if temp.Obj? {
      var sub := DeformedPolygonCacheIterator(temp);
      fromDeformCache := sub.value;
    }
    var fromCache: seq<Obj> := [];
    temp := op.cache;
    if temp.Obj? {
      var sub := DeformedPolygonCacheIterator(temp);
      fromCache := sub.value;
    }
    var own: seq<Obj> := [];
    if !op.control {
      if op.polygon {
        own := [op];
      }
    }
    objs := fromDeformCache + fromCache + own;
  }

  /** `x` is `op` or lies in one of its caches or below it, through any number of caches and
      children. */
  ghost predicate Within(x: Obj, op: Obj)
    decreases op, 1
  {
    op.Obj? && (x == op || Within(x, op.deformCache) || Within(x, op.cache) || WithinChain(x, op.down))
  }

  ghost predicate WithinChain(x: Obj, c: Obj)
    decreases c, 2
  {
    c.Obj? && (Within(x, c) || WithinChain(x, c.next))
  }

  /** The iterator yields exactly the polygon objects that are not control objects, found in the
      object, its caches and its children at any depth. */
  lemma {:induction false} PolygonCachesAre(op: Obj, x: Obj)
    ensures x in PolygonCaches(op) <==> x.Obj? && !x.control && x.polygon && Within(x, op)
    decreases op, 1
  {
    if op.Obj? {
      PolygonCachesAre(op.deformCache, x);
      PolygonCachesAre(op.cache, x);
      ChildCachesAre(op.down, x);
    }
  }

  lemma {:induction false} ChildCachesAre(c: Obj, x: Obj)
    ensures x in ChildCaches(c) <==> x.Obj? && !x.control && x.polygon && WithinChain(x, c)
    decreases c, 2
  {
    if c.Obj? {
      PolygonCachesAre(c, x);
      ChildCachesAre(c.next, x);
    }
  }

  // ---------------------------------------------------------------------------------------------
  // RetrieveColorWithCache and main
  // ---------------------------------------------------------------------------------------------

  /** `RetrieveColorWithCache`: the display colour of each object the iterator yields, in the
      order it yields them. */
  method RetrieveColorWithCache(op: Obj) returns (r: Result<seq<Color>>)
    ensures r.Err? <==> op.Nil?
    ensures r.Ok? ==> |r.value| == |PolygonCaches(op)|
    ensures r.Ok? ==> forall i :: 0 <= i < |r.value| ==> r.value[i] == PolygonCaches(op)[i].color
  {
    var objs := DeformedPolygonCacheIterator(op);
    if objs.Err? {
      return Err(objs.error);
    }
    var finalList: seq<Color> := [];
    for i := 0 to |objs.value|
      invariant |finalList| == i
      invariant forall k :: 0 <= k < i ==> finalList[k] == objs.value[k].color
    {
      finalList := finalList + [objs.value[i].color];
    }
    return Ok(finalList);
  }

  /** `main`: no selected object is a `RuntimeError`, an object that is not a cloner a `TypeError`;
      otherwise both lists of colours. */
  method ReadColors(op: Obj, md: Option<MoData>, offset: int) returns (r: Result<(seq<Color>, seq<Color>)>)
    ensures r.Err? <==> op.Nil? || op.typeId != CLONER_TYPE_ID
    ensures r.Ok? ==>
      && RetrieveColorWithMoData(op, md, offset) == Ok(r.value.0)
      && |r.value.1| == |PolygonCaches(op)|
      && forall i :: 0 <= i < |r.value.1| ==> r.value.1[i] == PolygonCaches(op)[i].color
  {
    if op.Nil? {
      return Err("RuntimeError: Failed to retrieve op");
    }
    if op.typeId != CLONER_TYPE_ID {
      return Err("TypeError: objects is not cloner.");
    }
    var fromMoData := RetrieveColorWithMoData(op, md, offset);
    var fromCache := RetrieveColorWithCache(op);
    return Ok((fromMoData.value, fromCache.value));
  }
}
