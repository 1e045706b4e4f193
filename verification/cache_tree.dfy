/**
 * `PrintCacheTree` of `geometry_caches_s26.py`: the lines printed for an object's cache tree.
 * Each line is the object's label behind `indent` tab characters and a prefix that says how the
 * object was reached.
 */
module CacheTree {
  import opened ObjectTree

  const CACHE_PREFIX: string := "[cache]"
  const DEFORM_CACHE_PREFIX: string := "[deform cache]"
  const CHILD_PREFIX: string := "[child]"

  function Tabs(n: nat): (r: string)
    ensures |r| == n && forall k :: 0 <= k < n ==> r[k] == '\t'
  {
    if n == 0 then "" else "\t" + Tabs(n - 1)
  }

  /** One printed line: the depth in tab characters, the prefix and the object's label. */
  datatype Line = Line(depth: nat, prefix: string, name: string, typeName: string)

  /** The text printed for a line. */
  function Render(line: Line): (r: string)
    ensures |r| > line.depth && r[..line.depth] == Tabs(line.depth)
  {
    var text := Tabs(line.depth) + line.prefix + " " + line.name + "(" + line.typeName + ")";
    assert text == Tabs(line.depth) + (line.prefix + " " + line.name + "(" + line.typeName + ")");
    text
  }

  /** `PrintCacheTree(obj, indent, prefix)`: nothing for what is not a scene object; otherwise the
      object's line and then the lines below it. */
  function CacheTreeLines(obj: Obj, indent: nat, prefix: string): seq<Line>
    decreases obj, 1
  {
    if obj.Nil? then [] else [Line(indent, prefix, obj.name, obj.typeName)] + BelowLines(obj, indent)
  }

  /** The lines below an object: its generator cache's tree and its deformer cache's tree one
      level deeper (each only if present), then every child's tree one level deeper. */
  function BelowLines(obj: Obj, indent: nat): seq<Line>
    requires obj.Obj?
    decreases obj, 0
  {
    (if obj.cache.Obj? then CacheTreeLines(obj.cache, indent + 1, CACHE_PREFIX) else [])
    + (if obj.deformCache.Obj? then CacheTreeLines(obj.deformCache, indent + 1, DEFORM_CACHE_PREFIX) else [])
    + ChildLines(obj.down, indent + 1)
  }

  /** The trees of the children in the sibling chain starting at `c`, all with the child prefix. */
  function ChildLines(c: Obj, indent: nat): seq<Line>
    decreases c, 2
  {
    if c.Nil? then [] else CacheTreeLines(c, indent, CHILD_PREFIX) + ChildLines(c.next, indent)
  }

  /** `PrintCacheTree(obj)`: indentation 0 and an empty prefix. */
  function PrintCacheTree(obj: Obj): (r: seq<Line>)
    ensures obj.Nil? <==> r == []
    ensures obj.Obj? ==> Render(r[0]) == " " + obj.name + "(" + obj.typeName + ")"
  {
    CacheTreeLines(obj, 0, "")
  }

  /** How many objects the tree shows: the object, its caches' trees and its children's trees. */
  function CacheTreeSize(obj: Obj): nat
    decreases obj, 1
  {
    if obj.Nil? then 0 else 1 + CacheTreeSize(obj.cache) + CacheTreeSize(obj.deformCache) + ChildSize(obj.down)
  }

  function ChildSize(c: Obj): nat
    decreases c, 2
  {
    if c.Nil? then 0 else CacheTreeSize(c) + ChildSize(c.next)
  }

  /** One line per object in the tree. */
  lemma {:induction false} CacheTreeLineCount(obj: Obj, indent: nat, prefix: string)
    ensures |CacheTreeLines(obj, indent, prefix)| == CacheTreeSize(obj)
    decreases obj, 1
  {
    if obj.Obj? {
      CacheTreeLineCount(obj.cache, indent + 1, CACHE_PREFIX);
      CacheTreeLineCount(obj.deformCache, indent + 1, DEFORM_CACHE_PREFIX);
      ChildLineCount(obj.down, indent + 1);
    }
  }

  lemma {:induction false} ChildLineCount(c: Obj, indent: nat)
    ensures |ChildLines(c, indent)| == ChildSize(c)
    decreases c, 2
  {
    if c.Obj? {
      CacheTreeLineCount(c, indent, CHILD_PREFIX);
      ChildLineCount(c.next, indent);
    }
  }

  /** Every line is printed at least `d` tabs deep. */
  predicate AtLeast(lines: seq<Line>, d: nat) {
    forall k :: 0 <= k < |lines| ==> lines[k].depth >= d
  }

  lemma AtLeastConcat(a: seq<Line>, b: seq<Line>, d: nat)
    requires AtLeast(a, d) && AtLeast(b, d)
    ensures AtLeast(a + b, d)
  {
  }

  /** A tree printed at `indent` starts with the object's own line at `indent` with the given
      prefix, and every later line is deeper: whatever hangs below an object is printed under
      it, indented further. */
  lemma {:induction false} CacheTreeIndented(obj: Obj, indent: nat, prefix: string)
    ensures var lines := CacheTreeLines(obj, indent, prefix);
      && AtLeast(lines, indent)
      && (obj.Obj? ==> lines[0] == Line(indent, prefix, obj.name, obj.typeName) && AtLeast(lines[1..], indent + 1))
    decreases obj, 2
  {
    if obj.Obj? {
      var first := Line(indent, prefix, obj.name, obj.typeName);
      var below := BelowLines(obj, indent);
      BelowIndented(obj, indent);
      assert ([first] + below)[1..] == below;
    }
  }

  lemma {:induction false} BelowIndented(obj: Obj, indent: nat)
    requires obj.Obj?
    ensures AtLeast(BelowLines(obj, indent), indent + 1)
    decreases obj, 1
  {
    var cache := if obj.cache.Obj? then CacheTreeLines(obj.cache, indent + 1, CACHE_PREFIX) else [];
    var deform := if obj.deformCache.Obj? then CacheTreeLines(obj.deformCache, indent + 1, DEFORM_CACHE_PREFIX) else [];
    var children := ChildLines(obj.down, indent + 1);
    CacheTreeIndented(obj.cache, indent + 1, CACHE_PREFIX);
    CacheTreeIndented(obj.deformCache, indent + 1, DEFORM_CACHE_PREFIX);
    ChildLinesIndented(obj.down, indent + 1);
    AtLeastConcat(cache, deform, indent + 1);
    AtLeastConcat(cache + deform, children, indent + 1);
  }

  lemma {:induction false} ChildLinesIndented(c: Obj, indent: nat)
    ensures AtLeast(ChildLines(c, indent), indent)
    decreases c, 3
  {
    if c.Obj? {
      CacheTreeIndented(c, indent, CHILD_PREFIX);
      ChildLinesIndented(c.next, indent);
      AtLeastConcat(CacheTreeLines(c, indent, CHILD_PREFIX), ChildLines(c.next, indent), indent);
    }
  }
}
