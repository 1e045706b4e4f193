/**
 * `PrintGraphTree` of `access_graph_entities_2024_2.py`: a node graph's entities with their depth
 * in the hierarchy, and the line printed for each.
 *
 * A graph node has an id (empty for the graph's root), a kind and its children in order. A null
 * graph is `None`.
 */
module GraphTree {
  import opened Wrappers

  datatype NodeKind = KindNode | KindInPort | KindInputs | KindNone | KindOutPort | KindOutputs | OtherKind(code: int)

  datatype GraphNode = GraphNode(id: string, kind: NodeKind, children: seq<GraphNode>)

  const UNKNOWN_KIND: string := "UNKNOWN KIND"
  const ROOT_SUFFIX: string := "(Root Node)"

  /** `kindMap`: the printed name of each kind the script knows. */
  const KIND_MAP: map<NodeKind, string> := map[
    KindNode := "NODE", KindInPort := "INPORT", KindInputs := "INPUTS",
    KindNone := "NONE", KindOutPort := "OUTPORT", KindOutputs := "OUTPUTS"]

  /** `kindMap.get(kind, 'UNKNOWN KIND')`. */
  function KindName(kind: NodeKind): string {
    if kind in KIND_MAP then KIND_MAP[kind] else UNKNOWN_KIND
  }

  /** Only kinds outside the map print as unknown. */
  lemma KindNameUnknown(kind: NodeKind)
    ensures KindName(kind) == UNKNOWN_KIND <==> kind.OtherKind?
  {
    if !kind.OtherKind? {
      assert kind in KIND_MAP;
    }
  }

  // ---------------------------------------------------------------------------------------------
  // iterTree
  // ---------------------------------------------------------------------------------------------

  /** `iterTree(node, depth)`: the node at `depth`, then each child's entries at `depth + 1`, one
      child's after the other. */
  function IterTree(node: GraphNode, depth: nat): (r: seq<(GraphNode, nat)>)
    ensures r != [] && r[0] == (node, depth)
    decreases node, 1
  {
    [(node, depth)] + IterChildren(node.children, depth + 1)
  }

  function IterChildren(children: seq<GraphNode>, depth: nat): seq<(GraphNode, nat)>
    decreases children, 0
  {
    if children == [] then [] else IterTree(children[0], depth) + IterChildren(children[1..], depth)
  }

  /** `m` is `depth` levels below `node`. */
  ghost predicate DescendantAt(node: GraphNode, m: GraphNode, depth: nat)
    decreases node
  {
    if depth == 0 then m == node
    else exists k :: 0 <= k < |node.children| && DescendantAt(node.children[k], m, depth - 1)
  }

  /** The walk yields every descendant of the node, itself included, together with its depth
      below the node added to the start depth, and nothing else. */
  lemma {:induction false} IterTreeYieldsDescendants(node: GraphNode, depth: nat, m: GraphNode, d: nat)
    ensures (m, d) in IterTree(node, depth) <==> d >= depth && DescendantAt(node, m, d - depth)
    decreases node, 1
  {
    IterChildrenYieldsDescendants(node.children, depth + 1, m, d);
    if d > depth {
      assert DescendantAt(node, m, d - depth) <==>
        exists k :: 0 <= k < |node.children| && DescendantAt(node.children[k], m, d - depth - 1);
    }
  }

  lemma {:induction false} IterChildrenYieldsDescendants(children: seq<GraphNode>, depth: nat, m: GraphNode, d: nat)
    ensures (m, d) in IterChildren(children, depth) <==>
      d >= depth && exists k :: 0 <= k < |children| && DescendantAt(children[k], m, d - depth)
    decreases children, 0
  {
    if children != [] {
      IterTreeYieldsDescendants(children[0], depth, m, d);
      IterChildrenYieldsDescendants(children[1..], depth, m, d);
      if d >= depth {
        if exists k :: 0 <= k < |children| && DescendantAt(children[k], m, d - depth) {
          var k :| 0 <= k < |children| && DescendantAt(children[k], m, d - depth);
          if k > 0 {
            assert children[1..][k - 1] == children[k];
          }
        }
        if exists k :: 0 <= k < |children[1..]| && DescendantAt(children[1..][k], m, d - depth) {
          var k :| 0 <= k < |children[1..]| && DescendantAt(children[1..][k], m, d - depth);
          assert children[k + 1] == children[1..][k];
        }
      }
    }
  }

  // ---------------------------------------------------------------------------------------------
  // PrintGraphTree
  // ---------------------------------------------------------------------------------------------

  /** `" " * n`: the indentation before a node's entry. */
  function Spaces(n: nat): (r: string)
    ensures |r| == n
    ensures forall k :: 0 <= k < n ==> r[k] == ' '
  {
    if n == 0 then "" else " " + Spaces(n - 1)
  }

  /** The line printed for a node at `depth`: two spaces per level, the quoted id and the kind's
      name, and the root marker when the id is empty. */
  function NodeLine(node: GraphNode, depth: nat): string {
    Spaces(2 * depth) + " + '" + node.id + "' [" + KindName(node.kind) + "]"
    + (if node.id != "" then "" else ROOT_SUFFIX)
  }

  /** The root marker ends exactly the lines of nodes with an empty id. */
  lemma NodeLineRootMarker(node: GraphNode, depth: nat)
    ensures var line := NodeLine(node, depth);
      && (node.id == "" ==> |line| >= |ROOT_SUFFIX| && line[|line| - |ROOT_SUFFIX|..] == ROOT_SUFFIX)
      && (node.id != "" ==> line[|line| - 1] == ']')
  {
  }

  /** A line starts with two spaces per level of depth, followed by the entry marker ` + `. */
  lemma NodeLineIndented(node: GraphNode, depth: nat)
    ensures var line := NodeLine(node, depth);
      && |line| > 2 * depth + 2
      && (forall k :: 0 <= k < 2 * depth ==> line[k] == ' ')
      && line[2 * depth..2 * depth + 3] == " + "
  {
    var line := NodeLine(node, depth);
    var pad := Spaces(2 * depth);
    assert line == pad + (" + '" + node.id + "' [" + KindName(node.kind) + "]"
      + (if node.id != "" then "" else ROOT_SUFFIX));
  }

  /** `PrintGraphTree`: a null graph is an error raised before anything is printed; otherwise one
      line per entry of the walk from the root at depth 0. */
  function PrintGraphTree(graph: Option<GraphNode>): (r: Result<seq<string>>)
    ensures r.Err? <==> graph.None?
    ensures r.Ok? ==> |r.value| == |IterTree(graph.value, 0)|
    ensures r.Ok? ==> forall i :: 0 <= i < |r.value| ==>
      r.value[i] == NodeLine(IterTree(graph.value, 0)[i].0, IterTree(graph.value, 0)[i].1)
  {
    if graph.None? then Err("RuntimeError: Invalid graph.")
    else
      var entries := IterTree(graph.value, 0);
      Ok(seq(|entries|, i requires 0 <= i < |entries| => NodeLine(entries[i].0, entries[i].1)))
  }
}
