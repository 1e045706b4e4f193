/**
 * `gvnodemaster_loops_nodes_r13.py`: the walk over the nodes of an Xpresso tag's node master,
 * which reports every node of a sibling chain and enters only group nodes.
 *
 * Nodes carry the host's links: `down` is the first inner node, `next` the next sibling. The
 * parent a node's `GetUp` returns is the node whose inner chain holds it, so the walk hands the
 * parent's name down; the root chain has none. The host's `ID_OPERATOR_CONST` is a parameter.
 */
module Xpresso {
  import opened Wrappers

  datatype GvNode =
    | GvNil
    | GvNode(name: string, operatorId: int, isGroup: bool, down: GvNode, next: GvNode)

  /** What is printed for one node. */
  datatype Report = Report(name: string, isConstant: bool, parent: string)

  const MASTER_LABEL: string := "Master XGroup"

  /** The parent column: the parent's name, or the master group's label without a parent. */
  function ParentLabel(up: Option<string>): (r: string)
    ensures r == MASTER_LABEL <==> up.None? || up.value == MASTER_LABEL
  {
    if up.Some? then up.value else MASTER_LABEL
  }

  function Size(node: GvNode): nat {
    if node.GvNil? then 0 else 1 + Size(node.down) + Size(node.next)
  }

  /** The reports of the walk from `node`, whose parent is `up`: each node of the sibling chain,
      and right after it the reports of its inner chain when it is a group. */
  function Reports(node: GvNode, up: Option<string>, constId: int): seq<Report> {
    if node.GvNil? then []
    else
      [Report(node.name, node.operatorId == constId, ParentLabel(up))]
      + (if node.isGroup then Reports(node.down, Some(node.name), constId) else [])
      + Reports(node.next, up, constId)
  }

  /** `iterateNodes`: along the sibling chain, report the node and walk the inner chain of a group
      node before moving on to the next sibling. */
  method IterateNodes(node: GvNode, up: Option<string>, constId: int) returns (out: seq<Report>)
    ensures out == Reports(node, up, constId)
    decreases Size(node), 1
  {
    out := [];
    var n := node;
    while n.GvNode?
      invariant out + Reports(n, up, constId) == Reports(node, up, constId)
      invariant Size(n) <= Size(node)
      decreases Size(n)
    {
      out := ReportNode(out, n, up, constId);
      n := n.next;
    }
  }

  /** One step of `iterateNodes`: after what `acc` already holds, the node's report, then the walk
      of its inner chain when it is a group. */
  method ReportNode(acc: seq<Report>, n: GvNode, up: Option<string>, constId: int) returns (out: seq<Report>)
    requires n.GvNode?
    ensures out + Reports(n.next, up, constId) == acc + Reports(n, up, constId)
    decreases Size(n), 0
  {
    var isConstantNode := n.operatorId == constId;
    var parent := ParentLabel(up);
    var inner: seq<Report> := [];
    if n.isGroup {
      inner := IterateNodes(n.down, Some(n.name), constId);
    }
    out := acc + [Report(n.name, isConstantNode, parent)] + inner;
    assert out + Reports(n.next, up, constId) == acc + ([Report(n.name, isConstantNode, parent)] + inner + Reports(n.next, up, constId));
  }

  /** The same nodes with the inner chain of every non-group node removed. */
  function Pruned(node: GvNode): GvNode {
    if node.GvNil? then GvNil
    else GvNode(node.name, node.operatorId, node.isGroup,
                if node.isGroup then Pruned(node.down) else GvNil, Pruned(node.next))
  }

  /** The walk enters group nodes only: whatever hangs below a node that is not a group is never
      reported. */
  lemma {:induction false} InnerNodesOfNonGroupsUnseen(node: GvNode, up: Option<string>, constId: int)
    ensures Reports(Pruned(node), up, constId) == Reports(node, up, constId)
  {
    if node.GvNode? {
      InnerNodesOfNonGroupsUnseen(node.next, up, constId);
      if node.isGroup {
        InnerNodesOfNonGroupsUnseen(node.down, Some(node.name), constId);
      }
    }
  }

  /** Every report names a node reached through group nodes, and a node is flagged constant
      exactly when its operator is the constant operator. */
  lemma {:induction false} ReportsFlagConstants(node: GvNode, up: Option<string>, constId: int, i: nat)
    requires i < |Reports(node, up, constId)|
    ensures exists m :: (Reached(m, node) && m.GvNode? && Reports(node, up, constId)[i].name == m.name
                         && (Reports(node, up, constId)[i].isConstant <==> m.operatorId == constId))
  {
    var inner := if node.isGroup then Reports(node.down, Some(node.name), constId) else [];
    var rest := Reports(node.next, up, constId);
    assert Reports(node, up, constId) == [Report(node.name, node.operatorId == constId, ParentLabel(up))] + inner + rest;
    if i == 0 {
      assert Reached(node, node);
    } else if i - 1 < |inner| {
      ReportsFlagConstants(node.down, Some(node.name), constId, i - 1);
      var m :| Reached(m, node.down) && m.GvNode? && inner[i - 1].name == m.name && (inner[i - 1].isConstant <==> m.operatorId == constId);
      assert Reached(m, node);
    } else {
      ReportsFlagConstants(node.next, up, constId, i - 1 - |inner|);
      var m :| Reached(m, node.next) && m.GvNode? && rest[i - 1 - |inner|].name == m.name
        && (rest[i - 1 - |inner|].isConstant <==> m.operatorId == constId);
      assert Reached(m, node);
    }
  }

  /** `m` is a node of the chain starting at `node`, or of the inner chain of a group node in it,
      at any depth. */
  ghost predicate Reached(m: GvNode, node: GvNode) {
    node.GvNode? && (m == node || (node.isGroup && Reached(m, node.down)) || Reached(m, node.next))
  }

  // ---------------------------------------------------------------------------------------------
  // main
  // ---------------------------------------------------------------------------------------------

  /** A node master, whose root may be missing (`GvNil`). */
  datatype NodeMaster = NodeMaster(root: GvNode)
  /** An Xpresso tag, whose node master may be missing. */
  datatype XpressoTag = XpressoTag(master: Option<NodeMaster>)
  /** The selection: no object, or an object with or without an Xpresso tag. */
  datatype Selection = NoObject | Selected(tag: Option<XpressoTag>)

  const ERR_NO_OBJECT: string := "ValueError: op is none, please select one object."
  const ERR_NO_TAG: string := "ValueError: Make sure the selected object get an Xpresso Tag."
  const ERR_NO_MASTER: string := "RuntimeError: Failed to retrieve the Node Master."
  const ERR_NO_ROOT: string := "RuntimeError: Failed to retrieve the Root Node."

  /** `main`: no object, no Xpresso tag, no node master and no root node are errors, checked in
      that order before the walk; otherwise the walk from the root, which has no parent. */
  method WalkSelectedTag(op: Selection, constId: int) returns (r: Result<seq<Report>>)
    ensures op.NoObject? ==> r == Err(ERR_NO_OBJECT)
    ensures op.Selected? && op.tag.None? ==> r == Err(ERR_NO_TAG)
    ensures op.Selected? && op.tag.Some? && op.tag.value.master.None? ==>
      r == Err(ERR_NO_MASTER)
    ensures op.Selected? && op.tag.Some? && op.tag.value.master.Some? && op.tag.value.master.value.root.GvNil? ==>
      r == Err(ERR_NO_ROOT)
    ensures r.Ok? <==> op.Selected? && op.tag.Some? && op.tag.value.master.Some? && op.tag.value.master.value.root.GvNode?
    ensures r.Ok? ==> r.value == Reports(op.tag.value.master.value.root, None, constId)
  {
    if op.NoObject? {
      return Err(ERR_NO_OBJECT);
    }
    var xpressoTag := op.tag;
    if xpressoTag.None? {
      return Err(ERR_NO_TAG);
    }
    var gvNodeMaster := xpressoTag.value.master;
    if gvNodeMaster.None? {
      return Err(ERR_NO_MASTER);
    }
    var gvRoot := gvNodeMaster.value.root;
    if gvRoot.GvNil? {
      return Err(ERR_NO_ROOT);
    }
    var out := IterateNodes(gvRoot, None, constId);
    return Ok(out);
  }
}
