/** How `onNodesChange` and `onEdgesChange` decide the selected component from
    a batch of library change events. Every `setSelectedComponent` call in the
    loop is batched, so the state after the handler is that of the last call;
    the folds below are that last call, taken change by change. */
module Selection {
  import opened JsSemantics
  import opened DiagramTypes

  /** The node changes the library reports, with the fields the loop reads.
      `OtherNodeChange` stands for the dimension, add and reset changes. */
  datatype NodeChange =
    | SelectNode(id: string, selected: bool)
    | PositionChange(id: string, position: Option<Position>, dragging: Option<bool>)
    | RemoveNode(id: string)
    | OtherNodeChange(id: string)

  /** The edge changes the library reports; `OtherEdgeChange` stands for add and reset. */
  datatype EdgeChange =
    | SelectEdge(id: string, selected: bool)
    | RemoveEdge(id: string)
    | OtherEdgeChange(id: string)

  /** The filter of `onNodesChange`: a select, a position change with
      `dragging === false` (the end of a drag), or a removal. */
  predicate Qualifies(c: NodeChange): (q: bool)
    ensures c.SelectNode? || c.RemoveNode? ==> q
    ensures c.OtherNodeChange? ==> !q
    ensures c.PositionChange? ==> (q <==> c.dragging == Some(false))
  {
    c.SelectNode? || (c.PositionChange? && c.dragging == Some(false)) || c.RemoveNode?
  }

  /** `selection.selected || selection.dragging === false`: the change selects
      a node rather than clearing the selection. */
  predicate Picks(c: NodeChange): (p: bool)
    ensures p ==> Qualifies(c)
    ensures Qualifies(c) && !p <==> (c.SelectNode? && !c.selected) || c.RemoveNode?
  {
    (c.SelectNode? && c.selected) || (c.PositionChange? && c.dragging == Some(false))
  }

  /** `nodes.find((node) => node.id === id)`, as a selected component. */
  function NodeWithId(nodes: seq<Node>, id: string): (r: Option<Element>)
    ensures r.Some? ==> r.value.NodeElement? && r.value.node in nodes && r.value.Id() == id
    ensures r.None? <==> forall n :: n in nodes ==> n.id != id
    ensures r.Some? ==> exists i :: 0 <= i < |nodes| && r.value == NodeElement(nodes[i])
                                     && forall j :: 0 <= j < i ==> nodes[j].id != id
  {
    match Find(nodes, NodeHasId(id))
    case None => None
    case Some(n) => Some(NodeElement(n))
  }

  /** `edges.find((edge) => edge.id === id)`, as a selected component. */
  function EdgeWithId(edges: seq<Edge>, id: string): (r: Option<Element>)
    ensures r.Some? ==> r.value.EdgeElement? && r.value.edge in edges && r.value.Id() == id
    ensures r.None? <==> forall e :: e in edges ==> e.id != id
    ensures r.Some? ==> exists i :: 0 <= i < |edges| && r.value == EdgeElement(edges[i])
                                     && forall j :: 0 <= j < i ==> edges[j].id != id
  {
    match Find(edges, EdgeHasId(id))
    case None => None
    case Some(e) => Some(EdgeElement(e))
  }

  /** The selection one node change leaves behind. */
  function NodeStep(c: NodeChange, nodes: seq<Node>, sel: Option<Element>): Option<Element> {
    if !Qualifies(c) then sel
    else if Picks(c) then NodeWithId(nodes, c.id)
    else None
  }

  /** The selection after the loop of `onNodesChange` over `changes`, starting
      from `sel`, looking nodes up in the pre-change sequence `nodes`. */
  function NodeSelectionAfter(changes: seq<NodeChange>, nodes: seq<Node>, sel: Option<Element>): (r: Option<Element>)
    ensures r == sel || r.None? || (r.value.NodeElement? && r.value.node in nodes)
    ensures (forall c :: c in changes ==> !Qualifies(c)) ==> r == sel
    decreases |changes|
  {
    if changes == [] then sel
    else NodeStep(changes[|changes| - 1], nodes, NodeSelectionAfter(changes[..|changes| - 1], nodes, sel))
  }

  /** The last change that passes the filter of `onNodesChange`, if any. */
  function LastQualifying(changes: seq<NodeChange>): (r: Option<NodeChange>)
    ensures r.Some? ==> r.value in changes && Qualifies(r.value)
    ensures r.None? <==> forall c :: c in changes ==> !Qualifies(c)
    ensures r.Some? ==> exists i :: 0 <= i < |changes| && changes[i] == r.value
                                     && forall j :: i < j < |changes| ==> !Qualifies(changes[j])
    decreases |changes|
  {
    if changes == [] then None
    else if Qualifies(changes[|changes| - 1]) then Some(changes[|changes| - 1])
    else
      assert changes == changes[..|changes| - 1] + [changes[|changes| - 1]];
      LastQualifying(changes[..|changes| - 1])
  }

  /** The last qualifying change decides the selection alone: a select or the
      end of a drag selects the first node with its id, a deselect or a removal
      clears it, and with no qualifying change the selection is kept. */
  lemma {:induction false} LastQualifyingDecides(changes: seq<NodeChange>, nodes: seq<Node>, sel: Option<Element>)
    ensures NodeSelectionAfter(changes, nodes, sel) ==
            match LastQualifying(changes)
            case None => sel
            case Some(c) => if Picks(c) then NodeWithId(nodes, c.id) else None
    decreases |changes|
  {
    if changes != [] && !Qualifies(changes[|changes| - 1]) {
      LastQualifyingDecides(changes[..|changes| - 1], nodes, sel);
    }
  }

  /** Changes that do not pass the filter, appended after `c`, do not hide it. */
  lemma {:induction false} LastQualifyingSkipsTail(pre: seq<NodeChange>, c: NodeChange, post: seq<NodeChange>)
    requires Qualifies(c)
    requires forall d :: d in post ==> !Qualifies(d)
    ensures LastQualifying(pre + [c] + post) == Some(c)
  {
    var all := pre + [c] + post;
    assert all[|pre|] == c;
    var r := LastQualifying(all);
    assert r.Some? by { assert c in all; }
    var i :| 0 <= i < |all| && all[i] == r.value && forall j :: i < j < |all| ==> !Qualifies(all[j]);
    assert |pre| <= i;
    assert i <= |pre|;
  }

  /** A removal with only non-qualifying changes after it clears the selection,
      even when an earlier change of the batch selected a node. */
  lemma RemovalClearsSelection(pre: seq<NodeChange>, id: string, post: seq<NodeChange>,
                               nodes: seq<Node>, sel: Option<Element>)
    requires forall d :: d in post ==> !Qualifies(d)
    ensures NodeSelectionAfter(pre + [RemoveNode(id)] + post, nodes, sel) == None
  {
    LastQualifyingSkipsTail(pre, RemoveNode(id), post);
    LastQualifyingDecides(pre + [RemoveNode(id)] + post, nodes, sel);
  }

  /** The end of a drag with only non-qualifying changes after it selects the
      dragged node, looked up among the nodes as they were before the batch. */
  lemma DragEndSelectsNode(pre: seq<NodeChange>, id: string, position: Option<Position>,
                           post: seq<NodeChange>, nodes: seq<Node>, sel: Option<Element>)
    requires forall d :: d in post ==> !Qualifies(d)
    ensures NodeSelectionAfter(pre + [PositionChange(id, position, Some(false))] + post, nodes, sel)
            == NodeWithId(nodes, id)
  {
    LastQualifyingSkipsTail(pre, PositionChange(id, position, Some(false)), post);
    LastQualifyingDecides(pre + [PositionChange(id, position, Some(false))] + post, nodes, sel);
  }

  /** The selection one edge change leaves behind; only select changes count. */
  function EdgeStep(c: EdgeChange, edges: seq<Edge>, sel: Option<Element>): Option<Element> {
    if !c.SelectEdge? then sel
    else if c.selected then EdgeWithId(edges, c.id)
    else None
  }

  /** The selection after the loop of `onEdgesChange`, which first clears it. */
  function EdgeSelectionAfter(changes: seq<EdgeChange>, edges: seq<Edge>): (r: Option<Element>)
    ensures r.Some? ==> r.value.EdgeElement? && r.value.edge in edges
    ensures (forall c :: c in changes ==> !c.SelectEdge?) ==> r.None?
    decreases |changes|
  {
    if changes == [] then None
    else EdgeStep(changes[|changes| - 1], edges, EdgeSelectionAfter(changes[..|changes| - 1], edges))
  }

  /** The last select change of the batch, if any. */
  function LastSelect(changes: seq<EdgeChange>): (r: Option<EdgeChange>)
    ensures r.Some? ==> r.value in changes && r.value.SelectEdge?
    ensures r.None? <==> forall c :: c in changes ==> !c.SelectEdge?
    ensures r.Some? ==> exists i :: 0 <= i < |changes| && changes[i] == r.value
                                     && forall j :: i < j < |changes| ==> !changes[j].SelectEdge?
    decreases |changes|
  {
    if changes == [] then None
    else if changes[|changes| - 1].SelectEdge? then Some(changes[|changes| - 1])
    else
      assert changes == changes[..|changes| - 1] + [changes[|changes| - 1]];
      LastSelect(changes[..|changes| - 1])
  }

  /** `onEdgesChange` ends with no selection unless its last select change
      selects; then the selection is the first pre-change edge with that id. */
  lemma {:induction false} LastSelectDecides(changes: seq<EdgeChange>, edges: seq<Edge>)
    ensures EdgeSelectionAfter(changes, edges) ==
            match LastSelect(changes)
            case None => None
            case Some(c) => if c.selected then EdgeWithId(edges, c.id) else None
    decreases |changes|
  {
    if changes != [] && !changes[|changes| - 1].SelectEdge? {
      LastSelectDecides(changes[..|changes| - 1], edges);
    }
  }
}
