/** The diagram editor's state and its handlers: adding nodes, connecting
    edges, z-order changes, merging the properties panel's patch into the
    selected element, the selection handlers, and saving and restoring the
    layout snapshot. Library calls, `uuid`, `Math.random` and JSON are passed
    in as parameters. */
module Flow {
  import opened JsSemantics
  import opened DiagramTypes
  import opened ZOrder
  import opened Selection
  import LocalState

  /** `Math.floor(random * 200) - 100`, for a `Math.random()` draw in [0, 1). */
  function RandomCoordinate(random: real): (c: int)
    requires 0.0 <= random < 1.0
    ensures -100 <= c <= 99
  {
    (random * 200.0).Floor - 100
  }

  /** The node `onAdd` appends, for a fresh id and two random draws. */
  function NewNode(kind: NodeKind, id: string, randomX: real, randomY: real): (n: Node)
    requires 0.0 <= randomX < 1.0 && 0.0 <= randomY < 1.0
    ensures n.id == id && n.nodeType == KindName(kind)
    ensures IsBlankMetadata(n.data, KindName(kind))
    ensures -100.0 <= n.position.x <= 99.0 && -100.0 <= n.position.y <= 99.0
    ensures n.position.x == n.position.x.Floor as real && n.position.y == n.position.y.Floor as real
  {
    Node(id, KindName(kind),
         Position(RandomCoordinate(randomX) as real, RandomCoordinate(randomY) as real),
         BlankMetadata(KindName(kind)))
  }

  /** `{ ...params, id, type: 'biDirectional', data }`, the edge `onConnect` builds. */
  function NewEdge(params: Connection, id: string): (e: Edge)
    ensures e.id == id && e.edgeType == "biDirectional"
    ensures e.source == params.source && e.target == params.target
    ensures e.sourceHandle == params.sourceHandle && e.targetHandle == params.targetHandle
    ensures IsBlankMetadata(e.data, "Data")
    ensures e.markerEnd.None?
  {
    Edge(id, params.source, params.target, params.sourceHandle, params.targetHandle,
         "biDirectional", BlankMetadata("Data"), None)
  }

  /** The closed arrow, 20 by 20, in `#b1b1b7`. */
  const EndMarker: Marker := Marker(ArrowClosed, 20, 20, "#b1b1b7")

  /** `addEndMarker`: the same edge with a closed arrow at its end. */
  function AddEndMarker(e: Edge): (r: Edge)
    ensures r.markerEnd == Some(Marker(ArrowClosed, 20, 20, "#b1b1b7"))
    ensures r.(markerEnd := e.markerEnd) == e
  {
    e.(markerEnd := Some(EndMarker))
  }

  /** The index of the first node whose id is the selected component's, or -1
      when nothing is selected (`selectedComponent?.id` is then `undefined`). */
  function SelectedIndex(nodes: seq<Node>, selected: Option<Element>): (i: int)
    ensures -1 <= i < |nodes|
    ensures 0 <= i ==> selected.Some? && nodes[i].id == selected.value.Id()
    ensures i < 0 <==> selected.None? || forall n :: n in nodes ==> n.id != selected.value.Id()
    ensures 0 <= i ==> forall j :: 0 <= j < i ==> nodes[j].id != selected.value.Id()
  {
    if selected.None? then -1 else FindIndex(nodes, NodeHasId(selected.value.Id()))
  }

  /** The node as the merge effect leaves it: the patch spread over its data
      when its id is the selected one. */
  function MergeIntoNode(n: Node, id: string, patch: Metadata): Node {
    if n.id == id then n.(data := Spread(n.data, patch)) else n
  }

  function MergeIntoEdge(e: Edge, id: string, patch: Metadata): Edge {
    if e.id == id then e.(data := Spread(e.data, patch)) else e
  }

  /** `nds.map(...)` of the merge effect. */
  function MergeNodes(nodes: seq<Node>, id: string, patch: Metadata): (r: seq<Node>)
    ensures |r| == |nodes|
    ensures forall k :: 0 <= k < |nodes| ==> r[k].(data := nodes[k].data) == nodes[k]
    ensures forall k :: 0 <= k < |nodes| && nodes[k].id != id ==> r[k] == nodes[k]
    ensures forall k :: 0 <= k < |nodes| && nodes[k].id == id ==> r[k].data == Spread(nodes[k].data, patch)
  {
    seq(|nodes|, k requires 0 <= k < |nodes| => MergeIntoNode(nodes[k], id, patch))
  }

  /** `eds.map(...)` of the merge effect. */
  function MergeEdges(edges: seq<Edge>, id: string, patch: Metadata): (r: seq<Edge>)
    ensures |r| == |edges|
    ensures forall k :: 0 <= k < |edges| ==> r[k].(data := edges[k].data) == edges[k]
    ensures forall k :: 0 <= k < |edges| && edges[k].id != id ==> r[k] == edges[k]
    ensures forall k :: 0 <= k < |edges| && edges[k].id == id ==> r[k].data == Spread(edges[k].data, patch)
  {
    seq(|edges|, k requires 0 <= k < |edges| => MergeIntoEdge(edges[k], id, patch))
  }

  /** Merging the same patch a second time changes nothing. */
  lemma MergeIdempotent(nodes: seq<Node>, edges: seq<Edge>, id: string, patch: Metadata)
    ensures MergeNodes(MergeNodes(nodes, id, patch), id, patch) == MergeNodes(nodes, id, patch)
    ensures MergeEdges(MergeEdges(edges, id, patch), id, patch) == MergeEdges(edges, id, patch)
  {
    var once, twice := MergeNodes(nodes, id, patch), MergeNodes(MergeNodes(nodes, id, patch), id, patch);
    assert forall k :: 0 <= k < |once| ==> twice[k] == once[k];
    var eOnce, eTwice := MergeEdges(edges, id, patch), MergeEdges(MergeEdges(edges, id, patch), id, patch);
    assert forall k :: 0 <= k < |eOnce| ==> eTwice[k] == eOnce[k];
  }

  /** The flow object a saved snapshot parses back to: every field present. */
  function ToRaw(s: Snapshot): RawFlow {
    RawFlow(Some(s.nodes), Some(s.edges),
            Some(RawViewport(Some(s.viewport.x), Some(s.viewport.y), Some(s.viewport.zoom))))
  }

  function OrElse<T>(o: Option<T>, default: T): T {
    if o.Some? then o.value else default
  }

  /** The defaulting of `restoreFlow`: reading `x`, `y`, `zoom` out of a missing
      viewport throws; otherwise missing nodes and edges become `[]` and a
      missing `x`, `y`, `zoom` becomes 0, 0, 1. */
  function Defaulted(raw: RawFlow): (r: Option<Snapshot>)
    ensures r.None? <==> raw.viewport.None?
    ensures r.Some? ==> r.value.nodes == (if raw.nodes.Some? then raw.nodes.value else [])
    ensures r.Some? ==> r.value.edges == (if raw.edges.Some? then raw.edges.value else [])
    ensures r.Some? ==> r.value.viewport.x == (if raw.viewport.value.x.Some? then raw.viewport.value.x.value else 0.0)
    ensures r.Some? ==> r.value.viewport.y == (if raw.viewport.value.y.Some? then raw.viewport.value.y.value else 0.0)
    ensures r.Some? ==> r.value.viewport.zoom == (if raw.viewport.value.zoom.Some? then raw.viewport.value.zoom.value else 1.0)
  {
    match raw.viewport
    case None => None
    case Some(v) =>
      Some(Snapshot(OrElse(raw.nodes, []), OrElse(raw.edges, []),
                    Viewport(OrElse(v.x, 0.0), OrElse(v.y, 0.0), OrElse(v.zoom, 1.0))))
  }

  /** Defaulting gives back every field that is present. */
  lemma DefaultedRoundTrip(s: Snapshot)
    ensures Defaulted(ToRaw(s)) == Some(s)
  {
  }

  /** What `restoreFlow` does with the diagram's content. */
  datatype Restore = Unchanged | Threw | Applied(snapshot: Snapshot)

  /** Falsy content is left alone; a `JSON.parse` failure or a non-object, or
      an object without a viewport, throws before any state is set; otherwise
      the defaulted snapshot is applied. */
  function RestoreOutcome(content: Option<string>, parse: string -> Option<RawFlow>): (r: Restore)
    ensures r == Unchanged <==> !Truthy(content)
    ensures Truthy(content) && parse(content.value).None? ==> r == Threw
    ensures Truthy(content) && parse(content.value).Some? ==>
              (r.Threw? <==> parse(content.value).value.viewport.None?)
    ensures Truthy(content) && parse(content.value).Some? && parse(content.value).value.viewport.Some? ==> r.Applied?
    ensures r.Applied? ==> Some(r.snapshot) == Defaulted(parse(content.value).value)
  {
    if !Truthy(content) then Unchanged
    else match parse(content.value)
      case None => Threw
      case Some(raw) =>
        match Defaulted(raw)
        case None => Threw
        case Some(s) => Applied(s)
  }

  /** Saving then restoring gives back the saved nodes, edges and viewport,
      whenever `JSON.parse` inverts `JSON.stringify` on the snapshot. */
  lemma SaveThenRestore(s: Snapshot, stringify: Snapshot -> string, parse: string -> Option<RawFlow>)
    requires stringify(s) != ""
    requires parse(stringify(s)) == Some(ToRaw(s))
    ensures RestoreOutcome(Some(stringify(s)), parse) == Applied(s)
  {
    DefaultedRoundTrip(s);
  }

  class FlowStore {
    var nodes: seq<Node>
    var edges: seq<Edge>
    /** `selectedComponent` */
    var selected: Option<Element>
    /** `nodeDataValue`, the pending metadata patch from the properties panel */
    var patch: Metadata
    /** true when nothing is unsaved */
    var saveState: bool
    /** the library's camera */
    var viewport: Viewport
    /** `rfInstance !== null` */
    var hasInstance: bool

    constructor ()
      ensures nodes == [] && edges == [] && selected == None && patch == map[]
      ensures saveState && !hasInstance && viewport == Viewport(0.0, 0.0, 1.0)
    {
      nodes, edges, selected, patch := [], [], None, map[];
      saveState, hasInstance, viewport := true, false, Viewport(0.0, 0.0, 1.0);
    }

    /** `rfInstance.toObject()` */
    function ToObject(): Snapshot
      reads this
    {
      Snapshot(nodes, edges, viewport)
    }

    /** `onAdd`: appends one new node at the top of the stack and marks the
        diagram unsaved; every earlier node stays where it was. */
    method OnAdd(kind: NodeKind, id: string, randomX: real, randomY: real)
      requires 0.0 <= randomX < 1.0 && 0.0 <= randomY < 1.0
      modifies this
      ensures nodes == old(nodes) + [NewNode(kind, id, randomX, randomY)]
      ensures !saveState
      ensures edges == old(edges) && selected == old(selected) && patch == old(patch)
      ensures viewport == old(viewport) && hasInstance == old(hasInstance)
    {
      var node := NewNode(kind, id, randomX, randomY);
      saveState := false;
      nodes := nodes + [node];
    }

    /** `onConnect`: hands the new edge, with its end marker, to the library's
        `addEdge`, and clears the pending patch. */
    method OnConnect(params: Connection, id: string, addEdge: (Edge, seq<Edge>) -> seq<Edge>)
      modifies this
      ensures edges == addEdge(AddEndMarker(NewEdge(params, id)), old(edges))
      ensures patch == map[]
      ensures nodes == old(nodes) && selected == old(selected) && saveState == old(saveState)
      ensures viewport == old(viewport) && hasInstance == old(hasInstance)
    {
      var edge := NewEdge(params, id);
      edges := addEdge(AddEndMarker(edge), edges);
      patch := map[];
    }

    /** `setNodeDataValue`, the properties panel's change handler. */
    method SetPatch(p: Metadata)
      modifies this
      ensures patch == p
      ensures nodes == old(nodes) && edges == old(edges) && selected == old(selected)
      ensures saveState == old(saveState) && viewport == old(viewport) && hasInstance == old(hasInstance)
    {
      patch := p;
    }

    /** `onZIndexChange`: without a node carrying the selected id nothing
        changes; otherwise that node is spliced out and back in at the target
        index, the sequence is a permutation of the old one, and the diagram is
        marked unsaved. */
    method OnZIndexChange(direction: Direction)
      modifies this
      ensures var i := SelectedIndex(old(nodes), old(selected));
              i < 0 ==> nodes == old(nodes) && saveState == old(saveState)
      ensures var i := SelectedIndex(old(nodes), old(selected));
              0 <= i ==> nodes == Move(old(nodes), i, TargetIndex(direction, i, |old(nodes)|)) && !saveState
      ensures |nodes| == |old(nodes)| && multiset(nodes) == multiset(old(nodes))
      ensures edges == old(edges) && selected == old(selected) && patch == old(patch)
      ensures viewport == old(viewport) && hasInstance == old(hasInstance)
    {
      var index := SelectedIndex(nodes, selected);
      if index < 0 {
        return;
      }
      var newIndex := TargetIndex(direction, index, |nodes|);
      var taken := Splice(nodes, index, 1, []);
      var node := taken.removed[0];
      var placed := Splice(taken.result, newIndex, 0, [node]);
      MovePermutes(nodes, index, newIndex);
      nodes := placed.result;
      saveState := false;
    }

    /** The effect on the selection and the patch. With nothing selected it only
        applies the zoom workaround: one node at zoom 4 is zoomed to 1. With a
        selection it spreads the patch over the data of every edge and node with
        the selected id, leaves every other element alone, and marks the
        diagram unsaved. */
    method SelectionEffect()
      modifies this
      ensures old(selected).None? ==>
                && nodes == old(nodes) && edges == old(edges) && saveState == old(saveState)
                && viewport == (if |old(nodes)| == 1 && old(viewport).zoom == 4.0
                                then old(viewport).(zoom := 1.0) else old(viewport))
      ensures old(selected).Some? ==>
                && edges == MergeEdges(old(edges), old(selected).value.Id(), old(patch))
                && nodes == MergeNodes(old(nodes), old(selected).value.Id(), old(patch))
                && !saveState && viewport == old(viewport)
      ensures selected == old(selected) && patch == old(patch) && hasInstance == old(hasInstance)
    {
      if selected.None? {
        if |nodes| == 1 && viewport.zoom == 4.0 {
          viewport := viewport.(zoom := 1.0);
        }
        return;
      }
      var id := selected.value.Id();
      var i := 0;
      while i < |edges|
        invariant 0 <= i <= |edges| == |old(edges)|
        invariant forall k :: 0 <= k < i ==> edges[k] == MergeIntoEdge(old(edges)[k], id, patch)
        invariant forall k :: i <= k < |edges| ==> edges[k] == old(edges)[k]
        invariant nodes == old(nodes) && selected == old(selected) && patch == old(patch)
        invariant viewport == old(viewport) && hasInstance == old(hasInstance)
      {
        if edges[i].id == id {
          edges := edges[i := edges[i].(data := Spread(edges[i].data, patch))];
        }
        i := i + 1;
      }
      var j := 0;
      while j < |nodes|
        invariant 0 <= j <= |nodes| == |old(nodes)|
        invariant forall k :: 0 <= k < j ==> nodes[k] == MergeIntoNode(old(nodes)[k], id, patch)
        invariant forall k :: j <= k < |nodes| ==> nodes[k] == old(nodes)[k]
        invariant edges == MergeEdges(old(edges), id, patch)
        invariant selected == old(selected) && patch == old(patch)
        invariant viewport == old(viewport) && hasInstance == old(hasInstance)
      {
        if nodes[j].id == id {
          nodes := nodes[j := nodes[j].(data := Spread(nodes[j].data, patch))];
        }
        j := j + 1;
      }
      saveState := false;
    }

    /** `onNodesChange`: clears the patch, lets the library apply the changes,
        and leaves the selection the loop over the changes decides. */
    method OnNodesChange(changes: seq<NodeChange>, applyNodeChanges: (seq<NodeChange>, seq<Node>) -> seq<Node>)
      modifies this
      ensures patch == map[]
      ensures nodes == applyNodeChanges(changes, old(nodes))
      ensures selected == NodeSelectionAfter(changes, old(nodes), old(selected))
      ensures edges == old(edges) && saveState == old(saveState)
      ensures viewport == old(viewport) && hasInstance == old(hasInstance)
    {
      var before := nodes;
      patch := map[];
      nodes := applyNodeChanges(changes, nodes);
      var sel := selected;
      for i := 0 to |changes|
        invariant sel == NodeSelectionAfter(changes[..i], before, old(selected))
      {
        var c := changes[i];
        if Qualifies(c) {
          if Picks(c) {
            sel := NodeWithId(before, c.id);
          } else {
            sel := None;
          }
        }
        assert changes[..i + 1][..i] == changes[..i];
      }
      assert changes[..|changes|] == changes;
      selected := sel;
    }

    /** `onEdgesChange`: clears the patch and the selection, lets the library
        apply the changes, and leaves the selection the loop decides. */
    method OnEdgesChange(changes: seq<EdgeChange>, applyEdgeChanges: (seq<EdgeChange>, seq<Edge>) -> seq<Edge>)
      modifies this
      ensures patch == map[]
      ensures edges == applyEdgeChanges(changes, old(edges))
      ensures selected == EdgeSelectionAfter(changes, old(edges))
      ensures nodes == old(nodes) && saveState == old(saveState)
      ensures viewport == old(viewport) && hasInstance == old(hasInstance)
    {
      var before := edges;
      patch := map[];
      edges := applyEdgeChanges(changes, edges);
      var sel: Option<Element> := None;
      for i := 0 to |changes|
        invariant sel == EdgeSelectionAfter(changes[..i], before)
      {
        var c := changes[i];
        if c.SelectEdge? {
          if c.selected {
            sel := EdgeWithId(before, c.id);
          } else {
            sel := None;
          }
        }
        assert changes[..i + 1][..i] == changes[..i];
      }
      assert changes[..|changes|] == changes;
      selected := sel;
    }

    /** `restoreFlow`: applies the defaulted snapshot of the diagram's content,
        or leaves every field alone when the content is falsy or reading it
        throws. */
    method RestoreFlow(content: Option<string>, parse: string -> Option<RawFlow>) returns (outcome: Restore)
      modifies this
      ensures outcome == RestoreOutcome(content, parse)
      ensures outcome.Applied? ==> ToObject() == outcome.snapshot
      ensures !outcome.Applied? ==> nodes == old(nodes) && edges == old(edges) && viewport == old(viewport)
      ensures selected == old(selected) && patch == old(patch)
      ensures saveState == old(saveState) && hasInstance == old(hasInstance)
    {
      if !Truthy(content) {
        return Unchanged;
      }
      var flow := parse(content.value);
      if flow.None? {
        return Threw;
      }
      var snapshot := Defaulted(flow.value);
      if snapshot.None? {
        return Threw;
      }
      nodes := snapshot.value.nodes;
      edges := snapshot.value.edges;
      viewport := snapshot.value.viewport;
      outcome := Applied(snapshot.value);
    }

    /** `onInit`: keeps the library instance, then restores. */
    method OnInit(content: Option<string>, parse: string -> Option<RawFlow>) returns (outcome: Restore)
      modifies this
      ensures hasInstance
      ensures outcome == RestoreOutcome(content, parse)
      ensures outcome.Applied? ==> ToObject() == outcome.snapshot
      ensures !outcome.Applied? ==> nodes == old(nodes) && edges == old(edges) && viewport == old(viewport)
      ensures selected == old(selected) && patch == old(patch) && saveState == old(saveState)
    {
      hasInstance := true;
      outcome := RestoreFlow(content, parse);
    }

    /** `onSave`: without a library instance nothing happens; otherwise the
        serialised snapshot becomes the diagram's content and the diagram is
        marked saved. */
    method OnSave(store: LocalState.DiagramStore, stringify: Snapshot -> string)
      modifies this, store
      ensures !old(hasInstance) ==> store.diagram == old(store.diagram) && saveState == old(saveState)
      ensures old(hasInstance) ==> store.diagram == Diagram(Some(stringify(old(ToObject())))) && saveState
      ensures nodes == old(nodes) && edges == old(edges) && selected == old(selected)
      ensures patch == old(patch) && viewport == old(viewport) && hasInstance == old(hasInstance)
    {
      if hasInstance {
        store.SetDiagram(Diagram(Some(stringify(ToObject()))));
        saveState := true;
      }
    }
  }

  /** Saving the store and restoring what was saved gives back the same nodes,
      edges and viewport, when `JSON.parse` inverts `JSON.stringify` on the
      snapshot being saved. */
  method SaveAndRestore(flow: FlowStore, store: LocalState.DiagramStore,
                        stringify: Snapshot -> string, parse: string -> Option<RawFlow>)
    requires flow.hasInstance
    requires var s := flow.ToObject(); stringify(s) != "" && parse(stringify(s)) == Some(ToRaw(s))
    modifies flow, store
    ensures flow.ToObject() == old(flow.ToObject()) && flow.saveState
  {
    flow.OnSave(store, stringify);
    SaveThenRestore(flow.ToObject(), stringify, parse);
    var outcome := flow.RestoreFlow(store.diagram.content, parse);
  }
}
