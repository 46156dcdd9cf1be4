/** The records the diagram editor keeps: nodes and edges with their free-form
    metadata, the viewport, the snapshot `toObject()` produces, the object
    `JSON.parse` gives back, and the diagram the context providers hold. */
module DiagramTypes {
  import opened JsSemantics

  /** A value in an element's metadata object. */
  datatype Value = Str(s: string) | Bool(b: bool) | List(items: seq<string>)

  /** An element's `data` object, seen as its keys and their values. */
  type Metadata = map<string, Value>

  /** `{ ...data, ...patch }`: every key of the patch overrides, every other key
      of `data` is kept, and nothing else appears. */
  function Spread(data: Metadata, patch: Metadata): (r: Metadata)
    ensures r.Keys == data.Keys + patch.Keys
    ensures forall k :: k in patch ==> r[k] == patch[k]
    ensures forall k :: k in data && k !in patch ==> r[k] == data[k]
  {
    data + patch
  }

  /** The nine keys a new node or edge starts with. */
  function BlankMetadata(name: string): Metadata {
    map[
      "name" := Str(name),
      "description" := Str(""),
      "outOfScope" := Bool(false),
      "scopeReason" := Str(""),
      "dataTags" := List([]),
      "techTags" := List([]),
      "securityTags" := List([]),
      "tags" := List([]),
      "selectedThreats" := List([])
    ]
  }

  /** A new element's metadata, key by key: the given name, empty description
      and scope reason, in scope, and no tags or threats. */
  predicate IsBlankMetadata(d: Metadata, name: string) {
    && d.Keys == {"name", "description", "outOfScope", "scopeReason", "dataTags",
                  "techTags", "securityTags", "tags", "selectedThreats"}
    && d["name"] == Str(name)
    && d["description"] == Str("") && d["scopeReason"] == Str("")
    && d["outOfScope"] == Bool(false)
    && d["dataTags"] == List([]) && d["techTags"] == List([])
    && d["securityTags"] == List([]) && d["tags"] == List([])
    && d["selectedThreats"] == List([])
  }

  /** The node types the node selector panel offers. */
  datatype NodeKind = Actor | Process | Datastore | TrustBoundary

  /** The string the node selector panel passes for each node type. */
  function KindName(k: NodeKind): string {
    match k
    case Actor => "actor"
    case Process => "process"
    case Datastore => "datastore"
    case TrustBoundary => "trustBoundary"
  }

  datatype Position = Position(x: real, y: real)

  datatype Node = Node(id: string, nodeType: string, position: Position, data: Metadata)

  /** What the library passes to `onConnect`. */
  datatype Connection = Connection(source: string, target: string,
                                   sourceHandle: Option<string>, targetHandle: Option<string>)

  datatype MarkerKind = Arrow | ArrowClosed

  datatype Marker = Marker(kind: MarkerKind, width: int, height: int, color: string)

  datatype Edge = Edge(id: string, source: string, target: string,
                       sourceHandle: Option<string>, targetHandle: Option<string>,
                       edgeType: string, data: Metadata, markerEnd: Option<Marker>)

  /** `Node | Edge`, the type of the selected component. */
  datatype Element = NodeElement(node: Node) | EdgeElement(edge: Edge) {
    function Id(): string {
      match this
      case NodeElement(n) => n.id
      case EdgeElement(e) => e.id
    }
  }

  function NodeHasId(id: string): Node -> bool {
    (n: Node) => n.id == id
  }

  function EdgeHasId(id: string): Edge -> bool {
    (e: Edge) => e.id == id
  }

  datatype Viewport = Viewport(x: real, y: real, zoom: real)

  /** What `rfInstance.toObject()` captures. */
  datatype Snapshot = Snapshot(nodes: seq<Node>, edges: seq<Edge>, viewport: Viewport)

  /** The parsed snapshot as restore finds it: every field may be missing. */
  datatype RawViewport = RawViewport(x: Option<real>, y: Option<real>, zoom: Option<real>)

  datatype RawFlow = RawFlow(nodes: Option<seq<Node>>, edges: Option<seq<Edge>>,
                             viewport: Option<RawViewport>)

  /** What the diagram context holds: the serialised snapshot, if any. */
  datatype Diagram = Diagram(content: Option<string>)
}
