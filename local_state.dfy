/** The in-memory diagram context: one `diagram` value that can be replaced,
    or reset to the default when the diagram is removed or the workspace is
    deleted. */
module LocalState {
  import opened JsSemantics
  import opened DiagramTypes

  /** `DIAGRAM_DEFAULT_VALUE`: a diagram with no saved snapshot. */
  const DefaultDiagram: Diagram := Diagram(None)

  class DiagramStore {
    var diagram: Diagram

    /** `useState(initialValue || DIAGRAM_DEFAULT_VALUE)`: an initial diagram,
        being an object, is always truthy and is taken as it is. */
    constructor (initialValue: Option<Diagram>)
      ensures initialValue.Some? ==> diagram == initialValue.value
      ensures initialValue.None? ==> diagram == DefaultDiagram
    {
      diagram := if initialValue.Some? then initialValue.value else DefaultDiagram;
    }

    /** `setDiagram`: the stored diagram becomes the argument. */
    method SetDiagram(d: Diagram)
      modifies this
      ensures diagram == d
    {
      diagram := d;
    }

    /** `removeDiagram`: back to the default, whatever was stored. */
    method RemoveDiagram()
      modifies this
      ensures diagram == DefaultDiagram
    {
      diagram := DefaultDiagram;
    }

    /** `onDeleteWorkspace`: back to the default, whichever workspace id is
        passed; the id is not read. */
    method DeleteWorkspace(workspaceId: string)
      modifies this
      ensures diagram == DefaultDiagram
    {
      diagram := DefaultDiagram;
    }
  }

  /** Either reset, done twice, leaves the same diagram as done once: the
      out-parameters are the stored diagram after each of the four calls. */
  method ResetTwice(store: DiagramStore, workspaceId: string)
    returns (removedOnce: Diagram, removedTwice: Diagram, deletedOnce: Diagram, deletedTwice: Diagram)
    modifies store
    ensures removedTwice == removedOnce
    ensures deletedTwice == deletedOnce
    ensures store.diagram == deletedTwice
    ensures removedOnce == DefaultDiagram && store.diagram == DefaultDiagram
  {
    store.RemoveDiagram();
    removedOnce := store.diagram;
    store.RemoveDiagram();
    removedTwice := store.diagram;
    store.DeleteWorkspace(workspaceId);
    deletedOnce := store.diagram;
    store.DeleteWorkspace(workspaceId);
    deletedTwice := store.diagram;
  }
}
