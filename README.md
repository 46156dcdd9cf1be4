# Threat composer data-flow diagram, modelled in Dafny

This project models the data-flow diagram editor of threat-composer. The editor lets a user place actors, processes, datastores and trust boundaries on a canvas, connect them with edges, change the stacking order of nodes, edit the metadata of the selected element, and save and restore the layout as a JSON snapshot inside the workspace's diagram.

The model covers:

- The editor's state and handlers (`flow_store.dfy`, class `Flow.FlowStore`): adding a node, connecting an edge, z-order changes, the effect that merges the properties panel's patch into the selected element, the node and edge change handlers, and save, restore and init.
- The selection logic of the change handlers (`selection.dfy`). React batches the `setSelectedComponent` calls, so the last call wins; the model states the result as a fold over the batch.
- The z-order reordering (`z_order.dfy`). It uses two `splice` calls, with JavaScript's clamping of the start index (`js_semantics.dfy`).
- The bidirectional-edge component (`bidirectional_edge.dfy`): the reverse-edge test, the offset, and the geometry of the curved path.
- The two diagram context providers (`local_state.dfy`, `local_storage.dfy`).
- The Architecture and Dataflow sections of the Word export (`docx_sections.dfy`).

Foreign calls are parameters of the members that use them:

- reactflow's `addEdge`, `applyNodeChanges`, `applyEdgeChanges` and `getBezierPath`;
- `JSON.stringify` and `JSON.parse` (a parse that throws is `None`);
- `uuid` (a fresh id string) and `Math.random` (a real in [0, 1));
- `convertMarkdown` and `fetchImage`.

Behaviour of the code worth knowing, which the model keeps:

- A snapshot without a `viewport`, such as `{}`, is not restored as an empty diagram. Destructuring `flow.viewport` throws, so nothing is set (`Restore.Threw`).
- The `'last'` direction sends the node to index 0, the bottom of the stack. `'first'` sends it to the last index, the top.
- With three or more nodes, `'down'` on the bottom node is not a no-op: `splice(-1, 0, node)` reinserts it just below the topmost node (`ZOrder.DownAtBottomWrapsBelowTop`).
- Selecting an element marks the diagram unsaved even when the patch is empty, because the effect runs on every selection change.
- The reverse-edge test in `BiDirectionalEdge.tsx` has two disjuncts that test the same thing, so it only asks for an edge from the target to the source. A self-loop therefore counts as its own reverse (`BiDirectionalEdge.SelfLoopIsBiDirection`).

## Model

| member | source | states |
|---|---|---|
| JsSemantics.FindIndex | packages/threat-composer/src/components/diagram/Flow/index.tsx:240-244 | the result is -1 or an index whose element satisfies the predicate, and no earlier element does (none at all when -1) |
| JsSemantics.Find | packages/threat-composer/src/components/diagram/Flow/index.tsx:162 | the result is the first element of the sequence that satisfies the predicate, and it is absent exactly when no element does |
| JsSemantics.SpliceStart | packages/threat-composer/src/components/diagram/Flow/index.tsx:246-247 | the start of `splice` lies in the array; a negative start counts back from the end and stops at 0, and a start past the end stops at the end |
| JsSemantics.Splice | packages/threat-composer/src/components/diagram/Flow/index.tsx:246-247 | the removed part is the clamped delete count of elements at the clamped start; the result is the prefix, the inserted items and the rest |
| JsSemantics.SpliceKeepsElements | packages/threat-composer/src/components/diagram/Flow/index.tsx:246-247 | removed plus remaining elements are, as a multiset, the old elements plus the inserted items |
| DiagramTypes.Spread | packages/threat-composer/src/components/diagram/Flow/index.tsx:142 | object spread: the keys are the union, every patch key overrides, and every other data key keeps its value |
| ZOrder.TargetIndex | packages/threat-composer/src/components/diagram/Flow/index.tsx:245 | where the node lands after the second splice clamps the target: 0 for `'last'`, the top for `'first'`, one up unless already on top, one down unless at the bottom, where it lands below the topmost node |
| ZOrder.Move | packages/threat-composer/src/components/diagram/Flow/index.tsx:244-247 | taking a node out and reinserting it keeps the length |
| ZOrder.MovePermutes | packages/threat-composer/src/components/diagram/Flow/index.tsx:244-249 | a z-order move is a permutation of the nodes |
| ZOrder.MoveShape | packages/threat-composer/src/components/diagram/Flow/index.tsx:246-247 | the moved node ends up at the clamped target index of the shortened array, and the other nodes keep their relative order |
| ZOrder.LastGoesToBottom | packages/threat-composer/src/components/diagram/Flow/index.tsx:245-247 | `'last'` puts the node at index 0 and keeps the others in order after it |
| ZOrder.FirstGoesToTop | packages/threat-composer/src/components/diagram/Flow/index.tsx:245-247 | `'first'` puts the node at the last index and keeps the others in order before it |
| ZOrder.UpSwapsWithNext | packages/threat-composer/src/components/diagram/Flow/index.tsx:245-247 | `'up'` below the top swaps the node with the one above it |
| ZOrder.UpAtTopKeepsOrder | packages/threat-composer/src/components/diagram/Flow/index.tsx:245-247 | `'up'` on the top node leaves the order unchanged |
| ZOrder.DownSwapsWithPrevious | packages/threat-composer/src/components/diagram/Flow/index.tsx:245-247 | `'down'` above the bottom swaps the node with the one below it |
| ZOrder.DownAtBottomWrapsBelowTop | packages/threat-composer/src/components/diagram/Flow/index.tsx:245-247 | `'down'` on the bottom node of two or more puts it just below the topmost node, which with exactly two nodes is where it already was |
| ZOrder.DownOnSingleNode | packages/threat-composer/src/components/diagram/Flow/index.tsx:245-247 | `'down'` on the only node leaves it in place |
| Selection.NodeWithId | packages/threat-composer/src/components/diagram/Flow/index.tsx:162 | the selection is the first node of the sequence with the given id, and it is absent exactly when no node has that id |
| Selection.EdgeWithId | packages/threat-composer/src/components/diagram/Flow/index.tsx:178 | the selection is the first edge of the sequence with the given id, and it is absent exactly when no edge has that id |
| Selection.Qualifies | packages/threat-composer/src/components/diagram/Flow/index.tsx:160 | the filter keeps every select and remove change and every position change that ends a drag (`dragging === false`), and drops exactly the other position changes and the other kinds |
| Selection.Picks | packages/threat-composer/src/components/diagram/Flow/index.tsx:161 | a change that selects passes the filter; a change that passes the filter clears the selection exactly when it is a deselect or a removal |
| Selection.NodeSelectionAfter | packages/threat-composer/src/components/diagram/Flow/index.tsx:160-166 | the loop leaves the old selection, no selection, or a node of the pre-change nodes, and keeps the old selection when no change passes the filter |
| Selection.LastQualifying | packages/threat-composer/src/components/diagram/Flow/index.tsx:160 | a change that passes the filter with none passing it after it, absent exactly when no change passes it |
| Selection.LastQualifyingDecides | packages/threat-composer/src/components/diagram/Flow/index.tsx:156-169 | the last qualifying change decides the selection alone: a select or a drag end selects the node with its id, a deselect or a removal clears it, and with none the selection is kept |
| Selection.LastQualifyingSkipsTail | packages/threat-composer/src/components/diagram/Flow/index.tsx:160 | non-qualifying changes after a qualifying one do not hide it |
| Selection.RemovalClearsSelection | packages/threat-composer/src/components/diagram/Flow/index.tsx:160-165 | a removal with only non-qualifying changes after it clears the selection, whatever came before |
| Selection.DragEndSelectsNode | packages/threat-composer/src/components/diagram/Flow/index.tsx:160-162 | a drag end (`dragging === false`) with only non-qualifying changes after it selects the dragged node as it was before the batch |
| Selection.EdgeSelectionAfter | packages/threat-composer/src/components/diagram/Flow/index.tsx:175-182 | the loop leaves no selection or an edge of the pre-change edges, and no selection when the batch has no select change |
| Selection.LastSelect | packages/threat-composer/src/components/diagram/Flow/index.tsx:176 | a select change with no select change after it, absent exactly when there is none |
| Selection.LastSelectDecides | packages/threat-composer/src/components/diagram/Flow/index.tsx:171-185 | `onEdgesChange` leaves no selection unless its last select change selects; then the selection is the edge with that id |
| Flow.RandomCoordinate | packages/threat-composer/src/components/diagram/Flow/index.tsx:213-215 | a random coordinate lies in [-100, 99] |
| Flow.NewNode | packages/threat-composer/src/components/diagram/Flow/index.tsx:217-232 | the new node has the fresh id, the kind as its type, the blank nine-key metadata named after the kind, and integer coordinates in [-100, 99] |
| Flow.NewEdge | packages/threat-composer/src/components/diagram/Flow/index.tsx:189-205 | the new edge keeps the connection's ends and handles, has the fresh id, type `biDirectional` and blank metadata named `Data`, and no marker yet |
| Flow.AddEndMarker | packages/threat-composer/src/components/diagram/Flow/index.tsx:261-269 | the edge gets a closed 20 by 20 `#b1b1b7` arrow at its end, and nothing else about it changes |
| Flow.SelectedIndex | packages/threat-composer/src/components/diagram/Flow/index.tsx:240-244 | the index of the first node with the selected id, or -1 exactly when nothing is selected or no node has that id |
| Flow.MergeNodes | packages/threat-composer/src/components/diagram/Flow/index.tsx:146-152 | the nodes with the selected id get the patch spread over their data; every other node, and every other field, is unchanged |
| Flow.MergeEdges | packages/threat-composer/src/components/diagram/Flow/index.tsx:139-145 | the edges with the selected id get the patch spread over their data; every other edge, and every other field, is unchanged |
| Flow.MergeIdempotent | packages/threat-composer/src/components/diagram/Flow/index.tsx:139-152 | merging the same patch a second time changes nothing |
| Flow.Defaulted | packages/threat-composer/src/components/diagram/Flow/index.tsx:108-111 | reading a snapshot fails exactly when the viewport is missing; otherwise missing nodes and edges become empty and missing x, y, zoom become 0, 0, 1 |
| Flow.DefaultedRoundTrip | packages/threat-composer/src/components/diagram/Flow/index.tsx:108-112 | a snapshot with every field present reads back unchanged |
| Flow.RestoreOutcome | packages/threat-composer/src/components/diagram/Flow/index.tsx:106-114 | the content is left unchanged exactly when it is falsy; a parse failure or a missing viewport throws; otherwise the defaulted snapshot is applied |
| Flow.SaveThenRestore | packages/threat-composer/src/components/diagram/Flow/index.tsx:99-114 | restoring what `onSave` stored gives back the saved snapshot, when `JSON.parse` inverts `JSON.stringify` |
| Flow.FlowStore.constructor | packages/threat-composer/src/components/diagram/Flow/index.tsx:92-127 | the editor starts with no nodes, edges, selection or patch, no instance, marked saved, at viewport (0, 0, 1) |
| Flow.FlowStore.OnAdd | packages/threat-composer/src/components/diagram/Flow/index.tsx:211-236 | one new node is appended on top, the earlier nodes stay in place, and the diagram is marked unsaved |
| Flow.FlowStore.OnConnect | packages/threat-composer/src/components/diagram/Flow/index.tsx:187-209 | the edges become the library's `addEdge` of the new marked edge, and the pending patch is cleared |
| Flow.FlowStore.SetPatch | packages/threat-composer/src/components/diagram/Flow/index.tsx:297 | the properties panel's change becomes the pending patch, and nothing else changes |
| Flow.FlowStore.OnZIndexChange | packages/threat-composer/src/components/diagram/Flow/index.tsx:238-251 | without a node carrying the selected id nothing changes; otherwise the node moves to the target index, the nodes are a permutation of the old ones, and the diagram is marked unsaved |
| Flow.FlowStore.SelectionEffect | packages/threat-composer/src/components/diagram/Flow/index.tsx:129-154 | with no selection only the zoom workaround applies (one node at zoom 4 goes to zoom 1); with a selection the patch is merged into the elements with its id and the diagram is marked unsaved |
| Flow.FlowStore.OnNodesChange | packages/threat-composer/src/components/diagram/Flow/index.tsx:156-169 | the patch is cleared, the nodes are the library's result, and the selection is the one the last qualifying change decides, looked up among the old nodes |
| Flow.FlowStore.OnEdgesChange | packages/threat-composer/src/components/diagram/Flow/index.tsx:171-185 | the patch is cleared, the edges are the library's result, and the selection is the one the last select change decides |
| Flow.FlowStore.RestoreFlow | packages/threat-composer/src/components/diagram/Flow/index.tsx:106-114 | an applied restore makes the snapshot the editor's nodes, edges and viewport; an unchanged or thrown one changes nothing |
| Flow.FlowStore.OnInit | packages/threat-composer/src/components/diagram/Flow/index.tsx:120-123 | the instance is kept, then the diagram is restored |
| Flow.FlowStore.OnSave | packages/threat-composer/src/components/diagram/Flow/index.tsx:99-104 | without an instance nothing happens; otherwise the serialised snapshot becomes the diagram's content and the diagram is marked saved |
| Flow.SaveAndRestore | packages/threat-composer/src/components/diagram/Flow/index.tsx:99-114 | saving and then restoring leaves the nodes, edges and viewport as they were, and the diagram saved, when `JSON.parse` inverts `JSON.stringify` on the saved snapshot |
| BiDirectionalEdge.IsBiDirectionEdge | packages/threat-composer/src/components/diagram/Flow/Edges/BiDirectionalEdge.tsx:50-57 | an edge is drawn as bidirectional exactly when some edge runs from its target to its source |
| BiDirectionalEdge.MoreEdgesStayBiDirection | packages/threat-composer/src/components/diagram/Flow/Edges/BiDirectionalEdge.tsx:50-57 | adding edges never makes a bidirectional edge plain |
| BiDirectionalEdge.SelfLoopIsBiDirection | packages/threat-composer/src/components/diagram/Flow/Edges/BiDirectionalEdge.tsx:51-54 | a self-loop finds itself as its own reverse |
| BiDirectionalEdge.ConnectBothWays | packages/threat-composer/src/components/diagram/Flow/Edges/BiDirectionalEdge.tsx:50-57 | after connecting x to y and y to x, both edges are bidirectional |
| BiDirectionalEdge.Offset | packages/threat-composer/src/components/diagram/Flow/Edges/BiDirectionalEdge.tsx:73 | the offset is 25 or -25, positive exactly when the source is left of the target |
| BiDirectionalEdge.GetSpecialPath | packages/threat-composer/src/components/diagram/Flow/Edges/BiDirectionalEdge.tsx:26-34 | the curve runs from the source to the target; its control point is the label, horizontally midway, and vertically the midpoint moved by the offset |
| BiDirectionalEdge.CurveMidpointBelowLabel | packages/threat-composer/src/components/diagram/Flow/Edges/BiDirectionalEdge.tsx:26-34 | the curve passes through both ends, and its midpoint is half the offset away from the label |
| BiDirectionalEdge.OppositeEdgesSeparate | packages/threat-composer/src/components/diagram/Flow/Edges/BiDirectionalEdge.tsx:73 | two opposite edges between nodes that are not vertically aligned get labels 50 apart; vertically aligned nodes get the same control point |
| BiDirectionalEdge.RouteEdge | packages/threat-composer/src/components/diagram/Flow/Edges/BiDirectionalEdge.tsx:68-76 | the curved path is used exactly when a reverse edge exists, with the label on its control point, horizontally midway and offset vertically from the midpoint; otherwise the library's bezier path and label are used |
| LocalStorage.StorageKey | packages/threat-composer/src/contexts/DiagramContext/components/LocalStorageContextProvider/index.tsx:25-31 | the key is the base key, followed by `_` and the workspace id exactly when the id is truthy |
| LocalStorage.StorageKeyInjective | packages/threat-composer/src/contexts/DiagramContext/components/LocalStorageContextProvider/index.tsx:25-31 | distinct truthy workspace ids never share a key |
| LocalStorage.DeletionKeyIsPassedWorkspace | packages/threat-composer/src/contexts/DiagramContext/components/LocalStorageContextProvider/index.tsx:45-49 | the storage key of the passed workspace id (the key `handleDeleteWorkspace` hands to storage removal, which is not modelled) equals the current workspace's key exactly when the ids agree, or when the passed id is empty and the current one falsy |
| LocalState.DiagramStore.constructor | packages/threat-composer/src/contexts/DiagramContext/components/LocalStateContextProvider/index.tsx:28 | an initial diagram is kept as given; without one the store holds the default |
| LocalState.DiagramStore.SetDiagram | packages/threat-composer/src/contexts/DiagramContext/components/LocalStateContextProvider/index.tsx:38-43 | the stored diagram becomes the argument |
| LocalState.DiagramStore.RemoveDiagram | packages/threat-composer/src/contexts/DiagramContext/components/LocalStateContextProvider/index.tsx:30-32 | removing resets the store to the default diagram |
| LocalState.DiagramStore.DeleteWorkspace | packages/threat-composer/src/contexts/DiagramContext/components/LocalStateContextProvider/index.tsx:34-36 | deleting any workspace resets the store to the default diagram |
| LocalState.ResetTwice | packages/threat-composer/src/contexts/DiagramContext/components/LocalStateContextProvider/index.tsx:30-36 | the diagram after a second remove equals the one after the first, and likewise for deleting a workspace; the store ends holding the default diagram |
| Docx.BuildSection | packages/threat-composer/src/utils/convertToDocx/getDataflow.ts:24-70 | the section is the level-1 title, then the introduction heading and the converted description when there is one, then the diagram heading and the fetched image when there is one, and nothing else |
| Docx.GetArchitecture | packages/threat-composer/src/utils/convertToDocx/getArchitecture.ts:21-72 | the Architecture section has that layout, under 'Architecture' and 'Architecture Diagram'; without architecture data it is the title alone |
| Docx.GetDataflow | packages/threat-composer/src/utils/convertToDocx/getDataflow.ts:21-71 | the Dataflow section has that layout, under 'Dataflow' and 'Dataflow Diagram'; without dataflow data it is the title alone |
| Docx.IntroductionPrecedesDiagram | packages/threat-composer/src/utils/convertToDocx/getArchitecture.ts:33-68 | with both a description and an image, everything between the title and the diagram heading is the introduction block |

## Left out

- Rendering (JSX, styles, node components, panels, the threat list panel and its `statementList` effect): they produce no state the model needs.
- reactflow's `addEdge`, `applyNodeChanges`, `applyEdgeChanges` and `getBezierPath` are not part of this model. They are parameters, so duplicate-edge filtering, position and removal changes, and the bezier geometry are whatever they return.
- `fitView`, and the re-centring pan of `zoomTo(1)`, are not modelled: the workaround only sets the zoom. `getZoom()` is read as the stored viewport's zoom.
- `uuid`, `Math.random`, `JSON.parse` and `JSON.stringify` are parameters. A `null` field in a parsed snapshot is treated like a missing one, although destructuring defaults apply only to `undefined`.
- React scheduling: effects, batching and the `async` handlers are sequential method calls. `Flow.FlowStore.SelectionEffect` runs only when a client calls it, and the promise rejection caught by `console.error` is the `Threw` outcome.
- Update in place and aliasing: the merge effect and `onZIndexChange` mutate arrays and objects that React state shares. The model reassigns sequences of values, so that sharing is not captured.
- Browser storage (`use-local-storage-state`, `removeItem`, `removeLocalStorageKey` and the one-second `setTimeout`) is not modelled; only the key computation is.
- The values of `DIAGRAM_DEFAULT_VALUE` and `LOCAL_STORAGE_KEY_DIAGRAM_INFO` come from `constants.ts` and `configs/localStorageKeys.ts`, which are not part of this model. The model picks a default diagram with no content and a representative key; no lemma depends on the key's text.
- `convertMarkdown`, `fetchImage` and the `docx` classes: the first two are total parameters and the paragraphs are a datatype. A rejected promise from either, which would abort the section builder, is not modelled. `console.log` is left out.
- `useHasContent` and the application container only read the diagram and are not modelled.
- Floating-point rounding and the number formatting of the SVG path string: coordinates are reals and the path is kept as its three points.
- Flow.FlowStore.OnAdd: the node type is one of the four kinds the node selector offers, not an arbitrary string.
