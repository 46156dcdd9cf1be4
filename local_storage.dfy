/** The browser-storage diagram context keys its entry by workspace. */
module LocalStorage {
  import opened JsSemantics

  /** `LOCAL_STORAGE_KEY_DIAGRAM_INFO`, the key of the default workspace. */
  const DiagramInfoKey: string := "ThreatStatementGenerator.DiagramInfo"

  /** `getLocalStorageKey`: the base key, suffixed with `_` and the workspace id
      when the id is truthy. */
  function StorageKey(workspaceId: Option<string>): (key: string)
    ensures DiagramInfoKey <= key
    ensures key == DiagramInfoKey <==> !Truthy(workspaceId)
    ensures Truthy(workspaceId) ==> key[|DiagramInfoKey|] == '_' && key[|DiagramInfoKey| + 1..] == workspaceId.value
  {
    if Truthy(workspaceId) then DiagramInfoKey + "_" + workspaceId.value
    else DiagramInfoKey
  }

  /** Distinct workspace ids never share a key. */
  lemma {:induction false} StorageKeyInjective(a: Option<string>, b: Option<string>)
    requires Truthy(a) && Truthy(b)
    requires StorageKey(a) == StorageKey(b)
    ensures a == b
  {
    var n := |DiagramInfoKey| + 1;
    assert a.value == StorageKey(a)[n..] == StorageKey(b)[n..] == b.value;
  }

  /** Deleting workspace `deleted` removes the key of `getLocalStorageKey(deleted)`,
      not that of the current workspace: the two coincide only when the ids are
      the same, or when the deleted id is empty and the current one falsy. */
  lemma DeletionKeyIsPassedWorkspace(current: Option<string>, deleted: string)
    ensures StorageKey(Some(deleted)) == StorageKey(current) <==>
            (Truthy(current) && current.value == deleted) || (!Truthy(current) && deleted == "")
  {
    if Truthy(current) && deleted != "" && StorageKey(Some(deleted)) == StorageKey(current) {
      StorageKeyInjective(Some(deleted), current);
    }
  }
}
