/** Choosing the directory a command runs in (src/utils/workspace.check.ts
    and src/utils/workspace.manager.ts). The editor is an input: the open
    workspace folders, and the active file's directory together with the
    folder the editor says owns it. */
module Workspace {
  import opened Wrappers
  import opened Text
  import opened Messages

  datatype Folder = Folder(fsPath: string)

  /** The active editor's file: `dir` is `path.dirname` of its path, `owner`
      is `getWorkspaceFolder` of it (None when no folder contains it). */
  datatype ActiveFile = ActiveFile(dir: string, owner: Option<Folder>)

  /** `folders` is None when the editor reports `undefined`. */
  datatype EditorState = EditorState(folders: Option<seq<Folder>>, activeFile: Option<ActiveFile>)

  /** `validateWorkspace`'s verdict and what it posted. */
  datatype Check = Check(valid: bool, posted: seq<Message>)

  /** `getCurrentWorkspaceFolder`'s `{path, message}` and what it posted. */
  datatype Resolution = Resolution(path: Option<string>, message: Option<string>, posted: seq<Message>)

  const NoWorkspaceOpen := "No workspace open. Please open a workspace before creating a project."
  const NoWorkspaceFolder := "No workspace folder detected. Please use 'sui move new' to create a new Sui project."
  const MultipleFolders := "Multiple folders detected in workspace. Please open a file in your target folder."

  predicate HasFolders(st: EditorState) {
    st.folders.Some? && |st.folders.value| > 0
  }

  /** A workspace is valid exactly when at least one folder is open; an
      invalid one gets one error message, a valid one none. */
  function ValidateWorkspace(st: EditorState): (c: Check)
    ensures c.valid <==> HasFolders(st)
    ensures !c.valid ==> c.posted == [MoveStatus("error", NoWorkspaceOpen)]
    ensures c.valid ==> c.posted == []
  {
    if !HasFolders(st) then Check(false, [MoveStatus("error", NoWorkspaceOpen)])
    else Check(true, [])
  }

  /** The verdict does not look at the active editor. */
  lemma ValidateIgnoresActiveFile(st: EditorState, a: Option<ActiveFile>)
    ensures ValidateWorkspace(st.(activeFile := a)) == ValidateWorkspace(st)
  {
  }

  /** True when the active file has an owning folder, which is the case the
      resolver settles from the active file. */
  predicate ActiveOwned(st: EditorState) {
    st.activeFile.Some? && st.activeFile.value.owner.Some?
  }

  /** The resolver. Whatever path it takes, a path comes with no message and
      a missing path with one of the two fixed explanations; it posts one
      message exactly when it finds no path. */
  function GetCurrentWorkspaceFolder(st: EditorState): (r: Resolution)
    ensures r.path.Some? <==> r.message.None?
    ensures r.path.None? ==> r.message == Some(NoWorkspaceFolder) || r.message == Some(MultipleFolders)
    ensures |r.posted| == (if r.path.None? then 1 else 0)
  {
    var check := ValidateWorkspace(st);
    if !check.valid then
      Resolution(None, Some(NoWorkspaceFolder), check.posted)
    else if ActiveOwned(st) then
      var dir := st.activeFile.value.dir;
      var root := st.activeFile.value.owner.value.fsPath;
      if StartsWith(dir, root) then Resolution(Some(dir), None, [])
      else Resolution(Some(root), None, [])
    else if |st.folders.value| == 1 then
      Resolution(Some(st.folders.value[0].fsPath), None, [])
    else
      Resolution(None, Some(MultipleFolders), [MoveStatus("warning", MultipleFolders)])
  }

  /** With no folder open the result is the "no workspace folder" failure,
      and the one message posted is the validation error. */
  lemma NoFolderFails(st: EditorState)
    requires !HasFolders(st)
    ensures GetCurrentWorkspaceFolder(st) ==
      Resolution(None, Some(NoWorkspaceFolder), [MoveStatus("error", NoWorkspaceOpen)])
  {
  }

  /** An owned active file whose directory starts with the owner's path
      resolves to that directory. */
  lemma ActiveFileInsideOwner(st: EditorState)
    requires HasFolders(st) && ActiveOwned(st)
    requires StartsWith(st.activeFile.value.dir, st.activeFile.value.owner.value.fsPath)
    ensures GetCurrentWorkspaceFolder(st) == Resolution(Some(st.activeFile.value.dir), None, [])
  {
  }

  /** Otherwise an owned active file resolves to its owner's path. */
  lemma ActiveFileOutsideOwner(st: EditorState)
    requires HasFolders(st) && ActiveOwned(st)
    requires !StartsWith(st.activeFile.value.dir, st.activeFile.value.owner.value.fsPath)
    ensures GetCurrentWorkspaceFolder(st) == Resolution(Some(st.activeFile.value.owner.value.fsPath), None, [])
  {
  }

  /** "Inside" is a string-prefix test, not a path test: a directory
      "/a/bc" counts as inside the folder "/a/b". */
  lemma SiblingCountsAsInside()
    ensures var st := EditorState(Some([Folder("/a/b")]), Some(ActiveFile("/a/bc", Some(Folder("/a/b")))));
            GetCurrentWorkspaceFolder(st).path == Some("/a/bc")
  {
    assert StartsWith("/a/bc", "/a/b") by { assert "/a/bc"[..4] == "/a/b"; }
  }

  /** Without an owned active file, a single open folder is the answer. */
  lemma SingleFolder(st: EditorState)
    requires !ActiveOwned(st) && st.folders.Some? && |st.folders.value| == 1
    ensures GetCurrentWorkspaceFolder(st) == Resolution(Some(st.folders.value[0].fsPath), None, [])
  {
  }

  /** Without an owned active file and with several folders open, the
      resolver posts one warning and fails with the same text. */
  lemma SeveralFoldersAmbiguous(st: EditorState)
    requires !ActiveOwned(st) && st.folders.Some? && |st.folders.value| > 1
    ensures GetCurrentWorkspaceFolder(st) ==
      Resolution(None, Some(MultipleFolders), [MoveStatus("warning", MultipleFolders)])
  {
  }

  /** The active file takes precedence over the folder count: once some
      folder is open, an owned active file decides the result whatever the
      other open folders are. */
  lemma ActiveFileTakesPrecedence(st: EditorState, others: seq<Folder>)
    requires HasFolders(st) && ActiveOwned(st) && |others| > 0
    ensures GetCurrentWorkspaceFolder(st.(folders := Some(others))) == GetCurrentWorkspaceFolder(st)
    ensures GetCurrentWorkspaceFolder(st).path.Some?
  {
  }

  /** The refusal text when the resolver gave no usable path and no
      message. */
  const NoPathFound := "No workspace path found."

  /** The directory the process runs in: the resolved path when it is
      truthy, so an empty path counts as missing. */
  function WorkingDir(res: Resolution): (dir: Option<string>)
    ensures dir.Some? <==> Present(res.path)
    ensures dir.Some? ==> dir == res.path
  {
    if Present(res.path) then res.path else None
  }

  /** `message || "No workspace path found."`: the resolver's explanation
      when it has a non-empty one. */
  function RefusalText(res: Resolution): (t: string)
    ensures t != ""
    ensures Present(res.message) ==> t == res.message.value
    ensures !Present(res.message) ==> t == NoPathFound
  {
    if Present(res.message) then res.message.value else NoPathFound
  }
}
