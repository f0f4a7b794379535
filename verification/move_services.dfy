/** The three Move services of the extension host
    (src/services/move/new.service.ts, build.service.ts, test.service.ts).
    Each resolves a working directory, runs one `sui` process there and
    reports the outcome to the webview as one `moveStatus` message. The
    editor state and the process runner are inputs; the result records the
    messages posted, the process run and how the service settles. */
module MoveServices {
  import opened Wrappers
  import opened Text
  import opened Messages
  import opened Workspace
  import opened Requests
  import opened MoveArgs

  const NewOkPrefix := "Project \""
  const NewOkMiddle := "\" created and set as active project. "
  const NewErrPrefix := "Failed to create project: "
  const BuildOkPrefix := "Build completed successfully. "
  const BuildErrPrefix := "Sui move build failed: "
  const TestOkPrefix := "Test completed successfully. "
  const TestErrPrefix := "Failed to test Move project: "

  /** The report of a finished process: success with the output, error with
      the output the runner rejected with. */
  function Report(result: RunResult, okText: string, errPrefix: string): Message {
    match result
    case Ok(out) => MoveStatus("success", okText + out)
    case Err(out) => MoveStatus("error", errPrefix + out)
  }

  /** The shape every Move service shares: the resolver's messages, then
      either the refusal or the process and its report. */
  function RunMove(res: Resolution, argv: seq<string>, cli: Invocation -> RunResult,
                   okText: string, errPrefix: string, refusalThrows: bool): (run: ServiceRun)
    ensures |run.posted| == |res.posted| + 1 && run.posted[..|res.posted|] == res.posted
    ensures run.invoked.Some? <==> WorkingDir(res).Some?
    ensures run.invoked.Some? ==> run.invoked.value == Invocation("sui", argv, WorkingDir(res).value)
    ensures run.invoked.None? ==> run.posted[|res.posted|] == MoveStatus("error", RefusalText(res))
    ensures run.invoked.Some? ==> run.posted[|res.posted|] == Report(cli(run.invoked.value), okText, errPrefix)
    ensures run.completion.Threw? <==> run.invoked.None? && refusalThrows
    ensures run.completion.Threw? ==> run.completion.error == RefusalText(res)
    ensures run.completion.Returned? ==> run.completion.value.None?
  {
    match WorkingDir(res)
    case None =>
      var refusal := RefusalText(res);
      ServiceRun(res.posted + [MoveStatus("error", refusal)], None,
                 if refusalThrows then Threw(refusal) else Returned(None))
    case Some(dir) =>
      var inv := Invocation("sui", argv, dir);
      ServiceRun(res.posted + [Report(cli(inv), okText, errPrefix)], Some(inv), Returned(None))
  }

  /** The last message a run posted. */
  function Final(run: ServiceRun): Message
    requires |run.posted| > 0
  {
    run.posted[|run.posted| - 1]
  }

  /** `SuiMoveNew`: creates the project with `sui move new <name> <flags>`.
      It never rejects; its last message reports success exactly when the
      process ran and exited with 0. */
  function SuiMoveNew(st: EditorState, req: MoveInitRequest, cli: Invocation -> RunResult): (run: ServiceRun)
    ensures |run.posted| == |GetCurrentWorkspaceFolder(st).posted| + 1
    ensures run.posted[..|run.posted| - 1] == GetCurrentWorkspaceFolder(st).posted
    ensures run.completion == Returned(None)
    ensures run.invoked.Some? <==> Present(GetCurrentWorkspaceFolder(st).path)
    ensures run.invoked.Some? ==>
      run.invoked.value == Invocation("sui", NewArgv(req), GetCurrentWorkspaceFolder(st).path.value)
    ensures Final(run).status == "success" <==> run.invoked.Some? && cli(run.invoked.value).Ok?
    ensures run.invoked.None? ==> Final(run) == MoveStatus("error", RefusalText(GetCurrentWorkspaceFolder(st)))
    ensures run.invoked.Some? && cli(run.invoked.value).Ok? ==>
      Final(run) == MoveStatus("success", NewOkPrefix + ProjectNameText(req) + NewOkMiddle + cli(run.invoked.value).output)
    ensures run.invoked.Some? && cli(run.invoked.value).Err? ==>
      Final(run) == MoveStatus("error", NewErrPrefix + cli(run.invoked.value).output)
  {
    var name := ProjectNameText(req);
    RunMove(GetCurrentWorkspaceFolder(st), NewArgv(req), cli, NewOkPrefix + name + NewOkMiddle, NewErrPrefix, false)
  }

  /** `SuiMoveBuild`: `sui move build <flags>`. Unlike the other two, a
      missing directory makes it reject, with the text it also posted; a
      failing process does not. */
  function SuiMoveBuild(st: EditorState, req: MoveInitRequest, cli: Invocation -> RunResult): (run: ServiceRun)
    ensures |run.posted| == |GetCurrentWorkspaceFolder(st).posted| + 1
    ensures run.posted[..|run.posted| - 1] == GetCurrentWorkspaceFolder(st).posted
    ensures run.completion.Threw? <==> run.invoked.None?
    ensures run.completion.Threw? ==> Final(run) == MoveStatus("error", run.completion.error)
    ensures run.invoked.Some? <==> Present(GetCurrentWorkspaceFolder(st).path)
    ensures run.invoked.Some? ==>
      run.invoked.value == Invocation("sui", BuildArgv(req), GetCurrentWorkspaceFolder(st).path.value)
    ensures Final(run).status == "success" <==> run.invoked.Some? && cli(run.invoked.value).Ok?
    ensures run.invoked.None? ==> run.completion.error == RefusalText(GetCurrentWorkspaceFolder(st))
    ensures run.invoked.Some? && cli(run.invoked.value).Ok? ==>
      Final(run) == MoveStatus("success", BuildOkPrefix + cli(run.invoked.value).output)
    ensures run.invoked.Some? && cli(run.invoked.value).Err? ==>
      Final(run) == MoveStatus("error", BuildErrPrefix + cli(run.invoked.value).output)
  {
    RunMove(GetCurrentWorkspaceFolder(st), BuildArgv(req), cli, BuildOkPrefix, BuildErrPrefix, true)
  }

  /** `SuiMoveTest`: `sui move test`, with no flags and no request. */
  function SuiMoveTest(st: EditorState, cli: Invocation -> RunResult): (run: ServiceRun)
    ensures |run.posted| == |GetCurrentWorkspaceFolder(st).posted| + 1
    ensures run.posted[..|run.posted| - 1] == GetCurrentWorkspaceFolder(st).posted
    ensures run.completion == Returned(None)
    ensures run.invoked.Some? <==> Present(GetCurrentWorkspaceFolder(st).path)
    ensures run.invoked.Some? ==>
      run.invoked.value == Invocation("sui", ["move", "test"], GetCurrentWorkspaceFolder(st).path.value)
    ensures Final(run).status == "success" <==> run.invoked.Some? && cli(run.invoked.value).Ok?
    ensures run.invoked.None? ==> Final(run) == MoveStatus("error", RefusalText(GetCurrentWorkspaceFolder(st)))
    ensures run.invoked.Some? && cli(run.invoked.value).Ok? ==>
      Final(run) == MoveStatus("success", TestOkPrefix + cli(run.invoked.value).output)
    ensures run.invoked.Some? && cli(run.invoked.value).Err? ==>
      Final(run) == MoveStatus("error", TestErrPrefix + cli(run.invoked.value).output)
  {
    RunMove(GetCurrentWorkspaceFolder(st), ["move", "test"], cli, TestOkPrefix, TestErrPrefix, false)
  }

  /** The process's own output can be read back from the report, after the
      fixed words: a success carries the whole output, a failure the whole
      rejected output. */
  lemma ReportCarriesOutput(result: RunResult, okText: string, errPrefix: string)
    ensures Report(result, okText, errPrefix).text.Some?
    ensures var t := Report(result, okText, errPrefix).text.value;
      var lead := if result.Ok? then okText else errPrefix;
      |lead| <= |t| && t[..|lead|] == lead && t[|lead|..] == result.output
  {
  }

  /** The success report of `sui move new` names the project between the
      fixed words and ends with the process output. */
  lemma NewSuccessNamesProject(st: EditorState, req: MoveInitRequest, cli: Invocation -> RunResult)
    requires Present(GetCurrentWorkspaceFolder(st).path)
    requires cli(Invocation("sui", NewArgv(req), GetCurrentWorkspaceFolder(st).path.value)).Ok?
    ensures var run := SuiMoveNew(st, req, cli);
      var out := cli(run.invoked.value).output;
      Final(run) == MoveStatus("success", NewOkPrefix + ProjectNameText(req) + NewOkMiddle + out)
  {
  }

  /** A failed `sui move new` reports the rejected output and still
      resolves. */
  lemma NewFailureReported(st: EditorState, req: MoveInitRequest, cli: Invocation -> RunResult)
    requires Present(GetCurrentWorkspaceFolder(st).path)
    requires cli(Invocation("sui", NewArgv(req), GetCurrentWorkspaceFolder(st).path.value)).Err?
    ensures var run := SuiMoveNew(st, req, cli);
      Final(run) == MoveStatus("error", NewErrPrefix + cli(run.invoked.value).output)
      && run.completion == Returned(None)
  {
  }

  /** With no usable directory no process runs, and the refusal text is the
      resolver's explanation; it is the fixed fallback only when the
      resolver returned an empty path. */
  lemma RefusalExplains(st: EditorState, req: MoveInitRequest, cli: Invocation -> RunResult)
    requires !Present(GetCurrentWorkspaceFolder(st).path)
    ensures var res := GetCurrentWorkspaceFolder(st);
      var run := SuiMoveNew(st, req, cli);
      run.invoked.None?
      && Final(run) == MoveStatus("error", RefusalText(res))
      && (RefusalText(res) == NoPathFound <==> res.path == Some(""))
  {
    var res := GetCurrentWorkspaceFolder(st);
    if res.path.None? {
      assert res.message == Some(NoWorkspaceFolder) || res.message == Some(MultipleFolders);
    }
  }

  /** New and build run in the same directory with the same flags; new
      only adds the project name. */
  lemma NewAndBuildAgree(st: EditorState, req: MoveInitRequest, cli: Invocation -> RunResult)
    requires Present(GetCurrentWorkspaceFolder(st).path)
    ensures var n := SuiMoveNew(st, req, cli).invoked.value;
      var b := SuiMoveBuild(st, req, cli).invoked.value;
      n.cwd == b.cwd && n.args[3..] == b.args[2..] && n.args[2] == ProjectNameText(req)
  {
  }

  /** The request matters to build only through its flags: the project
      name is never read. */
  lemma BuildIgnoresName(st: EditorState, req: MoveInitRequest, name: Option<string>, cli: Invocation -> RunResult)
    ensures SuiMoveBuild(st, req.(projectName := name), cli) == SuiMoveBuild(st, req, cli)
  {
    FlagArgsAgree(req, req.(projectName := name));
  }
}
