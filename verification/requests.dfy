/** The requests the webview posts to the extension: command names and the
    request records they carry. */
module Requests {
  import opened Wrappers

  /** The thirteen on/off options of `sui move new` and `sui move build`. */
  datatype Switches = Switches(
    dev: bool,
    test: bool,
    doc: bool,
    disassemble: bool,
    force: bool,
    fetchDepsOnly: bool,
    skipFetchLatestGitDeps: bool,
    dependenciesAreRoot: bool,
    silenceWarnings: bool,
    warningsAreErrors: bool,
    jsonErrors: bool,
    noLint: bool,
    lint: bool)

  /** The `options` object of a move request. An absent string option is
      None (`undefined`). */
  datatype MoveOptions = MoveOptions(
    switches: Switches,
    installDir: Option<string>,
    defaultMoveFlavor: Option<string>,
    defaultMoveEdition: Option<string>)

  /** The request record of the new and build commands. */
  datatype MoveInitRequest = MoveInitRequest(
    projectName: Option<string>,
    packagePath: Option<string>,
    options: MoveOptions)

  /** The fourteen toggles of the publish page, in declaration order. */
  datatype PublishToggles = PublishToggles(
    dev: bool,
    test: bool,
    doc: bool,
    force: bool,
    dryRun: bool,
    devInspect: bool,
    skipDependencyVerification: bool,
    withUnpublishedDependencies: bool,
    json: bool,
    lint: bool,
    noLint: bool,
    silenceWarnings: bool,
    warningsAreErrors: bool,
    jsonErrors: bool)

  /** The `options` object of a publish request. */
  datatype PublishOptions = PublishOptions(
    toggles: PublishToggles,
    packagePath: string,
    gasBudget: Option<string>,
    gasObjectId: Option<string>)

  /** What a request carries under its `data` key. */
  datatype Payload =
    | InitData(init: MoveInitRequest)
    | NewEnvData(alias: string, rpc: string)
    | SwitchData(env: string)

  /** Which key of the posted object holds the request's content. */
  datatype Body = NoBody | Data(payload: Payload) | Options(publish: PublishOptions)

  /** A message posted by the webview. `command` is None when the webview
      looked up a constant its command table does not define. */
  datatype Request = Request(command: Option<string>, body: Body)

  /** The extension's command names (src/types/sui.command.ts). */
  const VERSION := "sui.version"
  const MOVE_NEW := "sui.move.new"
  const MOVE_BUILD := "sui.move.build"
  const MOVE_TEST := "sui.move.test"
  const MOVE_PUBLISH := "sui.move.publish"
  const UPDATE_CLI := "sui.update"

  const ExtensionCommands: seq<string> := [VERSION, MOVE_NEW, MOVE_BUILD, MOVE_TEST, MOVE_PUBLISH, UPDATE_CLI]

  /** `SuiCommand[key]` in the webview's command table: the six keys it
      defines map to their names, every other key (the `CLIENT_*` keys the
      network page uses among them) is `undefined`. */
  function WebviewCommand(key: string): (r: Option<string>)
    ensures r.Some? <==> key in {"Version", "MOVE_NEW", "MOVE_BUILD", "MOVE_TEST", "MOVE_PUBLISH", "UPDATE_CLI"}
    ensures r.Some? ==> r.value in ExtensionCommands
  {
    match key
    case "Version" => Some(VERSION)
    case "MOVE_NEW" => Some(MOVE_NEW)
    case "MOVE_BUILD" => Some(MOVE_BUILD)
    case "MOVE_TEST" => Some(MOVE_TEST)
    case "MOVE_PUBLISH" => Some(MOVE_PUBLISH)
    case "UPDATE_CLI" => Some(UPDATE_CLI)
    case _ => None
  }
}
