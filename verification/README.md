# suilazy core, modelled in Dafny

suilazy is a VS Code extension that drives the `sui` command-line tool from a
webview. The extension host resolves a working directory and builds an
argument vector. It runs one `sui` process, reports the outcome to the webview
as a status message, and parses the CLI's environment table. The webview
builds requests from its forms, maps the extension's status messages onto its
pages, reads front-matter inputs from Markdown files, and keeps a small saved
state across reloads.

This project models that logic as pure functions over immutable datatypes.
Host effects become data:

- the messages posted to the webview are a returned sequence;
- the editor state (open folders, active file and its owning folder) is an input;
- the `sui` process runner is a parameter `cli: Invocation -> RunResult`;
- the YAML parser is a parameter `parse: string -> Option<Value>`, where None means it threw;
- the webview host API is a `Host` value.

Modules, one per component of the program:

| module | models |
|---|---|
| `Workspace` | `validateWorkspace`, `getCurrentWorkspaceFolder` |
| `MoveArgs` | the argument vectors of `sui move new` and `sui move build` |
| `MoveServices` | `SuiMoveNew`, `SuiMoveBuild`, `SuiMoveTest` |
| `NetworkService` | `SuiClientSwitch`, `SuiClientEnvs` (the `|` table parser and `activeEnv`), `SuiClientNewEnv` |
| `Handlers` | `ReceiveMessageHandler`, `HandleSuiVersion` |
| `Install` | `getOS` |
| `MovePages` | the new and build pages: submit and message handler |
| `NetworkPage` | the network page: `processedEnvs` (the `│` table re-reader), `handleAddEnv`, message handler |
| `PublishPage` | the publish page: payload, reset, switch labels, descriptions, message handler, dialog status |
| `EditorDialog` | front-matter detection and extraction, input normalization, `handleRunClick` |
| `WebviewState` | `useWebviewState` and `usePersistRoute` |
| `Wrappers`, `Text`, `Seqs`, `Js`, `Messages`, `Requests` | `Option`, JavaScript string operations, filtering, JavaScript values and truthiness, the message and request records |

## Model

| member | source | states |
|---|---|---|
| Workspace.ValidateWorkspace | src/utils/workspace.check.ts:14-30 | The workspace is valid exactly when the folder list is defined and non-empty. An invalid workspace posts exactly one `moveStatus` error with the fixed "No workspace open" text. A valid one posts nothing. |
| Workspace.ValidateIgnoresActiveFile | src/utils/workspace.check.ts:14-30 | The verdict and the messages do not depend on the active editor. |
| Workspace.GetCurrentWorkspaceFolder | src/utils/workspace.manager.ts:22-87 | On every path, a path is returned exactly when no message is. A missing path comes with one of the two fixed explanations. Exactly one message is posted when no path is found, and none otherwise. |
| Workspace.NoFolderFails | src/utils/workspace.manager.ts:26-32 | With no folder open, the result is a null path with the "No workspace folder detected" text. The one message posted is the validation error. |
| Workspace.ActiveFileInsideOwner | src/utils/workspace.manager.ts:42-58 | An owned active file whose directory starts with the owner's path resolves to that directory, with no message and nothing posted. |
| Workspace.ActiveFileOutsideOwner | src/utils/workspace.manager.ts:60-66 | An owned active file whose directory does not start with the owner's path resolves to the owner's path. |
| Workspace.SiblingCountsAsInside | src/utils/workspace.manager.ts:55 | "Inside" is a string-prefix test, so directory "/a/bc" resolves as inside folder "/a/b". |
| Workspace.SingleFolder | src/utils/workspace.manager.ts:69-74 | Without an owned active file, a single open folder is the answer, with no message. |
| Workspace.SeveralFoldersAmbiguous | src/utils/workspace.manager.ts:76-86 | Without an owned active file and with more than one folder, one warning is posted and the result is a null path with the same "Multiple folders" text. |
| Workspace.ActiveFileTakesPrecedence | src/utils/workspace.manager.ts:42-74 | Once a folder is open, an owned active file decides the result whatever the folder list is, and the result always has a path. |
| Workspace.WorkingDir | src/services/move/new.service.ts:10-12 | A process runs in the resolved path exactly when that path is truthy, so an empty path counts as missing. |
| Workspace.RefusalText | src/services/move/new.service.ts:13-20 | The refusal text is the resolver's message when that is non-empty, otherwise "No workspace path found.". It is never empty. |
| MoveArgs.FlagArgs | src/services/move/new.service.ts:29-81 | The flag arguments have one element per enabled flag, and every element is the piece of some enabled flag. |
| MoveArgs.NewArgv | src/services/move/new.service.ts:26-81 | The argument vector of `sui move new` starts with exactly "move", "new" and the project name, continues with the flag arguments, and has length 3 plus the number of enabled flags. |
| MoveArgs.BuildArgv | src/services/move/build.service.ts:26-81 | The argument vector of `sui move build` starts with exactly "move" and "build", carries no project name, continues with the same flag arguments as `new`, and has length 2 plus the number of enabled flags. |
| MoveArgs.FlagsInTableOrder | src/services/move/new.service.ts:29-81 | Any two enabled flags appear in the fixed table order, from package-path to lint. |
| MoveArgs.NoLintBeforeLint | src/services/move/build.service.ts:76-81 | With both lint switches on, both flags are pushed, "--no-lint" before "--lint". Nothing makes them exclusive. |
| MoveArgs.EachEnabledFlagOnce | src/services/move/new.service.ts:34-81 | Each enabled flag's element occurs in the flag arguments exactly once. |
| MoveArgs.DecodeSwitch | src/services/move/new.service.ts:34-81 | A switch's spelling occurs among the flag arguments exactly when the switch is on. |
| MoveArgs.DecodeValued | src/services/move/new.service.ts:29-62 | Reading the flag arguments back gives every valued flag its request value. A value is pushed as one element `--flag "value"` with literal quotes, and an empty or absent value pushes nothing. |
| MoveArgs.FlagArgsAgree | src/services/move/build.service.ts:29-81 | The flag arguments depend only on the options and the package path, never on the project name. |
| MoveArgs.EmitAllOrder | src/services/move/new.service.ts:29-81 | The push chain emits two contributing flags in table order. |
| MoveArgs.PieceReadsBack | src/services/move/new.service.ts:29-62 | The element of an enabled flag reads back as a valued flag's value only when it is that flag's own element. |
| MoveServices.RunMove | src/services/move/new.service.ts:10-100 | The service posts the resolver's messages and then exactly one status. Without a usable directory, it runs nothing and posts the refusal. Otherwise it runs `sui` with the given argument vector in that directory and posts the report of that run. It throws only on refusal, and only when asked to. |
| MoveServices.SuiMoveNew | src/services/move/new.service.ts:10-100 | After resolution, `sui move new` posts exactly one status and never throws. It runs `sui` exactly when the resolved path is truthy, in that path, with `NewArgv` of the request. Its last message is a success exactly when the process ran and exited 0. Without a path it posts the resolver's message, or "No workspace path found.". Success posts `Project "<name>" created and set as active project. <output>`, failure `Failed to create project: <output>`. |
| MoveServices.SuiMoveBuild | src/services/move/build.service.ts:10-100 | `sui move build` throws exactly when it refused to run, and the thrown text is the posted error. A failing process is reported and not rethrown. It runs `sui` in the resolved path with `BuildArgv` of the request. The refusal text is the resolver's message or "No workspace path found.". Success posts "Build completed successfully. <output>", failure "Sui move build failed: <output>". |
| MoveServices.SuiMoveTest | src/services/move/test.service.ts:5-38 | `sui move test` runs `sui` with exactly "move", "test" in the resolved path when that path is truthy. It posts exactly one status after resolution and never throws. The status is a success exactly when the process exited 0. Success posts "Test completed successfully. <output>", failure "Failed to test Move project: <output>", and a refusal the resolver's message or the fallback. |
| MoveServices.ReportCarriesOutput | src/services/move/new.service.ts:85-100 | A report is the fixed words followed by the whole process output, or by the whole rejected output, so the output can be read back. |
| MoveServices.NewSuccessNamesProject | src/services/move/new.service.ts:85-91 | A successful `new` posts `Project "<name>" created and set as active project. <output>`. |
| MoveServices.NewFailureReported | src/services/move/new.service.ts:92-100 | A failed `new` posts "Failed to create project: " and the rejected output, and still resolves. |
| MoveServices.RefusalExplains | src/services/move/new.service.ts:13-20 | With no usable directory no process runs and the refusal is the resolver's explanation. The fixed fallback appears exactly when the resolver returned an empty path. |
| MoveServices.NewAndBuildAgree | src/services/move/build.service.ts:26-81 | `new` and `build` run in the same directory with identical flag arguments. `new` only inserts the project name. |
| MoveServices.BuildIgnoresName | src/services/move/build.service.ts:23-26 | The build service's whole effect is independent of the request's project name. |
| NetworkService.Refuse | src/services/client/network.service.ts:11-19 | Without a directory an environment service posts the refusal, runs nothing, and throws the same text. |
| NetworkService.SuiClientSwitch | src/services/client/network.service.ts:5-44 | The switch runs `sui` in the resolved path with exactly "client", "switch", "--env" and the environment. On success it posts "Switched to environment <env> successfully" and returns the process output. Every failure throws exactly the text of the error it posted: the refusal text, or "Failed to switch environment: <output>". |
| NetworkService.SwitchFailureCarriesOutput | src/services/client/network.service.ts:35-43 | A failed switch throws "Failed to switch environment: " followed by the whole process output. |
| NetworkService.ParseRows | src/services/client/network.service.ts:65-66 | Every line becomes one environment, in order, read by `ParseEnvRow`. |
| NetworkService.ParseEnvs | src/services/client/network.service.ts:63-67 | The number of environments is the number of non-blank lines minus one, or zero. Environment k is the (k+1)-th non-blank line, so order is kept and the header is dropped. |
| NetworkService.ActiveEnv | src/services/client/network.service.ts:68 | `activeEnv` is the alias of the first active environment, or "" when none is active. |
| NetworkService.SuiClientEnvs | src/services/client/network.service.ts:46-86 | The listing runs `sui` in the resolved path with "client", "envs" and throws only when it refuses. It attaches data exactly when the process succeeded: the parsed environments and their active alias. A failed run posts the error with the output and does not throw. A refusal posts and throws the same text. |
| NetworkService.ParseEnvRow | src/services/client/network.service.ts:65-66 | Alias and url come out trimmed, and only a row with a url can be active. A line without `|` is an environment named by the whole trimmed line, with no url, not active. |
| NetworkService.ParseFormatRow | src/services/client/network.service.ts:65-66 | Parsing a `|`-separated row printed from an environment gives that environment back: alias is field 0, url field 1, and active holds exactly when field 2 is "*". |
| NetworkService.ParseFormattedListing | src/services/client/network.service.ts:63-67 | Parsing a header line followed by one printed row per environment gives exactly those environments back. |
| NetworkService.HeaderDropped | src/services/client/network.service.ts:63-64 | An output with a single non-blank line parses to no environment, even when that line is a row. |
| NetworkService.SuiClientNewEnv | src/services/client/network.service.ts:88-125 | Adding an environment runs `sui` in the resolved path with "client", "new-env", `--alias=<a>`, `--rpc=<r>`. It throws only when it refuses. Its status is a success exactly when the process succeeded. Success posts "Environment added successfully", failure "Failed to add new environment: <output>"; a refusal posts and throws the same text. |
| NetworkService.NewEnvArgv | src/services/client/network.service.ts:106-110 | Four arguments, `client` and `new-env` first. The alias and the url can be read back from their single argument each, after the fixed `--alias=` and `--rpc=` openings. |
| Handlers.VersionText | src/services/sui.service.ts:6-13 | The version text is standard output followed by standard error, or the literal "not found" when the command fails. |
| Handlers.HandleSuiVersion | src/handlers/command.handler.ts:4-19 | Two messages are posted when the text contains "not found", otherwise one. The last is always a success carrying the text verbatim. With two, the first is the "SUI not found" error. |
| Handlers.FailedProbeReportedTwice | src/handlers/command.handler.ts:7-19 | A failed probe posts the error, then "not found" itself as a success. |
| Handlers.MentionFlagged | src/handlers/command.handler.ts:7-13 | A text that mentions "not found" anywhere gives two messages. |
| Handlers.ReceiveMessageHandler | src/handlers/message.handler.ts:5-9 | At most one handler runs per message. The version handler runs exactly when the command is "sui.version", and then posts its messages. Otherwise nothing is posted. |
| Handlers.DispatchIgnoresBody | src/handlers/message.handler.ts:5 | Routing depends on the command only: the body never changes the outcome. |
| Handlers.OtherCommandsIgnored | src/handlers/message.handler.ts:5-9 | Every other command the extension defines, the Move commands included, triggers nothing and posts nothing. |
| Requests.WebviewCommand | webview/src/types/move/command.type.ts:10-17 | The webview's command table defines six keys, each naming one of the extension's commands. Any other key, the `CLIENT_*` keys included, yields `undefined`. |
| Install.LinuxOS | src/services/install.service.ts:12-25 | Linux is Ubuntu exactly when the probe yielded a kernel text containing "Ubuntu", and Other in every other case, a failed probe included. |
| Install.GetOS | src/services/install.service.ts:10-33 | As written: never Mac. A non-Linux platform is Windows exactly when its name contains "win", and Other otherwise. |
| Install.MacClassifiedAsWindows | src/services/install.service.ts:26-29 | "darwin" is classified as Windows. |
| Install.GetOSIntended | src/services/install.service.ts:10-33 | With the "darwin" test first, a non-Linux platform is Mac exactly when its name contains "darwin". Otherwise it is Windows exactly when its name contains "win". |
| Install.MacRecognised | src/services/install.service.ts:28-29 | The corrected order classifies "darwin" as Mac. |
| Install.IntendedDiffersOnlyOnDarwin | src/services/install.service.ts:26-29 | The two orders disagree exactly on platform names that contain "darwin". |
| Install.FreeBsdIsOther | src/services/install.service.ts:30-32 | A platform matching none of the tests, such as "freebsd", is Other. |
| MovePages.BlankToNone | webview/src/pages/sui_move/new.tsx:86-98 | A field is sent as absent exactly when it is blank. Otherwise it is sent as its non-empty trimmed text. |
| MovePages.NewSubmit | webview/src/pages/sui_move/new.tsx:72-121 | A blank name opens the dialog with "Project name is required" and posts nothing. Otherwise the page turns busy and posts one `sui.move.new` request carrying the trimmed name and the switches unchanged. The request is exactly `FormRequest` of the form with that name. |
| MovePages.BuildSubmit | webview/src/pages/sui_move/build.tsx:75-114 | The build submit never validates and always posts one `sui.move.build` request with no project name and the switches unchanged. The request is exactly `FormRequest` of the form without a name. |
| MovePages.FormRequest | webview/src/pages/sui_move/new.tsx:85-106 | The request carries the given name and the form's switches. Package path, install directory, flavor and edition are each absent exactly when blank, and otherwise their trimmed text. |
| MovePages.TemplateNeverSent | webview/src/pages/sui_move/new.tsx:85-106 | Changing the template changes neither page's effect. |
| MovePages.BuildIsNewWithoutName | webview/src/pages/sui_move/build.tsx:79-99 | The build request is the new request with its name removed. |
| MovePages.NameReachesArgv | webview/src/pages/sui_move/new.tsx:85-112 | The trimmed name is the third element of `sui move new`'s argument vector. Every valued flag is absent or carries a non-empty trimmed value. |
| MovePages.SettingsTrimmed | webview/src/pages/sui_move/new.tsx:87-98 | Every valued setting the page sends is absent or non-empty and trimmed. |
| MovePages.OnMoveMessage | webview/src/pages/sui_move/build.tsx:116-127 | Only `moveStatus` messages change the page. They clear the busy flag and open the dialog. The status shows as success exactly when it is "success". A missing or empty text shows as "". |
| MovePages.ServiceReportShown | webview/src/pages/sui_move/new.tsx:123-134 | Every report a Move service posts shows with its status and its text word for word. |
| MovePages.WarningShownAsError | webview/src/pages/sui_move/new.tsx:127-128 | The resolver's "warning" status shows as an error. |
| NetworkPage.KeepRow | webview/src/pages/sui_client/network.tsx:118-126 | A kept line starts with "│" and holds no "├" and no "╰" anywhere. |
| NetworkPage.ParseBoxRow | webview/src/pages/sui_client/network.tsx:127-134 | Alias and url come out trimmed, and only a row with a url can be active. |
| NetworkPage.UnbarredLineEmpty | webview/src/pages/sui_client/network.tsx:127-134 | A line without "│" reads as an entry with an empty alias, no url, not active. |
| NetworkPage.ParseBoxRows | webview/src/pages/sui_client/network.tsx:127-134 | Every entry becomes one environment, in order, re-read from its alias. |
| NetworkPage.ProcessEnvs | webview/src/pages/sui_client/network.tsx:118-134 | The output is never longer than the input. Its k-th environment is the re-read k-th kept entry, so relative order is preserved. |
| NetworkPage.ProcessEnvsKeepsRows | webview/src/pages/sui_client/network.tsx:118-126 | An entry is kept exactly when its line starts with "│" and contains neither "├", "╰" nor "alias". |
| NetworkPage.ParseBoxRowInverse | webview/src/pages/sui_client/network.tsx:127-134 | Re-reading a printed "│" row gives its environment back: alias is part 1, url part 2, and active holds exactly when part 3 is "*". |
| NetworkPage.BoxRowKept | webview/src/pages/sui_client/network.tsx:118-126 | A printed row that does not mention "alias" passes the row test. |
| NetworkPage.BoxRowEnds | webview/src/pages/sui_client/network.tsx:121 | A printed row starts and ends with "│". |
| NetworkPage.BoxRowThroughExtension | webview/src/pages/sui_client/network.tsx:127-134 | A "│" row read by the extension's `|` parser lands whole in the alias, and the page re-reads it into the environment that was printed. |
| NetworkPage.AliasNamedRowDropped | webview/src/pages/sui_client/network.tsx:124 | Any line containing "alias", such as an environment named "myalias", is dropped. |
| NetworkPage.HandleAddEnv | webview/src/pages/sui_client/network.tsx:85-99 | An empty alias or url sets the "Please provide both alias and RPC URL" error and posts nothing. Otherwise the page turns busy, posts one request with `{alias, rpc: url}`, and clears both fields. |
| NetworkPage.AddEnvRoutedNowhere | webview/src/pages/sui_client/network.tsx:91-97 | The add request's command is `undefined`, so the extension's dispatcher runs nothing for it. |
| NetworkPage.OnMessage | webview/src/pages/sui_client/network.tsx:101-143 | Every message clears loading. An "error" message shows its text and leaves the list unchanged. Any other message clears the error. The list changes only on a successful `moveStatus` with data, which replaces it with the processed listing and shows the message text as a success. Every other non-error message, a success without data included, changes only loading and the error. The new-environment fields are never touched. |
| NetworkPage.OtherMessagesKeepList | webview/src/pages/sui_client/network.tsx:113-115 | Any message that is neither an error nor a success only clears loading and the error. |
| PublishPage.ResetToggles | webview/src/pages/sui_client/publish.tsx:183-201 | "Reset All" turns every one of the 14 switches off. |
| PublishPage.InitialPage | webview/src/pages/sui_client/publish.tsx:36-63 | The page starts with the switches "Reset All" gives, package path ".", empty gas budget and gas object, and nothing loading, shown or stored. |
| PublishPage.AllOffIsReset | webview/src/pages/sui_client/publish.tsx:183-201 | The only state with every switch off is the reset state, which is the initial one. |
| PublishPage.EmptyToNone | webview/src/pages/sui_client/publish.tsx:95-96 | A gas field is sent as absent exactly when it is empty, and otherwise as typed. |
| PublishPage.HandlePublish | webview/src/pages/sui_client/publish.tsx:85-101 | The page turns busy and clears result and error. It posts `sui.move.publish` with the content under `options`: the switches, the package path as typed, and each gas field, absent exactly when empty. |
| PublishPage.PackagePathSentAsTyped | webview/src/pages/sui_client/publish.tsx:94 | An empty package path is still sent, untrimmed. |
| PublishPage.PublishRoutedNowhere | webview/src/pages/sui_client/publish.tsx:90-100 | The extension's dispatcher runs nothing for the publish request. |
| PublishPage.OnMessage | webview/src/pages/sui_client/publish.tsx:65-79 | Only `moveStatus` messages change the page. They clear loading and open the dialog. A success stores the text as result and clears the error; any other status does the reverse. The switches, package path and both gas fields are kept. |
| PublishPage.DialogStatus | webview/src/pages/sui_client/publish.tsx:258-261 | The dialog shows an error exactly when `error` is truthy. Its text is `error`, else a truthy `result`, else "". |
| PublishPage.ReportShown | webview/src/pages/sui_client/publish.tsx:65-79 | A success, or a failure with a non-empty text, reaches the dialog with its kind and text as sent. |
| PublishPage.EmptyFailureShownAsSuccess | webview/src/pages/sui_client/publish.tsx:258-261 | A failure with an empty text shows as a success with an empty text. |
| PublishPage.OptionDescription | webview/src/pages/sui_client/publish.tsx:269-287 | A key gets a non-empty text other than the fallback exactly when it is one of the 14 option keys. Any other key gets "No description available". |
| PublishPage.Spaced | webview/src/pages/sui_client/publish.tsx:225 | Inserting a space before each capital adds exactly one character per capital. |
| PublishPage.CapWord | webview/src/pages/sui_client/publish.tsx:228-230 | A word keeps its length, its first character upper-cased and every other lower-cased. |
| PublishPage.FormatLabel | webview/src/pages/sui_client/publish.tsx:224-231 | Splitting on spaces, capitalising each word and joining with spaces equals a single left-to-right pass over the spaced key, which upper-cases word starts and lower-cases the rest. |
| PublishPage.LabelShape | webview/src/pages/sui_client/publish.tsx:224-231 | The label is the key with one space inserted per capital. Its first character and every character after a space are upper-cased, and all others are lower-cased. |
| EditorDialog.FindClose | webview/src/components/EditorDialog.tsx:61-64 | The search returns the first position at or after the start where a closing `\n---` begins, or none when there is none. |
| EditorDialog.HasFrontmatter | webview/src/components/EditorDialog.tsx:55 | Code that opens with `---` is detected, and blank code never is. |
| EditorDialog.ExtractFrontmatter | webview/src/components/EditorDialog.tsx:61-64 | Front-matter is found exactly when the code starts with "---\n" and a closing `\n---` follows. Its content is the text between the opening and the first such closing. |
| EditorDialog.ExtractRoundTrip | webview/src/components/EditorDialog.tsx:61-64 | A block written around any body that has no closing line of its own is extracted word for word, whatever follows. |
| EditorDialog.LeadingBlankNotExtracted | webview/src/components/EditorDialog.tsx:55-64 | The detection trims but the match does not: code that starts with a blank before its `---` has front-matter and yields no block. |
| EditorDialog.CrlfNotExtracted | webview/src/components/EditorDialog.tsx:61-64 | A block opened with a Windows line ending is not extracted. |
| EditorDialog.Normalize | webview/src/components/EditorDialog.tsx:87-93 | A normalized field keeps the entry's `type` and `name`, both truthy. |
| EditorDialog.NormalizeDefaults | webview/src/components/EditorDialog.tsx:87-93 | The description defaults to "". `required` is true when absent or null, and any other value, false included, is kept. `default` is copied. |
| EditorDialog.NormalizeAll | webview/src/components/EditorDialog.tsx:72-102 | The whole list is discarded exactly when it holds a `null` entry, which throws. Otherwise the result is no longer than the list, and every field has a truthy type and name. |
| EditorDialog.NormalizeAllIsFilterMap | webview/src/components/EditorDialog.tsx:72-96 | Without `null` entries, the result is the entries that are objects with a truthy type and name, each normalized, in order. |
| EditorDialog.FrontmatterInputs | webview/src/components/EditorDialog.tsx:55-103 | Inputs exist only when front-matter is detected and extracted, the parser succeeds, and `input` is an array. The inputs are then its normalized entries, and never an empty list. |
| EditorDialog.InputsFromEntries | webview/src/components/EditorDialog.tsx:68-102 | For a parsed front-matter object, whatever its other keys, whose `input` is a list without `null` entries, the inputs are the usable entries normalized, or none when none is usable. |
| EditorDialog.NullEntryDiscardsAll | webview/src/components/EditorDialog.tsx:98-102 | A `null` entry anywhere in the `input` list yields no inputs, whatever the object's other keys. |
| EditorDialog.HandleRunClick | webview/src/components/EditorDialog.tsx:105-111 | The Run button asks for inputs exactly when there are inputs, and otherwise runs at once. |
| EditorDialog.NoFrontmatterRunsNow | webview/src/components/EditorDialog.tsx:55-57 | A file with no detected or extracted front-matter runs at once, whatever the parser would say. |
| WebviewState.StateFields | webview/src/hooks/useWebviewState.ts:22 | A missing or `null` saved state counts as the empty map. An object contributes its fields. |
| WebviewState.GetSavedState | webview/src/hooks/useWebviewState.ts:12-16 | With no host, the read gives the initial value. Otherwise it gives the saved value under the key when that is present and not null; a saved null reads as the initial value. Any result other than the initial value is the saved one, and never null. |
| WebviewState.WriteState | webview/src/hooks/useWebviewState.ts:20-24 | With no host nothing is written. Otherwise the saved state becomes an object that holds the value under the key and, under every other key, what the old state held. |
| WebviewState.ReadAfterWrite | webview/src/hooks/useWebviewState.ts:12-24 | Reading back a written key gives the value written, or the initial value when the value was null. |
| WebviewState.WriteKeepsOtherKeys | webview/src/hooks/useWebviewState.ts:20-24 | A write leaves the value read under every other key unchanged. |
| WebviewState.LastWriteWins | webview/src/hooks/useWebviewState.ts:20-24 | Writing one key twice is the same as writing only the second value. |
| WebviewState.PersistRoute | webview/src/hooks/usePersistRoute.ts:15-19 | With no host nothing is written. Otherwise the current pathname reads back under "pathname". |
| WebviewState.RouteKeepsPageState | webview/src/hooks/usePersistRoute.ts:17-18 | Persisting the route leaves the value read under every other key unchanged. |

## Left out

- Process spawning in `processCLI` (`src/services/excute.ts`) is the parameter `cli`. Any non-zero exit, including a signal exit with a null code, is `Err` with the combined output.
- Running `sui --version` in `SuiVersion` is an input: `Handlers.VersionText` gives the text from the probe's outcome.
- The VS Code storage and view providers are not modelled. The view provider's message listener is empty, so nothing connects the webview to `ReceiveMessageHandler`. The dispatcher is modelled on its own.
- The legacy `move.handler.ts` and `network.handler.ts` are not modelled. They import service names that do not exist, and a module that is not part of this model.
- Visual components, navigation, the unrouted legacy pages and build configuration are not modelled: they hold no logic of the kind modelled here.
- Listener lifecycle and concurrency are not modelled: the per-click listener of the network page's switch (`handleSwitchEnv`), the initial `fetchEnvironments`, and the lack of request/response correlation. Each handler is modelled as one synchronous step.
- `yaml.parse` is the parameter `parse`. JSON handling and the HTTP call of the file editor are outside the modelled core.
- `Text.Trim` uses a fixed whitespace set (space, tab, line feed, carriage return, vertical tab, form feed, no-break space, byte order mark, line and paragraph separators), not JavaScript's full Unicode set, which also holds the other space separators.
- `PublishPage.CapWord`: upper- and lower-casing cover ASCII letters only, not JavaScript's full Unicode case mapping.
- `WebviewState.StateFields`: spreading a saved string or array is modelled as the empty map; JavaScript would copy their indices as keys.
- `PublishPage.OptionDescription`: inherited object keys such as "constructor" are not modelled; JavaScript would look them up on the prototype.
- `NetworkPage.OnMessage`: a successful `moveStatus` without `data` throws in JavaScript after clearing the error. It is modelled as a step that changes nothing else.
- Toggling a single switch on the publish page (`onCheckedChange`) is not modelled; only reset and the payload are. The order in which `Object.entries` lists the switches and the example labels are not modelled either.
- `NetworkPage.UnbarredLineEmpty`: a missing alias part is modelled as "" where JavaScript gives `undefined`. It arises only for a line without "│", which the row test never keeps.
- JavaScript numbers are modelled as integers (`Js.Value`), so NaN and fractional values are not modelled. NaN is falsy, so an entry with a NaN `type` or `name` would be dropped by the truthiness test; the model has no such entry.
- `MoveArgs.NewArgv`: a missing project name is modelled as JavaScript's text "undefined". The argument vector is the one the code builds.
- Console logging, and the `catch` of `postMessage` in the new and build pages (which a synchronous post does not reach), are not modelled.
- The request type has 13 boolean Move options (dev, test, doc, disassemble, force, fetchDepsOnly, skipFetchLatestGitDeps, dependenciesAreRoot, silenceWarnings, warningsAreErrors, jsonErrors, noLint, lint). The model copies all 13, as the code does.

## Findings

| source | as written | input that shows it | evidently intended | confidence | as-written member | corrected member |
|---|---|---|---|---|---|---|
| src/services/install.service.ts:26-29 | `getOS` tests whether the platform contains "win" before testing for "darwin" | platform "darwin" (macOS) contains "win" and is classified as Windows; the Mac branch can never be reached | macOS is classified as Mac | high, not executed | Install.GetOS, Install.MacClassifiedAsWindows | Install.GetOSIntended, Install.MacRecognised |
