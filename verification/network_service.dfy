/** The environment services of the extension host
    (src/services/client/network.service.ts): switching the active `sui`
    environment, listing the environments, and adding one. Each resolves a
    working directory first and, unlike the Move services, rejects when
    there is none. */
module NetworkService {
  import opened Wrappers
  import opened Text
  import opened Seqs
  import opened Messages
  import opened Workspace
  import opened MoveServices

  const SwitchErrPrefix := "Failed to switch environment: "
  const ListedText := "Environments listed successfully"
  const ListErrPrefix := "Failed to list environments: "
  const AddedText := "Environment added successfully"
  const AddErrPrefix := "Failed to add new environment: "

  function SwitchedText(env: string): string {
    "Switched to environment " + env + " successfully"
  }

  /** What every environment service does without a directory: post the
      refusal and reject with the same text. */
  function Refuse(res: Resolution): (run: ServiceRun)
    ensures run.invoked.None? && run.completion == Threw(RefusalText(res))
    ensures run.posted == res.posted + [MoveStatus("error", RefusalText(res))]
  {
    var refusal := RefusalText(res);
    ServiceRun(res.posted + [MoveStatus("error", refusal)], None, Threw(refusal))
  }

  // ---------------------------------------------------------------------
  // Switching

  /** `SuiClientSwitch`: `sui client switch --env <env>`. It resolves with
      the process output; every failure, the missing directory included,
      rejects with exactly the text of the error it posted. */
  function SuiClientSwitch(st: EditorState, env: string, cli: Invocation -> RunResult): (run: ServiceRun)
    ensures |run.posted| == |GetCurrentWorkspaceFolder(st).posted| + 1
    ensures run.posted[..|run.posted| - 1] == GetCurrentWorkspaceFolder(st).posted
    ensures run.invoked.Some? <==> Present(GetCurrentWorkspaceFolder(st).path)
    ensures run.invoked.Some? ==>
      run.invoked.value == Invocation("sui", ["client", "switch", "--env", env], GetCurrentWorkspaceFolder(st).path.value)
    ensures run.completion.Returned? <==> run.invoked.Some? && cli(run.invoked.value).Ok?
    ensures run.completion.Returned? ==>
      run.completion.value == Some(cli(run.invoked.value).output)
      && Final(run) == MoveStatus("success", SwitchedText(env))
    ensures run.completion.Threw? ==> Final(run) == MoveStatus("error", run.completion.error)
    ensures run.invoked.None? ==> run.completion == Threw(RefusalText(GetCurrentWorkspaceFolder(st)))
    ensures run.invoked.Some? && cli(run.invoked.value).Err? ==>
      run.completion == Threw(SwitchErrPrefix + cli(run.invoked.value).output)
  {
    var res := GetCurrentWorkspaceFolder(st);
    match WorkingDir(res)
    case None => Refuse(res)
    case Some(dir) =>
      var inv := Invocation("sui", ["client", "switch", "--env", env], dir);
      match cli(inv)
      case Ok(out) => ServiceRun(res.posted + [MoveStatus("success", SwitchedText(env))], Some(inv), Returned(Some(out)))
      case Err(out) =>
        var e := SwitchErrPrefix + out;
        ServiceRun(res.posted + [MoveStatus("error", e)], Some(inv), Threw(e))
  }

  /** The rejection of a failed switch carries the process output after the
      fixed words, so a caller can recover it. */
  lemma SwitchFailureCarriesOutput(st: EditorState, env: string, cli: Invocation -> RunResult)
    requires Present(GetCurrentWorkspaceFolder(st).path)
    requires cli(Invocation("sui", ["client", "switch", "--env", env], GetCurrentWorkspaceFolder(st).path.value)).Err?
    ensures var run := SuiClientSwitch(st, env, cli);
      var e := run.completion.error;
      run.completion.Threw? && StartsWith(e, SwitchErrPrefix)
      && e[|SwitchErrPrefix|..] == cli(run.invoked.value).output
  {
  }

  // ---------------------------------------------------------------------
  // Listing

  /** `line.trim()` is truthy. */
  predicate NotBlankLine(line: string) {
    Trim(line) != []
  }

  /** The output lines that are not blank. */
  function EnvLines(output: string): seq<string> {
    Filter(NotBlankLine, Split(output, '\n'))
  }

  /** One table row: the `|`-separated fields, trimmed, read as alias, url
      and active mark. Only a row with a url can be active, and a line
      without a `|` is an environment named by the whole trimmed line, with
      no url, not active. */
  function ParseEnvRow(line: string): (e: Env)
    ensures Trimmed(e.alias) && (e.url.Some? ==> Trimmed(e.url.value))
    ensures e.active ==> e.url.Some?
    ensures '|' !in line ==> e == Env(Trim(line), None, false)
  {
    SplitWithout(line, '|');
    EnvOfFields(Split(line, '|'))
  }

  /** A row with a single field has an undefined url; a row with fewer than
      three fields is not active. */
  function EnvOfFields(parts: seq<string>): (e: Env)
    requires |parts| >= 1
    ensures Trimmed(e.alias) && (e.url.Some? ==> Trimmed(e.url.value))
    ensures e.active ==> e.url.Some?
  {
    Env(Trim(parts[0]),
        if |parts| >= 2 then Some(Trim(parts[1])) else None,
        |parts| >= 3 && Trim(parts[2]) == "*")
  }

  function ParseRows(lines: seq<string>): (envs: seq<Env>)
    ensures |envs| == |lines|
    ensures forall k :: 0 <= k < |lines| ==> envs[k] == ParseEnvRow(lines[k])
  {
    if lines == [] then [] else [ParseEnvRow(lines[0])] + ParseRows(lines[1..])
  }

  /** The listing: every non-blank line after the first (the header) is an
      environment. */
  function ParseEnvs(output: string): (envs: seq<Env>)
    ensures |envs| == if |EnvLines(output)| == 0 then 0 else |EnvLines(output)| - 1
    ensures forall k :: 0 <= k < |envs| ==> envs[k] == ParseEnvRow(EnvLines(output)[k + 1])
  {
    var lines := EnvLines(output);
    if lines == [] then [] else ParseRows(lines[1..])
  }

  /** `envs.find(e => e.active)?.alias || ""`: the alias of the first active
      environment, or "" when none is active. */
  function ActiveEnv(envs: seq<Env>): (a: string)
    ensures (forall k :: 0 <= k < |envs| ==> !envs[k].active) ==> a == ""
    ensures forall k :: 0 <= k < |envs| && envs[k].active && (forall j :: 0 <= j < k ==> !envs[j].active)
              ==> a == envs[k].alias
  {
    if envs == [] then ""
    else if envs[0].active then envs[0].alias
    else
      ActiveEnv(envs[1..])
  }

  /** `SuiClientEnvs`: `sui client envs`, then the parsed listing posted as
      `data`. A failing process is reported but does not reject. */
  function SuiClientEnvs(st: EditorState, cli: Invocation -> RunResult): (run: ServiceRun)
    ensures |run.posted| == |GetCurrentWorkspaceFolder(st).posted| + 1
    ensures run.posted[..|run.posted| - 1] == GetCurrentWorkspaceFolder(st).posted
    ensures run.invoked.Some? <==> Present(GetCurrentWorkspaceFolder(st).path)
    ensures run.invoked.Some? ==>
      run.invoked.value == Invocation("sui", ["client", "envs"], GetCurrentWorkspaceFolder(st).path.value)
    ensures run.completion.Threw? <==> run.invoked.None?
    ensures run.invoked.None? ==>
      var refusal := RefusalText(GetCurrentWorkspaceFolder(st));
      run.completion == Threw(refusal) && Final(run) == MoveStatus("error", refusal)
    ensures Final(run).data.Some? <==> run.invoked.Some? && cli(run.invoked.value).Ok?
    ensures Final(run).data.Some? ==>
      var envs := ParseEnvs(cli(run.invoked.value).output);
      Final(run) == Message("moveStatus", "success", Some(ListedText), Some(EnvListing(envs, ActiveEnv(envs))))
    ensures run.invoked.Some? && cli(run.invoked.value).Err? ==>
      Final(run) == MoveStatus("error", ListErrPrefix + cli(run.invoked.value).output)
  {
    var res := GetCurrentWorkspaceFolder(st);
    match WorkingDir(res)
    case None => Refuse(res)
    case Some(dir) =>
      var inv := Invocation("sui", ["client", "envs"], dir);
      match cli(inv)
      case Ok(out) =>
        var envs := ParseEnvs(out);
        var m := Message("moveStatus", "success", Some(ListedText), Some(EnvListing(envs, ActiveEnv(envs))));
        ServiceRun(res.posted + [m], Some(inv), Returned(None))
      case Err(out) =>
        ServiceRun(res.posted + [MoveStatus("error", ListErrPrefix + out)], Some(inv), Returned(None))
  }

  /** An environment that a table row can state: its alias and url neither
      hold a field separator or a line break nor start or end with
      whitespace, and it has a url. */
  predicate Writable(e: Env) {
    e.url.Some?
    && Trimmed(e.alias) && '|' !in e.alias && '\n' !in e.alias
    && Trimmed(e.url.value) && '|' !in e.url.value && '\n' !in e.url.value
  }

  /** The row the CLI prints for an environment, one space of padding
      around each field. */
  function FormatRow(e: Env): string {
    Join(RowFields(e), '|')
  }

  function RowFields(e: Env): seq<string> {
    [Pad(e.alias), Pad(e.url.GetOr("")), Pad(if e.active then "*" else "")]
  }

  function Pad(x: string): string {
    " " + x + " "
  }

  /** Padding adds only spaces. */
  lemma PadKeepsOut(x: string, c: char)
    requires c !in x && c != ' '
    ensures c !in Pad(x)
  {
    assert forall i :: 0 <= i < |Pad(x)| ==> Pad(x)[i] == ' ' || Pad(x)[i] == x[i - 1];
  }

  lemma FieldsHoldNo(e: Env, c: char)
    requires Writable(e) && (c == '|' || c == '\n')
    ensures forall k :: 0 <= k < 3 ==> c !in RowFields(e)[k]
  {
    PadKeepsOut(e.alias, c);
    PadKeepsOut(e.url.value, c);
    PadKeepsOut(if e.active then "*" else "", c);
  }

  /** Reading a formatted row gives back the environment. */
  lemma ParseFormatRow(e: Env)
    requires Writable(e)
    ensures ParseEnvRow(FormatRow(e)) == e
  {
    SplitRow(e);
    FieldsReadBack(e);
  }

  lemma FieldsReadBack(e: Env)
    requires Writable(e)
    ensures EnvOfFields(RowFields(e)) == e
  {
    var mark := if e.active then "*" else "";
    TrimPadded(e.alias);
    TrimPadded(e.url.value);
    MarkReadsBack(e.active);
    FieldsAre(Pad(e.alias), Pad(e.url.value), Pad(mark), e.alias, e.url.value, e.active);
  }

  lemma FieldsAre(a: string, u: string, m: string, alias: string, url: string, active: bool)
    requires Trim(a) == alias && Trim(u) == url && (Trim(m) == "*" <==> active)
    ensures EnvOfFields([a, u, m]) == Env(alias, Some(url), active)
  {
    var parts := [a, u, m];
    assert |parts| == 3 && parts[0] == a && parts[1] == u && parts[2] == m;
  }

  /** The active mark reads back as "*" exactly when it was printed. */
  lemma MarkReadsBack(active: bool)
    ensures Trim(Pad(if active then "*" else "")) == "*" <==> active
  {
    if active { TrimPadded("*"); } else { TrimPadded(""); }
  }

  lemma SplitRow(e: Env)
    requires Writable(e)
    ensures Split(FormatRow(e), '|') == RowFields(e)
  {
    FieldsHoldNo(e, '|');
    SplitJoin(RowFields(e), '|');
  }

  function FormatRows(envs: seq<Env>): (rows: seq<string>)
    ensures |rows| == |envs|
    ensures forall k :: 0 <= k < |envs| ==> rows[k] == FormatRow(envs[k])
  {
    if envs == [] then [] else [FormatRow(envs[0])] + FormatRows(envs[1..])
  }

  /** A formatted row is one non-blank line. */
  lemma FormatRowIsLine(e: Env)
    requires Writable(e)
    ensures '\n' !in FormatRow(e) && NotBlankLine(FormatRow(e))
  {
    var parts := RowFields(e);
    var row := FormatRow(e);
    FieldsHoldNo(e, '\n');
    assert row == parts[0] + "|" + Join(parts[1..], '|');
    assert row[|parts[0]|] == '|';
    assert !Blank(row);
    assert Split(row, '|') == Split(row, '|');
    assert forall k :: 0 <= k < 3 ==> '\n' !in parts[k];
    JoinKeepsOut(parts, '|', '\n');
  }

  /** Listing round trip: the output of a header line followed by one
      formatted row per environment parses back to those environments. */
  lemma ParseFormattedListing(header: string, envs: seq<Env>)
    requires NotBlankLine(header) && '\n' !in header
    requires forall k :: 0 <= k < |envs| ==> Writable(envs[k])
    ensures ParseEnvs(Join([header] + FormatRows(envs), '\n')) == envs
  {
    var rows := FormatRows(envs);
    ListingLines(header, envs);
    var out := ParseEnvs(Join([header] + rows, '\n'));
    forall k | 0 <= k < |envs| ensures out[k] == envs[k] {
      ParseFormatRow(envs[k]);
    }
  }

  /** The non-blank lines of such an output are the header and the rows. */
  lemma ListingLines(header: string, envs: seq<Env>)
    requires NotBlankLine(header) && '\n' !in header
    requires forall k :: 0 <= k < |envs| ==> Writable(envs[k])
    ensures EnvLines(Join([header] + FormatRows(envs), '\n')) == [header] + FormatRows(envs)
  {
    var lines := [header] + FormatRows(envs);
    forall k | 0 <= k < |lines| ensures '\n' !in lines[k] && NotBlankLine(lines[k]) {
      if k > 0 {
        assert lines[k] == FormatRows(envs)[k - 1] == FormatRow(envs[k - 1]);
        FormatRowIsLine(envs[k - 1]);
      }
    }
    SplitJoin(lines, '\n');
    LinesOfJoin(Join(lines, '\n'), lines);
  }

  lemma LinesOfJoin(out: string, lines: seq<string>)
    requires Split(out, '\n') == lines
    requires forall k :: 0 <= k < |lines| ==> NotBlankLine(lines[k])
    ensures EnvLines(out) == lines
  {
    FilterAll(NotBlankLine, lines);
  }

  /** The first non-blank line is always dropped, even when it is already
      an environment row. */
  lemma HeaderDropped(output: string)
    requires |EnvLines(output)| == 1
    ensures ParseEnvs(output) == []
  {
  }

  // ---------------------------------------------------------------------
  // Adding

  /** `sui client new-env --alias=<a> --rpc=<r>`: the alias and url can be
      read back from their single argument each. */
  function NewEnvArgv(alias: string, rpc: string): (argv: seq<string>)
    ensures |argv| == 4 && argv[0] == "client" && argv[1] == "new-env"
    ensures StartsWith(argv[2], "--alias=") && argv[2][|"--alias="|..] == alias
    ensures StartsWith(argv[3], "--rpc=") && argv[3][|"--rpc="|..] == rpc
  {
    ["client", "new-env", "--alias=" + alias, "--rpc=" + rpc]
  }

  /** `SuiClientNewEnv`: `sui client new-env --alias=<a> --rpc=<r>`, each
      flag and its value a single argument. A failing process is reported
      but does not reject. */
  function SuiClientNewEnv(st: EditorState, alias: string, rpc: string, cli: Invocation -> RunResult): (run: ServiceRun)
    ensures |run.posted| == |GetCurrentWorkspaceFolder(st).posted| + 1
    ensures run.posted[..|run.posted| - 1] == GetCurrentWorkspaceFolder(st).posted
    ensures run.invoked.Some? <==> Present(GetCurrentWorkspaceFolder(st).path)
    ensures run.invoked.Some? ==>
      run.invoked.value == Invocation("sui", NewEnvArgv(alias, rpc), GetCurrentWorkspaceFolder(st).path.value)
    ensures run.completion.Threw? <==> run.invoked.None?
    ensures Final(run).status == "success" <==> run.invoked.Some? && cli(run.invoked.value).Ok?
    ensures run.invoked.None? ==>
      var refusal := RefusalText(GetCurrentWorkspaceFolder(st));
      run.completion == Threw(refusal) && Final(run) == MoveStatus("error", refusal)
    ensures run.invoked.Some? && cli(run.invoked.value).Ok? ==> Final(run) == MoveStatus("success", AddedText)
    ensures run.invoked.Some? && cli(run.invoked.value).Err? ==>
      Final(run) == MoveStatus("error", AddErrPrefix + cli(run.invoked.value).output)
  {
    var res := GetCurrentWorkspaceFolder(st);
    match WorkingDir(res)
    case None => Refuse(res)
    case Some(dir) =>
      var inv := Invocation("sui", NewEnvArgv(alias, rpc), dir);
      var m := match cli(inv)
        case Ok(_) => MoveStatus("success", AddedText)
        case Err(out) => MoveStatus("error", AddErrPrefix + out);
      ServiceRun(res.posted + [m], Some(inv), Returned(None))
  }

}
