/** The webview's publish page (webview/src/pages/sui_client/publish.tsx):
    the request it posts, its switch panel with labels and descriptions,
    and the status dialog. */
module PublishPage {
  import opened Wrappers
  import opened Text
  import opened Messages
  import opened Requests
  import opened Handlers

  const NoDescription := "No description available"

  /** The page's state. `result` and `error` are `null` (None) or a text. */
  datatype Page = Page(
    loading: bool,
    dialogOpen: bool,
    result: Option<string>,
    error: Option<string>,
    packagePath: string,
    gasBudget: string,
    gasObjectId: string,
    toggles: PublishToggles)

  /** The option keys: the fields of the options object. */
  predicate IsOptionKey(key: string) {
    key == "dev" || key == "test" || key == "doc" || key == "force" || key == "dryRun"
    || key == "devInspect" || key == "skipDependencyVerification"
    || key == "withUnpublishedDependencies" || key == "json" || key == "lint"
    || key == "noLint" || key == "silenceWarnings" || key == "warningsAreErrors"
    || key == "jsonErrors"
  }

  /** How many switches are on. */
  function CountOn(t: PublishToggles): nat {
    (if t.dev then 1 else 0) + (if t.test then 1 else 0) + (if t.doc then 1 else 0)
    + (if t.force then 1 else 0) + (if t.dryRun then 1 else 0) + (if t.devInspect then 1 else 0)
    + (if t.skipDependencyVerification then 1 else 0) + (if t.withUnpublishedDependencies then 1 else 0)
    + (if t.json then 1 else 0) + (if t.lint then 1 else 0) + (if t.noLint then 1 else 0)
    + (if t.silenceWarnings then 1 else 0) + (if t.warningsAreErrors then 1 else 0)
    + (if t.jsonErrors then 1 else 0)
  }

  /** "Reset All": every switch off. */
  function ResetToggles(): (t: PublishToggles)
    ensures CountOn(t) == 0
  {
    PublishToggles(false, false, false, false, false, false, false, false, false, false, false, false, false, false)
  }

  /** The page as it first renders: package path ".", no gas settings,
      nothing shown, and the switches "Reset All" gives. */
  function InitialPage(): (p: Page)
    ensures p.toggles == ResetToggles() && p.packagePath == "."
    ensures !p.loading && !p.dialogOpen && p.result.None? && p.error.None?
    ensures p.gasBudget == "" && p.gasObjectId == ""
  {
    Page(false, false, None, None, ".", "", "", ResetToggles())
  }

  /** The reset state is the only one with every switch off, so "Reset
      All" from any state gives the switches the page started with. */
  lemma AllOffIsReset(t: PublishToggles)
    requires CountOn(t) == 0
    ensures t == ResetToggles() && t == InitialPage().toggles
  {
  }

  /** `value || undefined` for a text field: absent exactly when empty (no
      trimming). */
  function EmptyToNone(s: string): (o: Option<string>)
    ensures o.None? <==> s == ""
    ensures o.GetOr("") == s
  {
    if s == "" then None else Some(s)
  }

  /** `handlePublish`: the page turns busy, clears the result and the error,
      and posts `sui.move.publish` with the switches, the package path as
      typed and the gas settings when non-empty. */
  function HandlePublish(p: Page): (r: (Page, Request))
    ensures r.0 == p.(loading := true, result := None, error := None)
    ensures r.1.command == Some(MOVE_PUBLISH) && r.1.body.Options?
    ensures var o := r.1.body.publish;
      o.toggles == p.toggles && o.packagePath == p.packagePath
      && o.gasBudget.GetOr("") == p.gasBudget && o.gasObjectId.GetOr("") == p.gasObjectId
      && (o.gasBudget.None? <==> p.gasBudget == "") && (o.gasObjectId.None? <==> p.gasObjectId == "")
  {
    var options := PublishOptions(p.toggles, p.packagePath, EmptyToNone(p.gasBudget), EmptyToNone(p.gasObjectId));
    (p.(loading := true, result := None, error := None), Request(WebviewCommand("MOVE_PUBLISH"), Options(options)))
  }

  /** Unlike the Move pages, the publish page sends the package path
      untrimmed, and an empty one is still sent. */
  lemma PackagePathSentAsTyped(p: Page)
    requires p.packagePath == ""
    ensures HandlePublish(p).1.body.publish.packagePath == ""
  {
  }

  /** The extension's dispatcher has no case for `sui.move.publish`, so a
      publish request starts nothing and is never answered. */
  lemma PublishRoutedNowhere(p: Page, version: string)
    ensures ReceiveMessageHandler(HandlePublish(p).1, version) == Dispatch(0, [])
  {
    OtherCommandsIgnored(MOVE_PUBLISH, HandlePublish(p).1.body, version);
  }

  /** The message handler: only `moveStatus` messages count. They clear the
      busy flag and open the dialog; "success" stores the text as the result
      and clears the error, any other status the reverse. */
  function OnMessage(msg: Message, p: Page): (r: Page)
    ensures msg.kind != "moveStatus" ==> r == p
    ensures msg.kind == "moveStatus" ==> !r.loading && r.dialogOpen
    ensures msg.kind == "moveStatus" && msg.status == "success" ==> r.result == msg.text && r.error.None?
    ensures msg.kind == "moveStatus" && msg.status != "success" ==> r.error == msg.text && r.result.None?
    ensures r.toggles == p.toggles && r.packagePath == p.packagePath
    ensures r.gasBudget == p.gasBudget && r.gasObjectId == p.gasObjectId
  {
    if msg.kind != "moveStatus" then p
    else if msg.status == "success" then p.(loading := false, dialogOpen := true, result := msg.text, error := None)
    else p.(loading := false, dialogOpen := true, error := msg.text, result := None)
  }

  /** The status dialog: error when `error` is truthy, and the text
      `error || result || ""`. */
  function DialogStatus(p: Page): (shown: (bool, string))
    ensures shown.0 <==> Present(p.error)
    ensures shown.0 ==> shown.1 == p.error.value
    ensures !shown.0 && Present(p.result) ==> shown.1 == p.result.value
    ensures !shown.0 && !Present(p.result) ==> shown.1 == ""
  {
    if Present(p.error) then (true, p.error.value)
    else if Present(p.result) then (false, p.result.value)
    else (false, "")
  }

  /** A report reaches the dialog as sent: a success shows its text as
      success, a failure with a non-empty text shows it as an error. */
  lemma ReportShown(status: string, text: string, p: Page)
    requires status == "success" || text != ""
    ensures DialogStatus(OnMessage(MoveStatus(status, text), p)) == (status != "success", text)
  {
  }

  /** A failure whose text is empty shows as a success: the empty error is
      falsy. */
  lemma EmptyFailureShownAsSuccess(status: string, p: Page)
    requires status != "success"
    ensures DialogStatus(OnMessage(MoveStatus(status, ""), p)) == (false, "")
  {
  }

  /** `getOptionDescription`: the tooltip text of an option key, and a fixed
      fallback for any other key. */
  function OptionDescription(key: string): (d: string)
    ensures d != NoDescription <==> IsOptionKey(key)
    ensures d != ""
  {
    if key == "dev" then "Compile in 'dev' mode using dev-addresses and dev-dependencies"
    else if key == "test" then "Compile in 'test' mode including test directory code"
    else if key == "doc" then "Generate documentation for packages"
    else if key == "force" then "Force recompilation of all packages"
    else if key == "dryRun" then "Perform a dry run without executing the transaction"
    else if key == "devInspect" then "Perform a dev inspect"
    else if key == "skipDependencyVerification" then "Skip verifying dependency bytecode matches on-chain"
    else if key == "withUnpublishedDependencies" then "Publish unpublished transitive dependencies"
    else if key == "json" then "Output in JSON format"
    else if key == "lint" then "Enable extra linters"
    else if key == "noLint" then "Disable linters"
    else if key == "silenceWarnings" then "Ignore compiler warnings"
    else if key == "warningsAreErrors" then "Treat warnings as errors"
    else if key == "jsonErrors" then "Report errors as JSON"
    else NoDescription
  }

  // ---- The switch labels ----

  function CountUpper(k: string): nat {
    if k == [] then 0 else (if IsUpper(k[0]) then 1 else 0) + CountUpper(k[1..])
  }

  /** `key.replace(/([A-Z])/g, " $1")`: a space before every capital. */
  function Spaced(k: string): (s: string)
    ensures |s| == |k| + CountUpper(k)
  {
    if k == [] then []
    else (if IsUpper(k[0]) then [' ', k[0]] else [k[0]]) + Spaced(k[1..])
  }

  /** `word.charAt(0).toUpperCase() + word.slice(1).toLowerCase()`. */
  function CapWord(w: string): (r: string)
    ensures |r| == |w|
    ensures forall i :: 0 <= i < |w| ==> r[i] == if i == 0 then Upper(w[0]) else Lower(w[i])
  {
    if w == [] then [] else [Upper(w[0])] + LowerAll(w[1..])
  }

  function CapAll(ws: seq<string>): (r: seq<string>)
    ensures |r| == |ws|
    ensures forall k :: 0 <= k < |ws| ==> r[k] == CapWord(ws[k])
  {
    if ws == [] then [] else [CapWord(ws[0])] + CapAll(ws[1..])
  }

  /** The label shown next to a switch: split at the capitals, each word
      capitalised, joined with spaces. It equals the one-pass reading of the
      spaced key. */
  function FormatLabel(key: string): (r: string)
    ensures r == CapWords(Spaced(key), true)
  {
    CapWordsSplit(Spaced(key));
    JoinCapAll(Split(Spaced(key), ' '));
    Join(CapAll(Split(Spaced(key), ' ')), ' ')
  }

  /** One character of the label: spaces stay, a character at the start of
      a word is upper-cased, any other lower-cased. */
  function CapChar(c: char, atStart: bool): char {
    if c == ' ' then ' ' else if atStart then Upper(c) else Lower(c)
  }

  /** A one-pass reading of the same label: each character is mapped by
      `CapChar`, where a word starts at the beginning (when `start`) and
      after every space. */
  function CapWords(s: string, start: bool): (r: string)
    ensures |r| == |s|
    ensures forall i :: 0 <= i < |s| ==> r[i] == CapChar(s[i], if i == 0 then start else s[i - 1] == ' ')
  {
    if s == [] then []
    else
      var r := [CapChar(s[0], start)] + CapWords(s[1..], s[0] == ' ');
      assert forall i :: 1 <= i < |s| ==> s[1..][i - 1] == s[i];
      r
  }

  /** What the join adds after the first word. */
  function AfterFirst(parts: seq<string>): string
    requires |parts| >= 1
  {
    if |parts| == 1 then [] else [' '] + Join(CapAll(parts[1..]), ' ')
  }

  lemma JoinCapAll(parts: seq<string>)
    requires |parts| >= 1
    ensures Join(CapAll(parts), ' ') == CapWord(parts[0]) + AfterFirst(parts)
  {
    if |parts| > 1 {
      assert CapAll(parts)[1..] == CapAll(parts[1..]);
    }
  }

  /** The one-pass reading, word by word: it is the first word (capitalised
      or lower-cased) followed by the rest of the split-and-join. */
  lemma {:induction false} CapWordsSplit(s: string)
    ensures CapWords(s, true) == CapWord(Split(s, ' ')[0]) + AfterFirst(Split(s, ' '))
    ensures CapWords(s, false) == LowerAll(Split(s, ' ')[0]) + AfterFirst(Split(s, ' '))
  {
    if s != [] {
      CapWordsSplit(s[1..]);
      if s[0] == ' ' {
        SpaceStep(s);
      } else {
        LetterStep(s);
      }
    }
  }

  /** A leading space ends an empty first word. */
  lemma SpaceStep(s: string)
    requires s != [] && s[0] == ' '
    requires CapWords(s[1..], true) == CapWord(Split(s[1..], ' ')[0]) + AfterFirst(Split(s[1..], ' '))
    ensures CapWords(s, true) == CapWord(Split(s, ' ')[0]) + AfterFirst(Split(s, ' '))
    ensures CapWords(s, false) == LowerAll(Split(s, ' ')[0]) + AfterFirst(Split(s, ' '))
  {
    var rest := Split(s[1..], ' ');
    var parts := [""] + rest;
    assert Split(s, ' ') == parts;
    assert parts[1..] == rest;
    JoinCapAll(rest);
  }

  /** A leading letter joins the first word of the rest. */
  lemma LetterStep(s: string)
    requires s != [] && s[0] != ' '
    requires CapWords(s[1..], false) == LowerAll(Split(s[1..], ' ')[0]) + AfterFirst(Split(s[1..], ' '))
    ensures CapWords(s, true) == CapWord(Split(s, ' ')[0]) + AfterFirst(Split(s, ' '))
    ensures CapWords(s, false) == LowerAll(Split(s, ' ')[0]) + AfterFirst(Split(s, ' '))
  {
    var rest := Split(s[1..], ' ');
    var w := [s[0]] + rest[0];
    SplitLetter(s);
    assert CapWords(s, true) == [Upper(s[0])] + CapWords(s[1..], false);
    assert CapWords(s, false) == [Lower(s[0])] + CapWords(s[1..], false);
    WordCase(s[0], rest[0]);
    Glue(Upper(s[0]), LowerAll(rest[0]), AfterFirst(rest), CapWords(s[1..], false));
    Glue(Lower(s[0]), LowerAll(rest[0]), AfterFirst(rest), CapWords(s[1..], false));
  }

  lemma Glue(c: char, word: string, after: string, tail: string)
    requires tail == word + after
    ensures [c] + tail == ([c] + word) + after
  {
  }

  /** Splitting text that starts with a letter. */
  lemma SplitLetter(s: string)
    requires s != [] && s[0] != ' '
    ensures var rest := Split(s[1..], ' ');
      Split(s, ' ')[0] == [s[0]] + rest[0] && AfterFirst(Split(s, ' ')) == AfterFirst(rest)
  {
    var rest := Split(s[1..], ' ');
    var parts := [[s[0]] + rest[0]] + rest[1..];
    assert Split(s, ' ') == parts;
    assert parts[1..] == rest[1..];
  }

  /** Casing a word that starts with `c`. */
  lemma WordCase(c: char, w: string)
    ensures CapWord([c] + w) == [Upper(c)] + LowerAll(w)
    ensures LowerAll([c] + w) == [Lower(c)] + LowerAll(w)
  {
    assert ([c] + w)[1..] == w;
  }

  /** The label is the key with one space added per capital, the first
      letter and each letter that follows a space upper-cased, the others
      lower-cased. */
  lemma LabelShape(key: string)
    ensures |FormatLabel(key)| == |key| + CountUpper(key)
    ensures forall i :: 0 <= i < |FormatLabel(key)| ==>
      FormatLabel(key)[i] == CapChar(Spaced(key)[i], i == 0 || Spaced(key)[i - 1] == ' ')
  {
  }
}
