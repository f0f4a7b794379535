/** The webview's network page (webview/src/pages/sui_client/network.tsx):
    re-reading the listing the extension sends, adding an environment, and
    the message handler. */
module NetworkPage {
  import opened Wrappers
  import opened Text
  import opened Seqs
  import opened Messages
  import opened Requests
  import opened Handlers
  import opened NetworkService

  const Bar: char := '│'
  const Tee: char := '├'
  const Corner: char := '╰'
  const BothRequired := "Please provide both alias and RPC URL"

  /** A line of the CLI's box-drawn table is an environment row when it
      starts with the vertical bar and holds no junction, no bottom corner
      and not the word "alias" (the header row's first column). */
  predicate KeepRow(line: string): (b: bool)
    ensures b ==> line != [] && line[0] == Bar
    ensures b ==> forall i :: 0 <= i < |line| ==> line[i] != Tee && line[i] != Corner
  {
    StartsWith(line, [Bar]) && Tee !in line && Corner !in line && !Contains(line, "alias")
  }

  /** The page keeps an entry by its `alias`, which holds the whole line
      when the line had no ASCII `|`. */
  function KeepEntry(): Env -> bool {
    (e: Env) => KeepRow(e.alias)
  }

  /** A kept line split on the vertical bar, fields trimmed: field 0 is the
      empty text before the leading bar, then alias, url and the mark. Only
      a row with a url can be active. */
  function ParseBoxRow(line: string): (e: Env)
    ensures Trimmed(e.alias) && (e.url.Some? ==> Trimmed(e.url.value))
    ensures e.active ==> e.url.Some?
  {
    BoxFieldsTrimmed(Split(line, Bar));
    EnvOfBoxFields(Split(line, Bar))
  }

  /** A line without the vertical bar reads as an empty entry. */
  lemma UnbarredLineEmpty(line: string)
    requires Bar !in line
    ensures ParseBoxRow(line) == Env("", None, false)
  {
    SplitWithout(line, Bar);
  }

  lemma BoxFieldsTrimmed(parts: seq<string>)
    requires |parts| >= 1
    ensures var e := EnvOfBoxFields(parts);
      Trimmed(e.alias) && (e.url.Some? ==> Trimmed(e.url.value)) && (e.active ==> e.url.Some?)
  {
  }

  function EnvOfBoxFields(parts: seq<string>): Env
    requires |parts| >= 1
  {
    Env(if |parts| >= 2 then Trim(parts[1]) else "",
        if |parts| >= 3 then Some(Trim(parts[2])) else None,
        |parts| >= 4 && Trim(parts[3]) == "*")
  }

  function ParseBoxRows(envs: seq<Env>): (r: seq<Env>)
    ensures |r| == |envs|
    ensures forall k :: 0 <= k < |envs| ==> r[k] == ParseBoxRow(envs[k].alias)
  {
    if envs == [] then [] else [ParseBoxRow(envs[0].alias)] + ParseBoxRows(envs[1..])
  }

  /** `processedEnvs`: the kept entries, re-read, in their order. */
  function ProcessEnvs(envs: seq<Env>): (r: seq<Env>)
    ensures |r| <= |envs|
    ensures |r| == |Kept(KeepEntry(), envs)|
    ensures forall k :: 0 <= k < |r| ==> r[k] == ParseBoxRow(envs[Kept(KeepEntry(), envs)[k]].alias)
    ensures Increasing(Kept(KeepEntry(), envs))
  {
    FilterKeepsAcceptedInOrder(KeepEntry(), envs);
    KeptFromFacts(KeepEntry(), envs, 0);
    ParseBoxRows(Filter(KeepEntry(), envs))
  }

  /** Every environment row of the input appears in the output, and
      nothing else does: a position is kept exactly when its line passes
      the row test. */
  lemma ProcessEnvsKeepsRows(envs: seq<Env>, i: nat)
    requires i < |envs|
    ensures KeepRow(envs[i].alias) <==> i in Kept(KeepEntry(), envs)
  {
    KeptFromFacts(KeepEntry(), envs, 0);
    assert KeepEntry()(envs[i]) == KeepRow(envs[i].alias);
  }

  /** The row the CLI's box-drawn table prints for an environment: each
      field padded by one space, between vertical bars. */
  function BoxRow(e: Env): string {
    Join(BoxFields(e), Bar)
  }

  function BoxFields(e: Env): seq<string> {
    ["", Pad(e.alias), Pad(e.url.GetOr("")), Pad(if e.active then "*" else ""), ""]
  }

  /** An environment a box row can state: a url, and alias and url hold no
      vertical bar and do not start or end with whitespace. */
  predicate BoxWritable(e: Env) {
    e.url.Some? && Trimmed(e.alias) && Bar !in e.alias && Trimmed(e.url.value) && Bar !in e.url.value
  }

  /** Re-reading a printed row gives the environment back. */
  lemma ParseBoxRowInverse(e: Env)
    requires BoxWritable(e)
    ensures ParseBoxRow(BoxRow(e)) == e
  {
    SplitBoxRow(e);
    BoxFieldsReadBack(e);
  }

  lemma SplitBoxRow(e: Env)
    requires BoxWritable(e)
    ensures Split(BoxRow(e), Bar) == BoxFields(e)
  {
    PadKeepsOut(e.alias, Bar);
    PadKeepsOut(e.url.value, Bar);
    PadKeepsOut(if e.active then "*" else "", Bar);
    SplitJoin(BoxFields(e), Bar);
  }

  lemma BoxFieldsReadBack(e: Env)
    requires BoxWritable(e)
    ensures EnvOfBoxFields(BoxFields(e)) == e
  {
    var mark := if e.active then "*" else "";
    TrimPadded(e.alias);
    TrimPadded(e.url.value);
    MarkReadsBack(e.active);
    BoxFieldsAre(Pad(e.alias), Pad(e.url.value), Pad(mark), e.alias, e.url.value, e.active);
  }

  lemma BoxFieldsAre(a: string, u: string, m: string, alias: string, url: string, active: bool)
    requires Trim(a) == alias && Trim(u) == url && (Trim(m) == "*" <==> active)
    ensures EnvOfBoxFields(["", a, u, m, ""]) == Env(alias, Some(url), active)
  {
    var parts := ["", a, u, m, ""];
    assert |parts| == 5 && parts[1] == a && parts[2] == u && parts[3] == m;
  }

  /** A printed row that names no "alias" passes the row test, so the page
      lists it. */
  lemma BoxRowKept(e: Env)
    requires BoxWritable(e) && !Contains(BoxRow(e), "alias")
    requires Tee !in e.alias && Tee !in e.url.value && Corner !in e.alias && Corner !in e.url.value
    ensures KeepRow(BoxRow(e))
  {
    SplitBoxRow(e);
    var r := BoxRow(e);
    assert r == [] + [Bar] + Join(BoxFields(e)[1..], Bar);
    assert r[..1] == [Bar];
    var mark := if e.active then "*" else "";
    PadKeepsOut(e.alias, Tee);
    PadKeepsOut(e.url.value, Tee);
    PadKeepsOut(mark, Tee);
    JoinKeepsOut(BoxFields(e), Bar, Tee);
    PadKeepsOut(e.alias, Corner);
    PadKeepsOut(e.url.value, Corner);
    PadKeepsOut(mark, Corner);
    JoinKeepsOut(BoxFields(e), Bar, Corner);
  }

  /** A printed row starts and ends with a vertical bar. */
  lemma BoxRowEnds(e: Env)
    ensures |BoxRow(e)| > 0 && BoxRow(e)[0] == Bar && BoxRow(e)[|BoxRow(e)| - 1] == Bar
  {
    var f := BoxFields(e);
    assert f[4..] == [""];
    var j4 := Join(f[4..], Bar);
    assert j4 == "";
    assert f[3..][1..] == f[4..];
    var j3 := Join(f[3..], Bar);
    assert j3 == f[3] + [Bar];
    assert f[2..][1..] == f[3..];
    var j2 := Join(f[2..], Bar);
    assert j2 == f[2] + [Bar] + j3;
    assert f[1..][1..] == f[2..];
    var j1 := Join(f[1..], Bar);
    assert j1 == f[1] + [Bar] + j2;
    assert BoxRow(e) == [Bar] + j1;
  }

  /** A printed row holds no `|` when its fields hold none. */
  lemma BoxRowHasNoPipe(e: Env)
    requires e.url.Some? && '|' !in e.alias && '|' !in e.url.value
    ensures '|' !in BoxRow(e)
  {
    PadKeepsOut(e.alias, '|');
    PadKeepsOut(e.url.value, '|');
    PadKeepsOut(if e.active then "*" else "", '|');
    JoinKeepsOut(BoxFields(e), Bar, '|');
  }

  /** From the CLI to the page: the extension reads a box-drawn row, which
      has no `|`, as an entry whose alias is the whole line, and the page
      re-reads that line into the environment that was printed. */
  lemma BoxRowThroughExtension(e: Env)
    requires BoxWritable(e) && '|' !in e.alias && '|' !in e.url.value
    ensures ParseBoxRow(ParseEnvRow(BoxRow(e)).alias) == e
  {
    var r := BoxRow(e);
    BoxRowHasNoPipe(e);
    BoxRowEnds(e);
    TrimUnchanged(r);
    ParseBoxRowInverse(e);
  }

  /** An environment whose own name holds "alias", e.g. "myalias", is
      dropped along with the header. */
  lemma AliasNamedRowDropped(pre: string, post: string)
    ensures !KeepRow(pre + "alias" + post)
  {
    var s := pre + "alias" + post;
    assert s[|pre|..][..5] == "alias";
    ContainsAt(s, "alias", |pre|);
  }

  /** The page's state. */
  datatype NetPage = NetPage(
    envs: seq<Env>,
    loading: bool,
    error: Option<string>,
    statusKind: Option<string>,
    statusText: Option<string>,
    dialogOpen: bool,
    newAlias: string,
    newUrl: string)

  /** `handleAddEnv`: both fields must be non-empty (they are not trimmed).
      The request is posted under the `CLIENT_NEW_ENV` key, which the
      webview's command table lacks, and the fields are cleared. */
  function HandleAddEnv(p: NetPage): (r: (NetPage, seq<Request>))
    ensures (p.newAlias == "" || p.newUrl == "") ==> r.1 == [] && r.0 == p.(error := Some(BothRequired))
    ensures (p.newAlias != "" && p.newUrl != "") ==>
      r.1 == [Request(None, Data(NewEnvData(p.newAlias, p.newUrl)))]
      && r.0 == p.(loading := true, newAlias := "", newUrl := "")
  {
    if p.newAlias == "" || p.newUrl == "" then (p.(error := Some(BothRequired)), [])
    else
      var req := Request(WebviewCommand("CLIENT_NEW_ENV"), Data(NewEnvData(p.newAlias, p.newUrl)));
      (p.(loading := true, newAlias := "", newUrl := ""), [req])
  }

  /** What the page posts to add an environment is routed nowhere by the
      extension's dispatcher. */
  lemma AddEnvRoutedNowhere(p: NetPage, version: string)
    requires p.newAlias != "" && p.newUrl != ""
    ensures var posted := HandleAddEnv(p).1;
      |posted| == 1 && ReceiveMessageHandler(posted[0], version) == Dispatch(0, [])
  {
  }

  /** The message handler. Every message clears `loading`. An "error"
      message shows its text and leaves the list alone. Any other message
      clears the error; a successful `moveStatus` with data replaces the
      list with the re-read one. A successful `moveStatus` without data
      makes the handler throw after clearing the error, so nothing else
      changes. */
  function OnMessage(msg: Message, p: NetPage): (r: NetPage)
    ensures !r.loading
    ensures msg.kind == "error" ==>
      r == p.(loading := false, error := msg.text, statusKind := Some("error"), statusText := msg.text, dialogOpen := true)
    ensures msg.kind != "error" ==> r.error.None?
    ensures r.envs != p.envs ==> msg.kind == "moveStatus" && msg.status == "success" && msg.data.Some?
    ensures msg.kind == "moveStatus" && msg.status == "success" && msg.data.Some? ==>
      r.envs == ProcessEnvs(msg.data.value.environments) && r.dialogOpen && r.statusKind == Some("success")
      && r.statusText == msg.text
    ensures msg.kind != "error" && !(msg.kind == "moveStatus" && msg.status == "success" && msg.data.Some?) ==>
      r == p.(loading := false, error := None)
    ensures r.newAlias == p.newAlias && r.newUrl == p.newUrl
  {
    if msg.kind == "error" then
      p.(loading := false, error := msg.text, statusKind := Some("error"), statusText := msg.text, dialogOpen := true)
    else if msg.kind == "moveStatus" && msg.status == "success" then
      match msg.data
      case None => p.(loading := false, error := None)
      case Some(listing) =>
        p.(loading := false, error := None, envs := ProcessEnvs(listing.environments),
           statusKind := Some("success"), statusText := msg.text, dialogOpen := true)
    else p.(loading := false, error := None)
  }

  /** Any other message, the resolver's warning or a failed command
      included, leaves the list and the dialog as they were. */
  lemma OtherMessagesKeepList(msg: Message, p: NetPage)
    requires msg.kind != "error" && !(msg.kind == "moveStatus" && msg.status == "success")
    ensures OnMessage(msg, p) == p.(loading := false, error := None)
  {
  }
}
