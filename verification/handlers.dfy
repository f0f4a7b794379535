/** The extension's message dispatcher and its one handler
    (src/handlers/message.handler.ts, src/handlers/command.handler.ts). The
    version probe's text is an input. */
module Handlers {
  import opened Wrappers
  import opened Text
  import opened Messages
  import opened Requests

  const SuiNotFound := "SUI not found"

  /** What `sui --version` gave: its standard output and error, or a failure
      to run at all. */
  datatype Probe = Ran(stdout: string, stderr: string) | ProbeFailed

  /** `SuiVersion` (src/services/sui.service.ts): both streams joined, or
      the literal "not found" when the command fails. */
  function VersionText(p: Probe): (t: string)
    ensures p.ProbeFailed? ==> t == "not found"
    ensures p.Ran? ==> |t| == |p.stdout| + |p.stderr| && StartsWith(t, p.stdout) && t[|p.stdout|..] == p.stderr
  {
    match p
    case Ran(out, err) =>
      var t := out + err;
      assert t[..|out|] == out;
      t
    case ProbeFailed => "not found"
  }

  /** `HandleSuiVersion`: an error first when the text mentions "not found",
      then, with no early return, the text itself as a success. */
  function HandleSuiVersion(version: string): (posted: seq<Message>)
    ensures |posted| == if Contains(version, "not found") then 2 else 1
    ensures posted[|posted| - 1] == CliStatus("success", version)
    ensures |posted| == 2 ==> posted[0] == CliStatus("error", SuiNotFound)
  {
    var report := [CliStatus("success", version)];
    if Contains(version, "not found") then [CliStatus("error", SuiNotFound)] + report else report
  }

  /** A failed probe is reported twice: the error, then its own text as a
      success. */
  lemma FailedProbeReportedTwice()
    ensures HandleSuiVersion(VersionText(ProbeFailed))
      == [CliStatus("error", SuiNotFound), CliStatus("success", "not found")]
  {
    assert StartsWith("not found", "not found");
  }

  /** A version text that mentions "not found" anywhere is flagged, even one
      from a CLI that ran. */
  lemma MentionFlagged(pre: string, post: string)
    ensures |HandleSuiVersion(pre + "not found" + post)| == 2
  {
    var v := pre + "not found" + post;
    assert v[|pre|..][..9] == "not found";
    ContainsAt(v, "not found", |pre|);
  }

  /** What one incoming message triggers: how many times the version
      handler runs and what it posts. */
  datatype Dispatch = Dispatch(versionRuns: nat, posted: seq<Message>)

  /** `ReceiveMessageHandler`: a switch with the single case "sui.version". */
  function ReceiveMessageHandler(req: Request, version: string): (d: Dispatch)
    ensures d.versionRuns <= 1
    ensures d.versionRuns == 1 <==> req.command == Some(VERSION)
    ensures d.versionRuns == 1 ==> d.posted == HandleSuiVersion(version)
    ensures d.versionRuns == 0 ==> d.posted == []
  {
    if req.command == Some(VERSION) then Dispatch(1, HandleSuiVersion(version)) else Dispatch(0, [])
  }

  /** Routing reads the command only: the body is never looked at. */
  lemma DispatchIgnoresBody(req: Request, body: Body, version: string)
    ensures ReceiveMessageHandler(req.(body := body), version) == ReceiveMessageHandler(req, version)
  {
  }

  /** The other command names the extension defines, the Move ones among
      them, route nowhere. */
  lemma OtherCommandsIgnored(c: string, body: Body, version: string)
    requires c in ExtensionCommands && c != VERSION
    ensures ReceiveMessageHandler(Request(Some(c), body), version) == Dispatch(0, [])
  {
  }
}
