/** The webview's "new project" and "build" pages
    (webview/src/pages/sui_move/new.tsx, webview/src/pages/sui_move/build.tsx):
    turning the form into a request, and showing the extension's answer. */
module MovePages {
  import opened Wrappers
  import opened Text
  import opened Messages
  import opened Requests
  import opened MoveArgs

  const NameRequired := "Project name is required"

  /** The form fields, as typed. `template` is chosen on the page but never
      sent. */
  datatype Form = Form(
    name: string,
    packagePath: string,
    template: string,
    installDir: string,
    defaultMoveFlavor: string,
    defaultMoveEdition: string,
    switches: Switches)

  /** What the status dialog shows: success or error, and a text. */
  datatype Shown = Shown(ok: bool, text: string)

  /** The page state the handlers change: the busy flag, whether the status
      dialog is open, and what it shows. */
  datatype Page = Page(busy: bool, dialogOpen: bool, shown: Shown)

  /** A submit's effect: the new page state and the requests posted. */
  datatype Submitted = Submitted(page: Page, posted: seq<Request>)

  /** `field.trim() || undefined`: the trimmed text, or absent when the
      field is blank. */
  function BlankToNone(s: string): (o: Option<string>)
    ensures o.None? <==> Blank(s)
    ensures o.Some? ==> o.value == Trim(s) && o.value != [] && Trimmed(o.value)
  {
    var t := Trim(s);
    if t == [] then None else Some(t)
  }

  /** The request both pages build from the form, with the given name and
      the form's switches. Each text field is read the same way: a blank
      field is sent as absent, any other as its trimmed text. */
  function FormRequest(form: Form, name: Option<string>): (req: MoveInitRequest)
    ensures req.projectName == name && req.options.switches == form.switches
    ensures req.packagePath.None? <==> Blank(form.packagePath)
    ensures req.packagePath.Some? ==> req.packagePath.value == Trim(form.packagePath)
    ensures req.options.installDir.None? <==> Blank(form.installDir)
    ensures req.options.installDir.Some? ==> req.options.installDir.value == Trim(form.installDir)
    ensures req.options.defaultMoveFlavor.None? <==> Blank(form.defaultMoveFlavor)
    ensures req.options.defaultMoveFlavor.Some? ==> req.options.defaultMoveFlavor.value == Trim(form.defaultMoveFlavor)
    ensures req.options.defaultMoveEdition.None? <==> Blank(form.defaultMoveEdition)
    ensures req.options.defaultMoveEdition.Some? ==> req.options.defaultMoveEdition.value == Trim(form.defaultMoveEdition)
  {
    MoveInitRequest(
      name,
      BlankToNone(form.packagePath),
      MoveOptions(form.switches, BlankToNone(form.installDir),
                  BlankToNone(form.defaultMoveFlavor), BlankToNone(form.defaultMoveEdition)))
  }

  /** The "new" page's submit. A blank name shows the error and posts
      nothing; otherwise the page turns busy and posts `sui.move.new` with
      the trimmed name and the form's options. */
  function NewSubmit(form: Form, page: Page): (r: Submitted)
    ensures Blank(form.name) ==> r.posted == [] && r.page == page.(dialogOpen := true, shown := Shown(false, NameRequired))
    ensures !Blank(form.name) ==> r.page == page.(busy := true) && |r.posted| == 1
    ensures !Blank(form.name) ==>
      var req := r.posted[0];
      req.command == Some(MOVE_NEW) && req.body.Data? && req.body.payload.InitData?
      && req.body.payload.init.projectName == Some(Trim(form.name))
      && req.body.payload.init.options.switches == form.switches
      && req.body.payload.init == FormRequest(form, Some(Trim(form.name)))
  {
    if Trim(form.name) == [] then
      Submitted(page.(dialogOpen := true, shown := Shown(false, NameRequired)), [])
    else
      var req := FormRequest(form, Some(Trim(form.name)));
      Submitted(page.(busy := true), [Request(WebviewCommand("MOVE_NEW"), Data(InitData(req)))])
  }

  /** The "build" page's submit: no validation, always posts
      `sui.move.build`, and the request has no project name. */
  function BuildSubmit(form: Form, page: Page): (r: Submitted)
    ensures r.page == page.(busy := true) && |r.posted| == 1
    ensures var req := r.posted[0];
      req.command == Some(MOVE_BUILD) && req.body.Data? && req.body.payload.InitData?
      && req.body.payload.init.projectName.None?
      && req.body.payload.init.options.switches == form.switches
      && req.body.payload.init == FormRequest(form, None)
  {
    Submitted(page.(busy := true), [Request(WebviewCommand("MOVE_BUILD"), Data(InitData(FormRequest(form, None))))])
  }

  /** The template field never reaches either request. */
  lemma TemplateNeverSent(form: Form, page: Page, template: string)
    ensures NewSubmit(form.(template := template), page) == NewSubmit(form, page)
    ensures BuildSubmit(form.(template := template), page) == BuildSubmit(form, page)
  {
  }

  /** The build request is the new request without its name. */
  lemma BuildIsNewWithoutName(form: Form, page: Page)
    requires !Blank(form.name)
    ensures BuildSubmit(form, page).posted[0].body.payload.init
         == NewSubmit(form, page).posted[0].body.payload.init.(projectName := None)
  {
  }

  /** From the form to the process: the trimmed name is the third word of
      `sui move new`, and every valued flag is either absent or set to a
      non-empty value with no surrounding whitespace, so the extension
      never pushes a blank value. */
  lemma NameReachesArgv(form: Form, page: Page)
    requires !Blank(form.name)
    ensures var req := NewSubmit(form, page).posted[0].body.payload.init;
      NewArgv(req)[2] == Trim(form.name)
      && forall f :: Valued(f) ==> StringSetting(req, f).None? || (StringSetting(req, f).value != [] && Trimmed(StringSetting(req, f).value))
  {
    var req := NewSubmit(form, page).posted[0].body.payload.init;
    assert NewArgv(req)[..3][2] == Trim(form.name);
    SettingsTrimmed(form, Some(Trim(form.name)));
  }

  lemma SettingsTrimmed(form: Form, name: Option<string>)
    ensures var req := FormRequest(form, name);
      forall f :: Valued(f) ==> StringSetting(req, f).None? || (StringSetting(req, f).value != [] && Trimmed(StringSetting(req, f).value))
  {
    var req := FormRequest(form, name);
    forall f | Valued(f)
      ensures StringSetting(req, f).None? || (StringSetting(req, f).value != [] && Trimmed(StringSetting(req, f).value))
    {
      var field := match f
        case PackagePath => form.packagePath
        case InstallDir => form.installDir
        case DefaultMoveFlavor => form.defaultMoveFlavor
        case _ => form.defaultMoveEdition;
      assert StringSetting(req, f) == BlankToNone(field);
    }
  }

  /** The message handler of both pages: only `moveStatus` messages are
      handled; "success" shows as success and any other status, "warning"
      included, as an error; a missing text shows as "". The busy flag is
      cleared and the dialog opened. */
  function OnMoveMessage(msg: Message, page: Page): (r: Page)
    ensures msg.kind != "moveStatus" ==> r == page
    ensures msg.kind == "moveStatus" ==> !r.busy && r.dialogOpen
    ensures msg.kind == "moveStatus" ==> (r.shown.ok <==> msg.status == "success")
    ensures msg.kind == "moveStatus" && Present(msg.text) ==> r.shown.text == msg.text.value
    ensures msg.kind == "moveStatus" && !Present(msg.text) ==> r.shown.text == ""
  {
    if msg.kind == "moveStatus" then
      Page(false, true, Shown(msg.status == "success", msg.text.GetOr("")))
    else page
  }

  /** Every report the Move services post reaches the page as it was
      meant: the status, and the text word for word. */
  lemma ServiceReportShown(status: string, text: string, page: Page)
    ensures OnMoveMessage(MoveStatus(status, text), page) == Page(false, true, Shown(status == "success", text))
  {
  }

  /** The resolver's "multiple folders" warning shows as an error. */
  lemma WarningShownAsError(text: string, page: Page)
    ensures !OnMoveMessage(MoveStatus("warning", text), page).shown.ok
  {
  }
}
