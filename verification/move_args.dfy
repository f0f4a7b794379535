/** The argument vector of `sui move new` and `sui move build`
    (src/services/move/new.service.ts, src/services/move/build.service.ts).
    Both services push the same seventeen optional flags in the same fixed
    order; the model names each flag and keeps that order as a table. */
module MoveArgs {
  import opened Wrappers
  import opened Text
  import opened Seqs
  import opened Requests

  /** The optional flags, one per `if` of the services. */
  datatype Flag =
    | PackagePath | Dev | Test | Doc | Disassemble | InstallDir | Force | FetchDepsOnly
    | SkipFetchLatestGitDeps | DefaultMoveFlavor | DefaultMoveEdition | DependenciesAreRoot
    | SilenceWarnings | WarningsAreErrors | JsonErrors | NoLint | Lint

  /** The order in which the services test and push the flags. */
  const FlagOrder: seq<Flag> := [
    PackagePath, Dev, Test, Doc, Disassemble, InstallDir, Force, FetchDepsOnly,
    SkipFetchLatestGitDeps, DefaultMoveFlavor, DefaultMoveEdition, DependenciesAreRoot,
    SilenceWarnings, WarningsAreErrors, JsonErrors, NoLint, Lint]

  /** A flag's position in that order. */
  function Rank(f: Flag): nat {
    match f
    case PackagePath => 0
    case Dev => 1
    case Test => 2
    case Doc => 3
    case Disassemble => 4
    case InstallDir => 5
    case Force => 6
    case FetchDepsOnly => 7
    case SkipFetchLatestGitDeps => 8
    case DefaultMoveFlavor => 9
    case DefaultMoveEdition => 10
    case DependenciesAreRoot => 11
    case SilenceWarnings => 12
    case WarningsAreErrors => 13
    case JsonErrors => 14
    case NoLint => 15
    case Lint => 16
  }

  /** The table lists every flag once, each at its rank. */
  lemma FlagOrderFacts()
    ensures |FlagOrder| == 17
    ensures forall i :: 0 <= i < |FlagOrder| ==> Rank(FlagOrder[i]) == i
    ensures forall f: Flag :: Rank(f) < |FlagOrder| && FlagOrder[Rank(f)] == f
  {
  }

  /** The flag as the CLI spells it. */
  function Spelling(f: Flag): string {
    match f
    case PackagePath => "--package-path"
    case Dev => "--dev"
    case Test => "--test"
    case Doc => "--doc"
    case Disassemble => "--disassemble"
    case InstallDir => "--install-dir"
    case Force => "--force"
    case FetchDepsOnly => "--fetch-deps-only"
    case SkipFetchLatestGitDeps => "--skip-fetch-latest-git-deps"
    case DefaultMoveFlavor => "--default-move-flavor"
    case DefaultMoveEdition => "--default-move-edition"
    case DependenciesAreRoot => "--dependencies-are-root"
    case SilenceWarnings => "--silence-warnings"
    case WarningsAreErrors => "--warnings-are-errors"
    case JsonErrors => "--json-errors"
    case NoLint => "--no-lint"
    case Lint => "--lint"
  }

  /** Flags that carry a string value rather than being on or off. */
  predicate Valued(f: Flag) {
    f == PackagePath || f == InstallDir || f == DefaultMoveFlavor || f == DefaultMoveEdition
  }

  /** The request field a valued flag reads. */
  function StringSetting(req: MoveInitRequest, f: Flag): Option<string>
    requires Valued(f)
  {
    match f
    case PackagePath => req.packagePath
    case InstallDir => req.options.installDir
    case DefaultMoveFlavor => req.options.defaultMoveFlavor
    case DefaultMoveEdition => req.options.defaultMoveEdition
  }

  /** The request field an on/off flag reads. */
  function SwitchSetting(req: MoveInitRequest, f: Flag): bool
    requires !Valued(f)
  {
    var s := req.options.switches;
    match f
    case Dev => s.dev
    case Test => s.test
    case Doc => s.doc
    case Disassemble => s.disassemble
    case Force => s.force
    case FetchDepsOnly => s.fetchDepsOnly
    case SkipFetchLatestGitDeps => s.skipFetchLatestGitDeps
    case DependenciesAreRoot => s.dependenciesAreRoot
    case SilenceWarnings => s.silenceWarnings
    case WarningsAreErrors => s.warningsAreErrors
    case JsonErrors => s.jsonErrors
    case NoLint => s.noLint
    case Lint => s.lint
  }

  /** The text a valued flag pushes in front of its value. */
  function Opening(f: Flag): string {
    Spelling(f) + " \""
  }

  /** The one argv element a flag contributes, if any: an on switch pushes
      its spelling; a valued flag with a truthy value pushes
      `--flag "value"` as a single element, quotes included. */
  function Piece(req: MoveInitRequest, f: Flag): Option<string> {
    if Valued(f) then
      var v := StringSetting(req, f);
      if Present(v) then Some(Opening(f) + v.value + "\"") else None
    else if SwitchSetting(req, f) then Some(Spelling(f))
    else None
  }

  predicate Enabled(req: MoveInitRequest, f: Flag) {
    Piece(req, f).Some?
  }

  /** `Piece` as a function value, so that the facts about the push chain
      below can be proved once for any per-flag contribution. */
  function PieceOf(req: MoveInitRequest): Flag -> Option<string> {
    f => Piece(req, f)
  }

  function IsOn(piece: Flag -> Option<string>): Flag -> bool {
    f => piece(f).Some?
  }

  /** Ranks strictly increase along `fs`. */
  ghost predicate StrictlyRanked(fs: seq<Flag>) {
    forall i, j :: 0 <= i < j < |fs| ==> Rank(fs[i]) < Rank(fs[j])
  }

  /** In a strictly ranked list, position follows rank. */
  lemma PositionFollowsRank(fs: seq<Flag>, i: nat, j: nat)
    requires StrictlyRanked(fs) && i < |fs| && j < |fs| && Rank(fs[i]) < Rank(fs[j])
    ensures i < j
  {
  }

  /** The flags that contribute, in table order: exactly the contributing
      ones, each once, in increasing rank. */
  function Chosen(piece: Flag -> Option<string>): (fs: seq<Flag>)
    ensures forall f :: f in fs <==> piece(f).Some?
    ensures StrictlyRanked(fs)
  {
    var fs := Filter(IsOn(piece), FlagOrder);
    FilteredTable(piece);
    fs
  }

  lemma FilteredTable(piece: Flag -> Option<string>)
    ensures forall f :: f in Filter(IsOn(piece), FlagOrder) <==> piece(f).Some?
    ensures StrictlyRanked(Filter(IsOn(piece), FlagOrder))
  {
    var p := IsOn(piece);
    var fs := Filter(p, FlagOrder);
    FlagOrderFacts();
    FilterKeepsAcceptedInOrder(p, FlagOrder);
    KeptFromFacts(p, FlagOrder, 0);
    var ix := Kept(p, FlagOrder);
    assert forall k :: 0 <= k < |fs| ==> Rank(fs[k]) == ix[k];
    forall i, j | 0 <= i < j < |fs|
      ensures Rank(fs[i]) < Rank(fs[j])
    {
      assert Rank(fs[i]) == ix[i] && Rank(fs[j]) == ix[j];
    }
    forall f | piece(f).Some? ensures f in fs {
      assert p(FlagOrder[Rank(f)]);
      var k :| 0 <= k < |ix| && ix[k] == Rank(f);
      assert fs[k] == f;
    }
  }

  /** The source's chain of `if (...) cmdArgs.push(...)` over a run of the
      flag table. Its output lines up element by element with the
      contributing flags of that run. */
  function Emit(piece: Flag -> Option<string>, fs: seq<Flag>): (args: seq<string>)
    ensures |args| == |Filter(IsOn(piece), fs)|
    ensures forall k :: 0 <= k < |args| ==> piece(Filter(IsOn(piece), fs)[k]) == Some(args[k])
  {
    if fs == [] then []
    else
      match piece(fs[0])
      case Some(a) => [a] + Emit(piece, fs[1..])
      case None => Emit(piece, fs[1..])
  }

  /** The push chain over the whole table. */
  function EmitAll(piece: Flag -> Option<string>): (args: seq<string>)
    ensures |args| == |Chosen(piece)|
    ensures forall k :: 0 <= k < |args| ==> piece(Chosen(piece)[k]) == Some(args[k])
  {
    Emit(piece, FlagOrder)
  }

  /** The set of contributing flags is as large as the list of them. */
  lemma ChosenSize(piece: Flag -> Option<string>)
    ensures |set f | f in FlagOrder && piece(f).Some?| == |Chosen(piece)|
  {
    FlagOrderFacts();
    var fs := Chosen(piece);
    assert (set f | f in FlagOrder && piece(f).Some?) == set f | f in fs;
    DistinctCardinality(fs);
  }

  /** A strictly ranked list has no repeats, so its set of elements is as
      large as the list. */
  lemma {:induction false} DistinctCardinality(fs: seq<Flag>)
    requires StrictlyRanked(fs)
    ensures |set f | f in fs| == |fs|
  {
    if fs != [] {
      var rest := fs[1..];
      assert StrictlyRanked(rest) by {
        forall i, j | 0 <= i < j < |rest| ensures Rank(rest[i]) < Rank(rest[j]) {
          assert rest[i] == fs[i + 1] && rest[j] == fs[j + 1];
        }
      }
      DistinctCardinality(rest);
      assert fs[0] !in rest by {
        forall i | 0 <= i < |rest| ensures rest[i] != fs[0] {
          assert rest[i] == fs[i + 1];
        }
      }
      assert (set f | f in fs) == {fs[0]} + (set f | f in rest);
    }
  }

  /** Two contributing flags appear in table order. */
  lemma EmitAllOrder(piece: Flag -> Option<string>, f: Flag, g: Flag)
    requires piece(f).Some? && piece(g).Some? && Rank(f) < Rank(g)
    ensures exists i, j :: 0 <= i < j < |EmitAll(piece)|
              && EmitAll(piece)[i] == piece(f).value && EmitAll(piece)[j] == piece(g).value
  {
    var fs := Chosen(piece);
    var args := EmitAll(piece);
    var i :| 0 <= i < |fs| && fs[i] == f;
    var j :| 0 <= j < |fs| && fs[j] == g;
    PositionFollowsRank(fs, i, j);
    assert args[i] == piece(f).value && args[j] == piece(g).value;
  }

  /** No two flags contribute the same element. */
  ghost predicate Distinguishable(piece: Flag -> Option<string>) {
    forall f, g :: piece(f).Some? && piece(f) == piece(g) ==> f == g
  }

  /** When contributions are distinguishable, each contributing flag's
      element occurs exactly once. */
  lemma EmitAllOnce(piece: Flag -> Option<string>, f: Flag, k: nat, k': nat)
    requires Distinguishable(piece) && piece(f).Some?
    requires k < |EmitAll(piece)| && k' < |EmitAll(piece)|
    requires EmitAll(piece)[k] == piece(f).value && EmitAll(piece)[k'] == piece(f).value
    ensures k == k'
  {
    var fs := Chosen(piece);
    assert fs[k] == f && fs[k'] == f;
  }

  /** Every element comes from a contributing flag at the same position. */
  lemma EmitAllSource(piece: Flag -> Option<string>, k: nat)
    requires k < |EmitAll(piece)|
    ensures piece(Chosen(piece)[k]) == Some(EmitAll(piece)[k])
  {
  }

  /** The push chain depends on the contributions only. */
  lemma {:induction false} EmitAgrees(p: Flag -> Option<string>, q: Flag -> Option<string>, fs: seq<Flag>)
    requires forall f :: p(f) == q(f)
    ensures Emit(p, fs) == Emit(q, fs)
  {
    if fs != [] {
      EmitAgrees(p, q, fs[1..]);
    }
  }

  /** The set of enabled flags. */
  function EnabledSet(req: MoveInitRequest): set<Flag> {
    set f | f in FlagOrder && Enabled(req, f)
  }

  /** Everything the services push after the fixed leading words: one
      element per enabled flag, each the contribution of an enabled flag. */
  function FlagArgs(req: MoveInitRequest): (args: seq<string>)
    ensures |args| == |EnabledSet(req)|
    ensures forall k :: 0 <= k < |args| ==> exists f :: Enabled(req, f) && Piece(req, f) == Some(args[k])
  {
    var piece := PieceOf(req);
    var args := EmitAll(piece);
    ChosenSize(piece);
    assert EnabledSet(req) == set f | f in FlagOrder && piece(f).Some?;
    forall k | 0 <= k < |args| ensures exists f :: Enabled(req, f) && Piece(req, f) == Some(args[k]) {
      var f := Chosen(piece)[k];
      assert piece(f) == Piece(req, f);
    }
    args
  }

  /** Two requests whose flags contribute alike get the same flag
      arguments, whatever else differs between them. */
  lemma FlagArgsAgree(req: MoveInitRequest, other: MoveInitRequest)
    requires other.options == req.options && other.packagePath == req.packagePath
    ensures FlagArgs(other) == FlagArgs(req)
  {
    forall f ensures PieceOf(other)(f) == PieceOf(req)(f) {
    }
    EmitAgrees(PieceOf(other), PieceOf(req), FlagOrder);
  }

  /** `sui move new`: the fixed words, the project name (JavaScript's text
      for a missing name is "undefined"), then the flags. */
  function ProjectNameText(req: MoveInitRequest): string {
    req.projectName.GetOr("undefined")
  }

  function NewArgv(req: MoveInitRequest): (argv: seq<string>)
    ensures |argv| == 3 + |EnabledSet(req)|
    ensures argv[..3] == ["move", "new", ProjectNameText(req)]
    ensures argv[3..] == FlagArgs(req)
  {
    ["move", "new", ProjectNameText(req)] + FlagArgs(req)
  }

  /** `sui move build`: the fixed words and the flags, no project name. */
  function BuildArgv(req: MoveInitRequest): (argv: seq<string>)
    ensures |argv| == 2 + |EnabledSet(req)|
    ensures argv[..2] == ["move", "build"]
    ensures argv[2..] == FlagArgs(req)
  {
    ["move", "build"] + FlagArgs(req)
  }

  /** The order of the table is the order of the argv: when two flags are
      enabled, the one tested first is pushed first. */
  lemma FlagsInTableOrder(req: MoveInitRequest, f: Flag, g: Flag)
    requires Enabled(req, f) && Enabled(req, g) && Rank(f) < Rank(g)
    ensures exists i, j :: 0 <= i < j < |FlagArgs(req)|
              && FlagArgs(req)[i] == Piece(req, f).value && FlagArgs(req)[j] == Piece(req, g).value
  {
    var piece := PieceOf(req);
    var args := FlagArgs(req);
    assert args == EmitAll(piece);
    var pf, pg := Piece(req, f), Piece(req, g);
    assert piece(f) == pf && piece(g) == pg;
    EmitAllOrder(piece, f, g);
    var i, j :| 0 <= i < j < |args| && args[i] == pf.value && args[j] == pg.value;
  }

  /** With both lint switches on, both flags are pushed, `--no-lint` before
      `--lint`: nothing makes them exclusive. */
  lemma NoLintBeforeLint(req: MoveInitRequest)
    requires req.options.switches.noLint && req.options.switches.lint
    ensures exists i, j :: 0 <= i < j < |FlagArgs(req)| && FlagArgs(req)[i] == "--no-lint" && FlagArgs(req)[j] == "--lint"
  {
    FlagsInTableOrder(req, NoLint, Lint);
  }

  /** `a` cannot start with `o` when they differ at a position both have. */
  lemma NotPrefixAt(a: string, o: string, i: nat)
    requires i < |o| && (i >= |a| || a[i] != o[i])
    ensures !StartsWith(a, o)
  {
  }

  /** An argv element read back as the value of valued flag `f`: the flag's
      opening, the value, a closing quote. */
  function ValueOf(a: string, f: Flag): Option<string> {
    var o := Opening(f);
    if |a| > |o| && StartsWith(a, o) && a[|a| - 1] == '"' then Some(a[|o|..|a| - 1]) else None
  }

  /** `ValueOf` for one flag, as a function value. */
  function Reader(f: Flag): string -> Option<string> {
    a => ValueOf(a, f)
  }

  /** What the first element of `args` that `read` accepts reads as. */
  function DecodeFirst(args: seq<string>, read: string -> Option<string>): Option<string> {
    if args == [] then None
    else if read(args[0]).Some? then read(args[0])
    else DecodeFirst(args[1..], read)
  }

  /** The value carried by the first element of `args` that reads back as
      flag `f`. */
  function DecodeValue(args: seq<string>, f: Flag): Option<string> {
    DecodeFirst(args, Reader(f))
  }

  /** A valued flag's own element reads back as its value. */
  lemma ReadsOwnValue(f: Flag, v: string)
    ensures ValueOf(Opening(f) + v + "\"", f) == Some(v)
  {
    var a := Opening(f) + v + "\"";
    assert a[..|Opening(f)|] == Opening(f);
    assert a[|Opening(f)|..|a| - 1] == v;
  }

  /** Another valued flag's element reads back as nothing: no two openings
      are prefixes of the same element. */
  lemma ReadsOtherValue(f: Flag, g: Flag, v: string)
    requires Valued(f) && Valued(g) && f != g
    ensures ValueOf(Opening(g) + v + "\"", f) == None
  {
    var a := Opening(g) + v + "\"";
    var i := if (f == DefaultMoveFlavor && g == DefaultMoveEdition) || (f == DefaultMoveEdition && g == DefaultMoveFlavor) then 15 else 2;
    assert a[i] == Opening(g)[i];
    NotPrefixAt(a, Opening(f), i);
  }

  /** A switch spelling never ends in a quote, so it reads back as no
      value. */
  lemma ReadsNoSwitch(f: Flag, g: Flag)
    requires !Valued(g)
    ensures ValueOf(Spelling(g), f) == None
  {
    SpellingEndsInLetter(g);
  }

  lemma SpellingEndsInLetter(f: Flag)
    ensures |Spelling(f)| > 2 && Spelling(f)[|Spelling(f)| - 1] != '"'
  {
  }

  /** Distinct flags are spelled differently. */
  lemma SpellingInjective(f: Flag, g: Flag)
    requires Spelling(f) == Spelling(g)
    ensures f == g
  {
  }

  /** What each enabled flag's element reads back as, for valued flag `f`:
      its own element gives back its value, every other one nothing. */
  lemma PieceReadsBack(req: MoveInitRequest, f: Flag, g: Flag)
    requires Valued(f) && Enabled(req, g)
    ensures ValueOf(Piece(req, g).value, f) == if g == f then StringSetting(req, f) else None
  {
    if !Valued(g) {
      ReadsNoSwitch(f, g);
    } else if g == f {
      ReadsOwnValue(f, StringSetting(req, f).value);
    } else {
      ReadsOtherValue(f, g, StringSetting(req, g).value);
    }
  }

  /** The only element that equals a switch's spelling is that switch's. */
  lemma PieceSpellsSwitch(req: MoveInitRequest, g: Flag, f: Flag)
    requires !Valued(f) && Piece(req, g) == Some(Spelling(f))
    ensures g == f
  {
    SpellingEndsInLetter(f);
    if !Valued(g) {
      SpellingInjective(g, f);
    }
  }

  /** No element of one enabled flag is the element of another. */
  lemma PieceInjective(req: MoveInitRequest, f: Flag, g: Flag)
    requires Enabled(req, f) && Piece(req, f) == Piece(req, g)
    ensures f == g
  {
    if Valued(f) {
      PieceReadsBack(req, f, f);
      PieceReadsBack(req, f, g);
    } else {
      PieceSpellsSwitch(req, g, f);
    }
  }

  lemma PiecesDistinguishable(req: MoveInitRequest)
    ensures Distinguishable(PieceOf(req))
  {
    forall f, g | PieceOf(req)(f).Some? && PieceOf(req)(f) == PieceOf(req)(g) ensures f == g {
      PieceInjective(req, f, g);
    }
  }

  /** Each enabled flag's element occurs in the flag arguments exactly
      once. */
  lemma EachEnabledFlagOnce(req: MoveInitRequest, f: Flag)
    requires Enabled(req, f)
    ensures exists k :: 0 <= k < |FlagArgs(req)| && FlagArgs(req)[k] == Piece(req, f).value
    ensures forall k, k' :: (0 <= k < |FlagArgs(req)| && 0 <= k' < |FlagArgs(req)|
              && FlagArgs(req)[k] == Piece(req, f).value && FlagArgs(req)[k'] == Piece(req, f).value) ==> k == k'
  {
    EnabledFlagEmitted(req, f);
    var args := FlagArgs(req);
    forall k, k' | 0 <= k < |args| && 0 <= k' < |args| && args[k] == Piece(req, f).value && args[k'] == Piece(req, f).value
      ensures k == k'
    {
      EnabledFlagUnique(req, f, k, k');
    }
  }

  lemma EnabledFlagEmitted(req: MoveInitRequest, f: Flag)
    requires Enabled(req, f)
    ensures exists k :: 0 <= k < |FlagArgs(req)| && FlagArgs(req)[k] == Piece(req, f).value
  {
    var piece := PieceOf(req);
    assert piece(f) == Piece(req, f);
    var fs := Chosen(piece);
    assert f in fs;
    var i :| 0 <= i < |fs| && fs[i] == f;
    assert FlagArgs(req) == EmitAll(piece);
    assert FlagArgs(req)[i] == Piece(req, f).value;
  }

  lemma EnabledFlagUnique(req: MoveInitRequest, f: Flag, k: nat, k': nat)
    requires Enabled(req, f) && k < |FlagArgs(req)| && k' < |FlagArgs(req)|
    requires FlagArgs(req)[k] == Piece(req, f).value && FlagArgs(req)[k'] == Piece(req, f).value
    ensures k == k'
  {
    var piece := PieceOf(req);
    assert piece(f) == Piece(req, f);
    assert FlagArgs(req) == EmitAll(piece);
    PiecesDistinguishable(req);
    EmitAllOnce(piece, f, k, k');
  }

  lemma {:induction false} DecodeFirstAt(args: seq<string>, read: string -> Option<string>, k: nat)
    requires k < |args| && read(args[k]).Some?
    requires forall j :: 0 <= j < k ==> read(args[j]).None?
    ensures DecodeFirst(args, read) == read(args[k])
  {
    if k > 0 {
      assert read(args[0]).None?;
      DecodeFirstAt(args[1..], read, k - 1);
    }
  }

  lemma {:induction false} DecodeFirstNone(args: seq<string>, read: string -> Option<string>)
    requires forall j :: 0 <= j < |args| ==> read(args[j]).None?
    ensures DecodeFirst(args, read) == None
  {
    if args != [] {
      DecodeFirstNone(args[1..], read);
    }
  }

  /** Read through `read`, each emitted element is `v` at the position of
      `f` and nothing elsewhere, given that reading of the contributions. */
  lemma EmittedReadsAs(piece: Flag -> Option<string>, read: string -> Option<string>, f: Flag, v: Option<string>)
    requires forall g :: piece(g).Some? ==> read(piece(g).value) == if g == f then v else None
    ensures forall j :: 0 <= j < |EmitAll(piece)| ==> read(EmitAll(piece)[j]) == if Chosen(piece)[j] == f then v else None
  {
    forall j | 0 <= j < |EmitAll(piece)| ensures read(EmitAll(piece)[j]) == if Chosen(piece)[j] == f then v else None {
      EmitAllSource(piece, j);
    }
  }

  /** Decoding a list whose elements line up with a strictly ranked list of
      flags, where only the position of `f` reads as anything. */
  lemma DecodeAligned(fs: seq<Flag>, args: seq<string>, read: string -> Option<string>, f: Flag, v: Option<string>)
    requires |args| == |fs| && StrictlyRanked(fs) && v.Some?
    requires forall j :: 0 <= j < |args| ==> read(args[j]) == if fs[j] == f then v else None
    ensures DecodeFirst(args, read) == if f in fs then v else None
  {
    if f in fs {
      var k :| 0 <= k < |fs| && fs[k] == f;
      forall j | 0 <= j < k ensures read(args[j]).None? {
        PositionFollowsRank(fs, j, k);
      }
      DecodeFirstAt(args, read, k);
    } else {
      DecodeFirstNone(args, read);
    }
  }

  /** When the contribution of `f` reads back as `v` and every other
      contribution as nothing, the emitted arguments decode to `v` exactly
      when `f` contributes. */
  lemma DecodeEmitted(piece: Flag -> Option<string>, read: string -> Option<string>, f: Flag, v: Option<string>)
    requires forall g :: piece(g).Some? ==> read(piece(g).value) == if g == f then v else None
    requires v.Some?
    ensures DecodeFirst(EmitAll(piece), read) == if piece(f).Some? then v else None
  {
    EmittedReadsAs(piece, read, f, v);
    DecodeAligned(Chosen(piece), EmitAll(piece), read, f, v);
  }

  /** An element is emitted exactly when some flag contributes it. */
  lemma EmitAllContains(piece: Flag -> Option<string>, x: string)
    ensures x in EmitAll(piece) <==> exists f :: piece(f) == Some(x)
  {
    var fs := Chosen(piece);
    var args := EmitAll(piece);
    if x in args {
      var k :| 0 <= k < |args| && args[k] == x;
      assert piece(fs[k]) == Some(x);
    }
    if exists f :: piece(f) == Some(x) {
      var f :| piece(f) == Some(x);
      var k :| 0 <= k < |fs| && fs[k] == f;
      assert args[k] == x;
    }
  }

  /** Each switch can be read back from the flag arguments: its spelling
      occurs exactly when it is on. */
  lemma DecodeSwitch(req: MoveInitRequest, f: Flag)
    requires !Valued(f)
    ensures Spelling(f) in FlagArgs(req) <==> SwitchSetting(req, f)
  {
    var piece := PieceOf(req);
    assert FlagArgs(req) == EmitAll(piece);
    EmitAllContains(piece, Spelling(f));
    if exists g :: piece(g) == Some(Spelling(f)) {
      var g :| piece(g) == Some(Spelling(f));
      assert Piece(req, g) == Some(Spelling(f));
      PieceSpellsSwitch(req, g, f);
    }
    if SwitchSetting(req, f) {
      assert piece(f) == Some(Spelling(f));
    }
  }

  /** Each valued option can be read back from the flag arguments; one that
      is absent or empty reads back as absent. */
  lemma DecodeValued(req: MoveInitRequest, f: Flag)
    requires Valued(f)
    ensures DecodeValue(FlagArgs(req), f) == if Present(StringSetting(req, f)) then StringSetting(req, f) else None
  {
    var piece := PieceOf(req);
    var v := StringSetting(req, f);
    assert FlagArgs(req) == EmitAll(piece);
    if Present(v) {
      forall g | piece(g).Some? ensures Reader(f)(piece(g).value) == if g == f then v else None {
        assert piece(g) == Piece(req, g);
        PieceReadsBack(req, f, g);
      }
      assert piece(f).Some?;
      DecodeEmitted(piece, Reader(f), f, v);
    } else {
      assert piece(f).None?;
      forall g | piece(g).Some? ensures Reader(f)(piece(g).value) == None {
        assert piece(g) == Piece(req, g);
        PieceReadsBack(req, f, g);
      }
      DecodeEmitted(piece, Reader(f), f, Some(""));
    }
  }
}
