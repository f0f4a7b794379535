/** The editor dialog's front-matter inputs
    (webview/src/components/EditorDialog.tsx): a Markdown file may start
    with a `---` block whose YAML `input` list declares the values to ask
    for before a run. The YAML parser is a parameter: it gives the parsed
    value, or None when it throws. */
module EditorDialog {
  import opened Wrappers
  import opened Text
  import opened Seqs
  import opened Js

  const Opening := "---\n"
  const Closing := "\n---"

  /** `code.trim().startsWith("---")`: a text that opens with `---` is
      detected, and a blank one never is. */
  predicate HasFrontmatter(code: string): (b: bool)
    ensures StartsWith(code, "---") ==> b
    ensures b ==> !Blank(code)
  {
    DashesTrimmed(code);
    StartsWith(Trim(code), "---")
  }

  /** Trimming a text that opens with `---` keeps the `---`. */
  lemma DashesTrimmed(code: string)
    ensures StartsWith(code, "---") ==> StartsWith(Trim(code), "---")
  {
    if StartsWith(code, "---") {
      DashesKept(code);
    }
  }

  lemma DashesKept(code: string)
    requires StartsWith(code, "---")
    ensures StartsWith(Trim(code), "---")
  {
    assert code[0] == code[..3][0] == '-';
    TrimFromUnspaced(code);
    TrimEndKeeps(code, 2);
    PrefixOfPrefix(code, |TrimEnd(code)|, 3);
  }

  lemma TrimFromUnspaced(s: string)
    requires s != [] && !IsSpace(s[0])
    ensures Trim(s) == TrimEnd(s)
  {
    assert TrimStart(s) == s;
  }

  lemma PrefixOfPrefix(s: string, n: nat, m: nat)
    requires m <= n <= |s|
    ensures s[..n][..m] == s[..m]
  {
  }

  /** A closing line `\n---` starts at position `k`. */
  predicate CloseAt(code: string, k: nat) {
    k + 4 <= |code| && code[k..k + 4] == Closing
  }

  /** The first position at or after `from` where a closing line starts. */
  function FindClose(code: string, from: nat): (j: Option<nat>)
    requires from <= |code|
    ensures j.Some? ==> from <= j.value && CloseAt(code, j.value)
    ensures j.Some? ==> forall k :: from <= k < j.value ==> !CloseAt(code, k)
    ensures j.None? ==> forall k :: from <= k <= |code| ==> !CloseAt(code, k)
    decreases |code| - from
  {
    if from + 4 > |code| then None
    else if code[from..from + 4] == Closing then Some(from)
    else FindClose(code, from + 1)
  }

  /** `code.match(/^---\n([\s\S]*?)\n---/)[1]`: the text between an opening
      `---\n` at the very start and the first closing `\n---` after it. */
  function ExtractFrontmatter(code: string): (content: Option<string>)
    ensures content.Some? ==> StartsWith(code, Opening)
    ensures content.Some? ==> CloseAt(code, 4 + |content.value|) && code[4..4 + |content.value|] == content.value
    ensures content.Some? ==> forall k :: 4 <= k < 4 + |content.value| ==> !CloseAt(code, k)
    ensures StartsWith(code, Opening) && (exists k :: 4 <= k <= |code| && CloseAt(code, k)) ==> content.Some?
  {
    if !StartsWith(code, Opening) then None
    else
      match FindClose(code, 4)
      case None => None
      case Some(j) => Some(code[4..j])
  }

  /** The body holds no closing line. */
  predicate NoClosing(body: string) {
    forall k :: 0 <= k <= |body| ==> !CloseAt(body, k)
  }

  /** Writing a block and reading it back: any body without a closing line
      of its own is extracted word for word, whatever follows the block. */
  lemma ExtractRoundTrip(body: string, rest: string)
    requires NoClosing(body)
    ensures ExtractFrontmatter(Opening + body + Closing + rest) == Some(body)
  {
    var code := Opening + body + Closing + rest;
    var n := |body|;
    assert code[..4] == Opening;
    assert code[4..4 + n] == body;
    assert code[4 + n..4 + n + 4] == Closing;
    forall k | 4 <= k < 4 + n
      ensures !CloseAt(code, k)
    {
      NoCloseInBody(code, body, k);
    }
    FirstClose(code, 4, 4 + n);
  }

  /** A closing line cannot start inside the body: it would either lie
      within the body or run into the closing line's own line break. */
  lemma NoCloseInBody(code: string, body: string, k: nat)
    requires NoClosing(body) && 4 + |body| + 4 <= |code|
    requires code[4..4 + |body|] == body && code[4 + |body|] == '\n'
    requires 4 <= k < 4 + |body|
    ensures !CloseAt(code, k)
  {
    var n := |body|;
    if k + 4 <= 4 + n {
      var j: nat := k - 4;
      var here := code[k..k + 4];
      var there := body[j..j + 4];
      forall m | 0 <= m < 4
        ensures here[m] == there[m]
      {
        assert body[j + m] == code[4..4 + n][j + m];
      }
      assert here == there;
      assert !CloseAt(body, j);
    } else {
      assert code[k..k + 4][4 + n - k] == '\n';
      assert Closing[4 + n - k] == '-';
    }
  }

  /** The search stops at the first closing line. */
  lemma FirstClose(code: string, from: nat, j: nat)
    requires from <= j && CloseAt(code, j)
    requires forall k :: from <= k < j ==> !CloseAt(code, k)
    ensures FindClose(code, from) == Some(j)
  {
  }

  /** The check and the match disagree on leading whitespace: a file that
      starts with a blank before its `---` has front-matter by the check, but
      the match, anchored at the start, finds none. */
  lemma LeadingBlankNotExtracted(code: string)
    requires StartsWith(code, "---")
    ensures HasFrontmatter(" " + code)
    ensures ExtractFrontmatter(" " + code) == None
  {
    LeadingBlankTrimmed(code);
    assert (" " + code)[..4][0] == ' ';
  }

  /** Trimming a leading blank off a `---` line keeps the `---`. */
  lemma LeadingBlankTrimmed(code: string)
    requires StartsWith(code, "---")
    ensures StartsWith(Trim(" " + code), "---")
  {
    var s := " " + code;
    assert s[1..] == code;
    assert code[..3][0] == code[0] == '-';
    assert TrimStart(s) == code;
    assert Trim(s) == Trim(code);
    DashesTrimmed(code);
  }

  /** Trailing trimming never removes a non-blank character or anything
      before it. */
  lemma {:induction false} TrimEndKeeps(s: string, i: nat)
    requires i < |s| && !IsSpace(s[i])
    ensures |TrimEnd(s)| > i
    decreases |s|
  {
    if IsSpace(s[|s| - 1]) {
      var t := s[..|s| - 1];
      assert t[i] == s[i];
      TrimEndKeeps(t, i);
    }
  }

  /** A block opened with a Windows line ending is not extracted. */
  lemma CrlfNotExtracted(rest: string)
    ensures ExtractFrontmatter("---\r\n" + rest) == None
  {
    assert ("---\r\n" + rest)[3] == '\r';
  }

  /** One declared input, normalized. `kind` is the YAML `type`. */
  datatype InputField = InputField(kind: Value, name: Value, description: Value, required: Value, default: Option<Value>)

  /** An entry that survives the map: an object with a truthy `type` and a
      truthy `name`. */
  predicate Usable(v: Value) {
    v.Obj? && Defined(Prop(v, "type")) && Defined(Prop(v, "name"))
  }

  /** The map's object for a usable entry: `description || ""`,
      `required ?? true`, `default` copied. */
  function Normalize(v: Value): (f: InputField)
    requires Usable(v)
    ensures Truthy(f.kind) && Truthy(f.name)
    ensures Some(f.kind) == Prop(v, "type") && Some(f.name) == Prop(v, "name")
  {
    var desc := Prop(v, "description");
    var req := Prop(v, "required");
    InputField(
      Prop(v, "type").value,
      Prop(v, "name").value,
      if Defined(desc) then desc.value else Str(""),
      if req.Some? && !req.value.Null? then req.value else Bool(true),
      Prop(v, "default"))
  }

  /** A description is always present and defaults to "", and `required`
      defaults to true only when absent or null: an explicit false, or any
      other value, is kept. */
  lemma NormalizeDefaults(v: Value)
    requires Usable(v)
    ensures var f := Normalize(v);
      (Defined(Prop(v, "description")) ==> f.description == Prop(v, "description").value)
      && (!Defined(Prop(v, "description")) ==> f.description == Str(""))
      && (Prop(v, "required") == Some(Bool(false)) ==> f.required == Bool(false))
      && (Prop(v, "required").None? ==> f.required == Bool(true))
      && (Prop(v, "required") == Some(Null) ==> f.required == Bool(true))
      && (Prop(v, "required").Some? && !Prop(v, "required").value.Null? ==> f.required == Prop(v, "required").value)
      && f.default == Prop(v, "default")
  {
  }

  function Fields(vs: seq<Value>): (fs: seq<InputField>)
    requires forall i :: 0 <= i < |vs| ==> Usable(vs[i])
    ensures |fs| == |vs|
    ensures forall i :: 0 <= i < |vs| ==> fs[i] == Normalize(vs[i])
  {
    if vs == [] then [] else [Normalize(vs[0])] + Fields(vs[1..])
  }

  function UsableFilter(): Value -> bool {
    v => Usable(v)
  }

  /** The `map` and `filter(Boolean)` over the `input` list, in one pass. A
      `null` entry passes the `typeof` test and then throws on `.type`, and
      the exception discards the whole list. */
  function NormalizeAll(items: seq<Value>): (r: Option<seq<InputField>>)
    ensures r.None? <==> Null in items
    ensures r.Some? ==> |r.value| <= |items|
    ensures r.Some? ==> forall i :: 0 <= i < |r.value| ==> Truthy(r.value[i].kind) && Truthy(r.value[i].name)
  {
    if items == [] then Some([])
    else if items[0].Null? then None
    else
      match NormalizeAll(items[1..])
      case None => None
      case Some(rest) => Some(if Usable(items[0]) then [Normalize(items[0])] + rest else rest)
  }

  /** The one pass is the filter of the usable entries, each normalized, in
      their order. */
  lemma {:induction false} NormalizeAllIsFilterMap(items: seq<Value>)
    requires Null !in items
    ensures forall v :: v in Filter(UsableFilter(), items) ==> Usable(v)
    ensures NormalizeAll(items) == Some(Fields(Filter(UsableFilter(), items)))
  {
    if items != [] {
      NormalizeAllIsFilterMap(items[1..]);
      assert UsableFilter()(items[0]) == Usable(items[0]);
      var tail := Filter(UsableFilter(), items[1..]);
      if Usable(items[0]) {
        var all := [items[0]] + tail;
        assert Filter(UsableFilter(), items) == all;
        assert all[1..] == tail;
      }
    }
  }

  /** `frontmatterInputs`: the declared inputs, or None (`null`) when there
      is no front-matter, no block, the parser throws, `input` is missing or
      not an array, an entry throws, or no entry survives. */
  function FrontmatterInputs(code: string, parse: string -> Option<Value>): (r: Option<seq<InputField>>)
    ensures r.Some? ==> HasFrontmatter(code) && ExtractFrontmatter(code).Some?
    ensures r.Some? ==> |r.value| > 0
    ensures r.Some? ==>
      var parsed := parse(ExtractFrontmatter(code).value);
      parsed.Some? && Prop(parsed.value, "input").Some? && Prop(parsed.value, "input").value.Arr?
      && NormalizeAll(Prop(parsed.value, "input").value.items) == r
  {
    if !HasFrontmatter(code) then None
    else
      match ExtractFrontmatter(code)
      case None => None
      case Some(content) =>
        match parse(content)
        case None => None
        case Some(parsed) =>
          match Prop(parsed, "input")
          case Some(Arr(items)) =>
            (match NormalizeAll(items)
             case None => None
             case Some(fs) => if |fs| > 0 then Some(fs) else None)
          case _ => None
  }

  /** When the block is found and parsed, the inputs are exactly the usable
      entries, normalized and in order, unless there are none or one is
      `null`. */
  lemma InputsFromEntries(code: string, parse: string -> Option<Value>, items: seq<Value>)
    requires HasFrontmatter(code) && ExtractFrontmatter(code).Some?
    requires parse(ExtractFrontmatter(code).value).Some?
    requires Prop(parse(ExtractFrontmatter(code).value).value, "input") == Some(Arr(items))
    requires Null !in items
    ensures forall v :: v in Filter(UsableFilter(), items) ==> Usable(v)
    ensures var kept := Filter(UsableFilter(), items);
      FrontmatterInputs(code, parse) == if kept == [] then None else Some(Fields(kept))
  {
    NormalizeAllIsFilterMap(items);
  }

  /** A `null` entry anywhere discards every input. */
  lemma NullEntryDiscardsAll(code: string, parse: string -> Option<Value>, items: seq<Value>)
    requires HasFrontmatter(code) && ExtractFrontmatter(code).Some?
    requires parse(ExtractFrontmatter(code).value).Some?
    requires Prop(parse(ExtractFrontmatter(code).value).value, "input") == Some(Arr(items))
    requires Null in items
    ensures FrontmatterInputs(code, parse).None?
  {
  }

  /** What the Run button does. */
  datatype RunAction = AskForInputs | RunNow

  /** `handleRunClick`: ask for the inputs when there are any, otherwise
      run at once. */
  function HandleRunClick(inputs: Option<seq<InputField>>): (a: RunAction)
    ensures a == AskForInputs <==> inputs.Some?
  {
    if inputs.Some? then AskForInputs else RunNow
  }

  /** A file without front-matter always runs at once, whatever the
      parser would say. */
  lemma NoFrontmatterRunsNow(code: string, parse: string -> Option<Value>)
    requires !HasFrontmatter(code) || ExtractFrontmatter(code).None?
    ensures HandleRunClick(FrontmatterInputs(code, parse)) == RunNow
  {
  }
}
