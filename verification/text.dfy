/** String operations the extension and the webview perform on CLI output
    and form fields: `trim`, `startsWith`, `includes`, `split` and `join`,
    and ASCII case mapping. */
module Text {
  import opened Wrappers

  /** The whitespace `trim` removes. A fixed subset of the Unicode white
      space and line terminator characters JavaScript's `trim` uses. */
  predicate IsSpace(c: char) {
    c == ' ' || c == '\t' || c == '\n' || c == '\r' || c == '\U{000B}' || c == '\U{000C}'
    || c == '\U{00A0}' || c == '\U{FEFF}' || c == '\U{2028}' || c == '\U{2029}'
  }

  /** True when every character of `s` is whitespace (also for ""). */
  predicate Blank(s: string) {
    forall i :: 0 <= i < |s| ==> IsSpace(s[i])
  }

  /** Drops leading whitespace: the result is a suffix of `s` and what was
      dropped is blank. */
  function TrimStart(s: string): (r: string)
    ensures |r| <= |s| && r == s[|s| - |r|..]
    ensures Blank(s[..|s| - |r|])
    ensures r == [] || !IsSpace(r[0])
  {
    if |s| > 0 && IsSpace(s[0]) then
      var r := TrimStart(s[1..]);
      assert s[..|s| - |r|] == [s[0]] + s[1..][..|s| - 1 - |r|];
      r
    else s
  }

  /** Drops trailing whitespace: the result is a prefix of `s` and what was
      dropped is blank. */
  function TrimEnd(s: string): (r: string)
    ensures |r| <= |s| && r == s[..|r|]
    ensures Blank(s[|r|..])
    ensures r == [] || !IsSpace(r[|r| - 1])
  {
    if |s| > 0 && IsSpace(s[|s| - 1]) then
      var r := TrimEnd(s[..|s| - 1]);
      assert s[|r|..] == s[..|s| - 1][|r|..] + [s[|s| - 1]];
      r
    else s
  }

  /** JavaScript `String.prototype.trim`. The result is empty exactly when
      `s` is blank (so `s.trim()` is falsy iff `s` is blank), and otherwise
      neither starts nor ends with whitespace. */
  function Trim(s: string): (r: string)
    ensures r == [] <==> Blank(s)
    ensures r != [] ==> !IsSpace(r[0]) && !IsSpace(r[|r| - 1])
    ensures |r| <= |s|
  {
    var a := TrimStart(s);
    var r := TrimEnd(a);
    assert Blank(s) ==> a == [];
    assert a == [] ==> s[..|s|] == s;
    r
  }

  /** Trimming twice is trimming once. */
  lemma TrimIdempotent(s: string)
    ensures Trim(Trim(s)) == Trim(s)
  {
    var t := Trim(s);
    if t != [] {
      assert !IsSpace(t[0]) && !IsSpace(t[|t| - 1]);
      TrimUnchanged(t);
    }
  }

  /** A string that neither starts nor ends with whitespace is its own trim. */
  lemma TrimUnchanged(s: string)
    requires s != [] && !IsSpace(s[0]) && !IsSpace(s[|s| - 1])
    ensures Trim(s) == s
  {
    assert TrimStart(s) == s;
    assert TrimEnd(s) == s;
  }

  /** Neither starts nor ends with whitespace: what `Trim` returns. */
  predicate Trimmed(s: string) {
    s == [] || (!IsSpace(s[0]) && !IsSpace(s[|s| - 1]))
  }

  /** One space of padding on each side is trimmed away again. */
  lemma TrimPadded(x: string)
    requires Trimmed(x)
    ensures Trim(" " + x + " ") == x
  {
    var s := " " + x + " ";
    assert s[1..] == x + " ";
    if x == [] {
      assert Blank(s);
    } else {
      assert TrimStart(s) == x + " ";
      assert (x + " ")[..|x|] == x;
      assert TrimEnd(x + " ") == x;
    }
  }

  /** JavaScript truthiness of an optional string: present and non-empty. */
  predicate Present(o: Option<string>) {
    o.Some? && o.value != ""
  }

  /** `s.startsWith(p)`. */
  predicate StartsWith(s: string, p: string) {
    |p| <= |s| && s[..|p|] == p
  }

  /** `s.includes(p)`: `p` starts at some position of `s`. */
  predicate Contains(s: string, p: string)
    decreases |s|
  {
    StartsWith(s, p) || (|s| > 0 && Contains(s[1..], p))
  }

  /** The recursive `Contains` agrees with its positional reading. */
  lemma {:induction false} ContainsIffOccurs(s: string, p: string)
    ensures Contains(s, p) <==> exists i :: 0 <= i <= |s| && StartsWith(s[i..], p)
    decreases |s|
  {
    if StartsWith(s, p) {
      assert StartsWith(s[0..], p);
    } else if |s| > 0 {
      ContainsIffOccurs(s[1..], p);
      if Contains(s[1..], p) {
        var i :| 0 <= i <= |s[1..]| && StartsWith(s[1..][i..], p);
        assert s[1..][i..] == s[i + 1..];
      }
      if exists i :: 0 <= i <= |s| && StartsWith(s[i..], p) {
        var i :| 0 <= i <= |s| && StartsWith(s[i..], p);
        assert i != 0;
        assert s[1..][i - 1..] == s[i..];
      }
    } else {
      assert forall i :: 0 <= i <= |s| ==> s[i..] == s;
    }
  }

  /** An occurrence of `p` at a known position makes `s` contain `p`. */
  lemma ContainsAt(s: string, p: string, i: nat)
    requires i <= |s| && StartsWith(s[i..], p)
    ensures Contains(s, p)
  {
    ContainsIffOccurs(s, p);
  }

  /** `s.split(c)` for a one-character separator: the pieces between the
      separators, in order. There is always at least one piece, no piece
      holds the separator, and joining the pieces gives `s` back. */
  function Split(s: string, c: char): (parts: seq<string>)
    ensures |parts| >= 1
    ensures forall k :: 0 <= k < |parts| ==> c !in parts[k]
    ensures Join(parts, c) == s
  {
    if |s| == 0 then [""]
    else
      var rest := Split(s[1..], c);
      if s[0] == c then
        assert [s[0]] + s[1..] == s;
        [""] + rest
      else
        var parts := [[s[0]] + rest[0]] + rest[1..];
        JoinCons(s[0], rest, c);
        assert [s[0]] + s[1..] == s;
        parts
  }

  /** `parts.join(c)`. */
  function Join(parts: seq<string>, c: char): string
    requires |parts| >= 1
  {
    if |parts| == 1 then parts[0] else parts[0] + [c] + Join(parts[1..], c)
  }

  /** Joining adds only separators. */
  lemma {:induction false} JoinKeepsOut(parts: seq<string>, c: char, d: char)
    requires |parts| >= 1 && c != d
    requires forall k :: 0 <= k < |parts| ==> d !in parts[k]
    ensures d !in Join(parts, c)
  {
    if |parts| > 1 {
      JoinKeepsOut(parts[1..], c, d);
      assert d !in parts[1..][0];
    }
  }

  /** Putting a character in front of the first piece puts it in front of
      the joined string. */
  lemma JoinCons(x: char, parts: seq<string>, c: char)
    requires |parts| >= 1
    ensures Join([[x] + parts[0]] + parts[1..], c) == [x] + Join(parts, c)
  {
    var q := [[x] + parts[0]] + parts[1..];
    assert q[1..] == parts[1..];
  }

  /** The other half of the round trip: splitting a join of pieces that hold
      no separator gives the pieces back. */
  lemma {:induction false} SplitJoin(parts: seq<string>, c: char)
    requires |parts| >= 1
    requires forall k :: 0 <= k < |parts| ==> c !in parts[k]
    ensures Split(Join(parts, c), c) == parts
    decreases |parts|, |parts[0]|
  {
    var s := Join(parts, c);
    if |parts[0]| > 0 {
      var x := parts[0][0];
      var tail := [parts[0][1..]] + parts[1..];
      assert tail[1..] == parts[1..];
      assert c !in tail[0];
      assert forall k :: 1 <= k < |tail| ==> tail[k] == parts[k];
      SplitJoin(tail, c);
      JoinCons(x, tail, c);
      assert [x] + tail[0] == parts[0];
      assert [[x] + tail[0]] + tail[1..] == [parts[0]] + parts[1..] == parts;
      assert s[1..] == Join(tail, c);
    } else if |parts| > 1 {
      SplitJoin(parts[1..], c);
      assert s[1..] == Join(parts[1..], c);
      assert [""] + parts[1..] == parts;
    }
  }

  /** A text without the separator splits into itself alone. */
  lemma SplitWithout(s: string, c: char)
    ensures c !in s ==> Split(s, c) == [s]
  {
    if c !in s {
      SplitJoin([s], c);
    }
  }

  /** ASCII case mapping (the model's reading of `toUpperCase` and
      `toLowerCase`). */
  predicate IsUpper(c: char) { 'A' <= c <= 'Z' }

  predicate IsLower(c: char) { 'a' <= c <= 'z' }

  function Upper(c: char): char {
    if IsLower(c) then (c as int - 32) as char else c
  }

  function Lower(c: char): char {
    if IsUpper(c) then (c as int + 32) as char else c
  }

  /** Lower-cases every character. */
  function LowerAll(s: string): (r: string)
    ensures |r| == |s|
    ensures forall i :: 0 <= i < |s| ==> r[i] == Lower(s[i])
  {
    if s == [] then [] else [Lower(s[0])] + LowerAll(s[1..])
  }
}
