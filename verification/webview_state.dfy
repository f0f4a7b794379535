/** The webview's saved state (webview/src/hooks/useWebviewState.ts and
    webview/src/hooks/usePersistRoute.ts): values kept across reloads under
    string keys through the host's `getState`/`setState`. */
module WebviewState {
  import opened Wrappers
  import opened Js

  /** The host API as the webview sees it: absent outside VS Code, or
      present with the saved state (None when nothing was ever saved). */
  datatype Host = NoHost | Host(saved: Option<Value>)

  /** `getState() ?? {}` spread into a fresh object: the saved fields, and
      none when nothing (or `null`) was saved. */
  function StateFields(saved: Option<Value>): (m: map<string, Value>)
    ensures saved.Some? && saved.value.Obj? ==> m == saved.value.fields
    ensures saved.None? || saved.value.Null? ==> m == map[]
  {
    match saved
    case Some(Obj(fields)) => fields
    case _ => map[]
  }

  /** `getSavedState`: the saved value under `key` when it is neither
      `null` nor `undefined`, otherwise the initial value; always the
      initial value without a host. */
  function GetSavedState(host: Host, key: string, initial: Value): (v: Value)
    ensures host.NoHost? ==> v == initial
    ensures host.Host? && host.saved.Some? && Prop(host.saved.value, key).Some? && !Prop(host.saved.value, key).value.Null?
            ==> v == Prop(host.saved.value, key).value
    ensures host.Host? && host.saved.Some? && Prop(host.saved.value, key) == Some(Null) ==> v == initial
    ensures v != initial ==> host.Host? && host.saved.Some? && Prop(host.saved.value, key) == Some(v) && !v.Null?
  {
    if host.NoHost? then initial
    else
      match host.saved
      case None => initial
      case Some(state) =>
        match Prop(state, key)
        case Some(v) => if v.Null? then initial else v
        case None => initial
  }

  /** The write effect: `setState({ ...state, [key]: value })`, where a
      missing state counts as `{}`. Without a host nothing happens. */
  function WriteState(host: Host, key: string, value: Value): (h: Host)
    ensures host.NoHost? ==> h == NoHost
    ensures host.Host? ==> h.Host? && h.saved.Some? && h.saved.value.Obj?
    ensures host.Host? ==> key in h.saved.value.fields && h.saved.value.fields[key] == value
    ensures host.Host? ==> forall k :: k != key ==> Prop(h.saved.value, k) == Prop(Obj(StateFields(host.saved)), k)
  {
    if host.NoHost? then NoHost
    else Host(Some(Obj(StateFields(host.saved)[key := value])))
  }

  /** Reading back what was written gives the value written, unless it was
      `null`, which reads back as the initial value. */
  lemma ReadAfterWrite(host: Host, key: string, value: Value, initial: Value)
    requires host.Host?
    ensures GetSavedState(WriteState(host, key, value), key, initial) == if value.Null? then initial else value
  {
  }

  /** A write leaves the value read under every other key as it was. */
  lemma WriteKeepsOtherKeys(host: Host, key: string, other: string, value: Value, initial: Value)
    requires other != key
    ensures GetSavedState(WriteState(host, key, value), other, initial) == GetSavedState(host, other, initial)
  {
    if host.Host? {
      var h := WriteState(host, key, value);
      assert Prop(h.saved.value, other) == Prop(Obj(StateFields(host.saved)), other);
      match host.saved
      case None =>
      case Some(state) =>
        if state.Obj? {
          assert Prop(Obj(StateFields(host.saved)), other) == Prop(state, other);
        }
    }
  }

  /** Writing twice under one key is writing the second value. */
  lemma LastWriteWins(host: Host, key: string, first: Value, second: Value)
    ensures WriteState(WriteState(host, key, first), key, second) == WriteState(host, key, second)
  {
    if host.Host? {
      var m := StateFields(host.saved);
      assert m[key := first][key := second] == m[key := second];
    }
  }

  /** `usePersistRoute`: the current pathname written under "pathname",
      from which it reads back. */
  function PersistRoute(host: Host, pathname: string): (h: Host)
    ensures host.NoHost? ==> h == NoHost
    ensures host.Host? ==> GetSavedState(h, "pathname", Null) == Str(pathname)
  {
    if host.NoHost? then NoHost
    else
      ReadAfterWrite(host, "pathname", Str(pathname), Null);
      WriteState(host, "pathname", Str(pathname))
  }

  /** A page's saved value survives navigation: persisting the route
      leaves every other key's value, whatever its initial value. */
  lemma RouteKeepsPageState(host: Host, pathname: string, key: string, initial: Value)
    requires key != "pathname"
    ensures GetSavedState(PersistRoute(host, pathname), key, initial) == GetSavedState(host, key, initial)
  {
    WriteKeepsOtherKeys(host, "pathname", key, Str(pathname), initial);
  }
}
