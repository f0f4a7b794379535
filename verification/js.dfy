/** The JavaScript values the webview handles as untyped data: parsed
    front-matter and the webview's saved state. */
module Js {
  import opened Wrappers

  /** A JSON-like JavaScript value. Numbers are modelled as integers. */
  datatype Value =
    | Null
    | Bool(b: bool)
    | Num(n: int)
    | Str(s: string)
    | Arr(items: seq<Value>)
    | Obj(fields: map<string, Value>)

  /** JavaScript truthiness: `null`, `false`, `0` and `""` are falsy. */
  predicate Truthy(v: Value) {
    match v
    case Null => false
    case Bool(b) => b
    case Num(n) => n != 0
    case Str(s) => s != ""
    case Arr(_) => true
    case Obj(_) => true
  }

  /** Truthiness of a possibly `undefined` value (None is `undefined`). */
  predicate Defined(v: Option<Value>) {
    v.Some? && Truthy(v.value)
  }

  /** Property access `v[key]` on a value that is not `null`: an object
      yields the field when present, anything else yields `undefined`. */
  function Prop(v: Value, key: string): (r: Option<Value>)
    ensures r.Some? <==> v.Obj? && key in v.fields
  {
    if v.Obj? && key in v.fields then Some(v.fields[key]) else None
  }
}
