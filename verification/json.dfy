/**
 * The JSON values an untyped request body (a Python `dict`) can hold, and
 * Python's truth test on them, which the webhook uses to reject a request.
 */
module Json {
  import opened Wrappers

  datatype Value =
    | Null
    | Bool(b: bool)
    | Number(n: real)
    | Str(s: string)
    | Array(items: seq<Value>)
    | Object(fields: map<string, Value>)

  /** `bool(v)`: null, false, zero and empty strings, lists and objects are false. */
  predicate Truthy(v: Value) {
    match v
    case Null => false
    case Bool(b) => b
    case Number(n) => n != 0.0
    case Str(s) => s != ""
    case Array(items) => items != []
    case Object(fields) => fields != map[]
  }

  /** `d.get(key)`: the value under `key`, or None (Python's `None`) when absent. */
  function Lookup(d: map<string, Value>, key: string): (r: Option<Value>)
    ensures r.Some? <==> key in d
    ensures r.Some? ==> r.value == d[key]
  {
    if key in d then Some(d[key]) else None
  }

  /** `not d.get(key)` is false: the key is present with a truthy value. */
  predicate TruthyAt(d: map<string, Value>, key: string) {
    var v := Lookup(d, key);
    v.Some? && Truthy(v.value)
  }
}
