/**
 * Decoded JSON values, as Python's `json` module hands them to the handler,
 * with Python's truthiness and `dict.get`.
 */
module Json {

  /** A decoded JSON value. Numbers are kept as reals: Python's `int` and
      `float` agree on the only thing the handler asks of them, being zero. */
  datatype Value =
    | Null
    | Bool(b: bool)
    | Number(x: real)
    | Str(s: string)
    | Array(items: seq<Value>)
    | Object(members: map<string, Value>)

  type Members = map<string, Value>

  /** Python's `bool(v)`: `None`, `False`, zero and empty containers are falsy. */
  predicate Truthy(v: Value) {
    match v
    case Null => false
    case Bool(b) => b
    case Number(x) => x != 0.0
    case Str(s) => s != ""
    case Array(items) => items != []
    case Object(members) => members != map[]
  }

  /** Python's `d.get(key)`: the member, or `None` when it is absent. */
  function Get(m: Members, key: string): (v: Value)
  {
    if key in m then m[key] else Null
  }
}
