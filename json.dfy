/**
 * JSON values as the server sees them after `express.json()` has parsed a request
 * body, with JavaScript's notion of truthiness. Numbers are opaque: nothing in the
 * model computes with them, they are only tested for truthiness and copied.
 */
module Json {
  datatype Value =
    | Undefined                        // a key the body does not have
    | Null
    | Bool(b: bool)
    | Num(x: real)
    | Str(s: string)
    | Arr(items: seq<Value>)
    | Obj(fields: map<string, Value>)

  /** `!!v` in JavaScript: false, 0, "", null and undefined are falsy, everything else is truthy. */
  predicate Truthy(v: Value)
    ensures Truthy(v) <==>
      !(v == Undefined || v == Null || v == Bool(false) || v == Num(0.0) || v == Str(""))
  {
    match v
    case Undefined => false
    case Null => false
    case Bool(b) => b
    case Num(x) => x != 0.0
    case Str(s) => s != ""
    case Arr(_) => true
    case Obj(_) => true
  }

  /** `obj[key]` on a parsed JSON object: undefined when the key is missing. */
  function Field(obj: map<string, Value>, key: string): (v: Value)
    ensures key in obj ==> v == obj[key]
    ensures key !in obj ==> v == Undefined
  {
    if key in obj then obj[key] else Undefined
  }
}
