/** The JSON values that reach the services as request bodies and stored
    document fields, with the Python truthiness the handlers test. */
module Json {

  /** A JSON value. Floating-point numbers are not part of this model. */
  datatype Value =
    | Null
    | Bool(b: bool)
    | Int(i: int)
    | Str(s: string)
    | Arr(items: seq<Value>)
    | Obj(fields: map<string, Value>)

  /** A JSON object, as a request body or a document. */
  type Object = map<string, Value>

  /** `d.get(key, default)` on a dictionary. */
  function GetOr(o: Object, key: string, default: Value): Value
  {
    if key in o then o[key] else default
  }

  /** `d.get(key)`: a missing key reads as None. */
  function Get(o: Object, key: string): Value
  {
    GetOr(o, key, Null)
  }

  /** Python truthiness: None, False, 0, "", [] and {} are false. */
  predicate Truthy(v: Value)
  {
    match v
    case Null => false
    case Bool(b) => b
    case Int(i) => i != 0
    case Str(s) => s != ""
    case Arr(items) => items != []
    case Obj(fields) => fields != map[]
  }

  /** `key in o` where o is a dictionary with string keys: only a string
      can be one of its keys. */
  predicate KeyIn(key: Value, o: Object)
  {
    key.Str? && key.s in o
  }
}
