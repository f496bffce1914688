/** JSON values as Python's `json` module produces and consumes them. The
    serialiser and the parser are left opaque: they are supplied as functions
    in a `Codec`, and only their shapes matter here. */
module Json {

  /** A decoded JSON document. Objects keep their members in insertion order,
      as Python dictionaries do. Numbers are modelled as integers. */
  datatype Value =
    | JNull
    | JBool(b: bool)
    | JNum(n: int)
    | JStr(s: string)
    | JArr(items: seq<Value>)
    | JObj(members: seq<(string, Value)>)

  /** Python truthiness of the decoded value: `None`, `False`, `0`, `""`,
      `[]` and `{}` are falsy, everything else is truthy. */
  predicate Truthy(v: Value) {
    match v
    case JNull => false
    case JBool(b) => b
    case JNum(n) => n != 0
    case JStr(s) => s != []
    case JArr(items) => items != []
    case JObj(members) => members != []
  }

  /** What `json.loads` yields: a value, or a decoding error with its text. */
  datatype Decoded = Parsed(value: Value) | Malformed(text: string)

  /** The opaque serialisation steps: `json.dumps(v)`, `json.dumps(v, indent=2)`
      and `json.loads(s)`. */
  datatype Codec = Codec(
    dumps: Value -> string,
    dumpsIndented: Value -> string,
    loads: string -> Decoded)
}
