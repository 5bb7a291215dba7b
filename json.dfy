/**
 * The values `json.loads` produces, Python's truthiness on them, and the
 * JSON codec the clients use. The JSON grammar itself is not modelled: the
 * codec's three operations are parameters.
 */
module JsonValue {
  import opened Wrappers

  /** A decoded JSON value (numbers are integers here). */
  datatype Json =
    | JNull
    | JBool(b: bool)
    | JNum(n: int)
    | JStr(s: string)
    | JArr(items: seq<Json>)
    | JObj(fields: map<string, Json>)

  /** Python's `bool(v)` on the decoded value. */
  predicate Truthy(v: Json) {
    match v
    case JNull => false
    case JBool(b) => b
    case JNum(n) => n != 0
    case JStr(s) => s != []
    case JArr(items) => items != []
    case JObj(fields) => |fields| != 0
  }

  /** `d.get(k)` on a decoded dict. */
  function DictGet(fields: map<string, Json>, key: string): (r: Option<Json>)
    ensures r.Some? <==> key in fields
    ensures r.Some? ==> r.value == fields[key]
  {
    if key in fields then Some(fields[key]) else None
  }

  /**
   * `json.loads` (`None` when it raises), the two `json.dumps` layouts the
   * clients use, and Python's `str` of a decoded value that is not a string,
   * all left uninterpreted: `dumps` is `json.dumps(v, ensure_ascii=False,
   * indent=2)` (the request shown to the model) and `dumpsCompact` is
   * `json.dumps(v, ensure_ascii=False)` (one line, no indentation).
   */
  datatype JsonCodec = JsonCodec(
    loads: string -> Option<Json>,
    dumps: Json -> string,
    dumpsCompact: Json -> string,
    repr: Json -> string)

  /** Python's `str(v)`: a decoded string is its own text. */
  function PyStr(codec: JsonCodec, v: Json): (r: string)
    ensures v.JStr? ==> r == v.s
  {
    if v.JStr? then v.s else codec.repr(v)
  }
}
