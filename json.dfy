/**
 * The values `json.loads` produces, as Python sees them, together with the
 * two Python operations the service applies to them: `dict.get` with a
 * default and truth testing.
 */
module Json {

  /**
   * A decoded JSON document: null, bool, int, float, str, list or dict. The
   * floats `json.loads` gives for `NaN`, `Infinity`, `-Infinity` and
   * out-of-range literals such as `1e400` are not reals and have their own
   * constructors.
   */
  datatype Json =
    | JNull
    | JBool(b: bool)
    | JInt(i: int)
    | JFloat(f: real)
    | JNaN
    | JInfinity(negative: bool)
    | JString(s: string)
    | JArray(items: seq<Json>)
    | JObject(fields: map<string, Json>)

  /** `d.get(key, default)` on a dict. */
  function Get(d: map<string, Json>, key: string, default: Json): (v: Json)
  {
    if key in d then d[key] else default
  }

  /**
   * Python truth testing: `None`, `False`, zero, the empty string, the empty
   * list and the empty dict are false; everything else, NaN and the
   * infinities included, is true.
   */
  predicate Truthy(v: Json)
  {
    match v
    case JNull => false
    case JBool(b) => b
    case JInt(i) => i != 0
    case JFloat(f) => f != 0.0
    case JNaN => true
    case JInfinity(_) => true
    case JString(s) => s != ""
    case JArray(items) => items != []
    case JObject(fields) => fields != map[]
  }

}
