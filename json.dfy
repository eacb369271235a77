/** JSON values as the Python code builds them: dict literals, lists, strings, ints, booleans and None. */
module Json {
  import opened Text

  datatype Json =
    | JNull
    | JBool(b: bool)
    | JInt(i: int)
    | JStr(s: string)
    | JArr(items: seq<Json>)
    | JObj(fields: map<string, Json>)

  /** A Python dict with string keys, as returned by the handlers. */
  type Object = map<string, Json>

  /**
   * Python's `str(v)` for a decoded JSON value, as used in f-strings. Exact
   * for None, booleans, integers and strings; lists and dicts are shown by
   * a fixed placeholder (see README, "Left out").
   */
  function Display(v: Json): string {
    match v
    case JNull => "None"
    case JBool(b) => if b then "True" else "False"
    case JInt(i) => IntToString(i)
    case JStr(s) => s
    case JArr(_) => "[...]"
    case JObj(_) => "{...}"
  }

  /** Python's `type(v).__name__` for a decoded JSON value. */
  function TypeName(v: Json): string {
    match v
    case JNull => "NoneType"
    case JBool(_) => "bool"
    case JInt(_) => "int"
    case JStr(_) => "str"
    case JArr(_) => "list"
    case JObj(_) => "dict"
  }

  /** Python's `d.get(key, default)` on a dict. */
  function Get(d: Object, key: string, default: Json): Json {
    if key in d then d[key] else default
  }
}
