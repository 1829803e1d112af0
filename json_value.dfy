/** JSON values as the Python code sees them after `json.loads`, with the
    three dictionary idioms it uses: `d.get(key, default)`, truthiness
    (`if x:`) and the membership test `key in x`. */
module JsonValue {
  import opened Wrappers
  import opened Strings

  datatype Json =
    | JNull
    | JBool(b: bool)
    | JInt(n: int)
    | JStr(s: string)
    | JArr(items: seq<Json>)
    | JObj(fields: map<string, Json>)

  /** `x.get(key, default)`: None when `x` is not a dict (Python raises
      AttributeError). */
  function Get(x: Json, key: string, default: Json): (r: Option<Json>)
    ensures r.Some? <==> x.JObj?
    ensures x.JObj? && key in x.fields ==> r == Some(x.fields[key])
    ensures x.JObj? && key !in x.fields ==> r == Some(default)
  {
    match x
    case JObj(f) => Some(if key in f then f[key] else default)
    case _ => None
  }

  /** Python truthiness: None, False, 0, "", [] and {} are false. */
  predicate Truthy(x: Json) {
    match x
    case JNull => false
    case JBool(b) => b
    case JInt(n) => n != 0
    case JStr(s) => s != ""
    case JArr(items) => items != []
    case JObj(f) => f != map[]
  }

  /** `key in x`: a key of a dict, a substring of a string, an element of a
      list; None for other values (Python raises TypeError). */
  function HasKey(x: Json, key: string): Option<bool> {
    match x
    case JObj(f) => Some(key in f)
    case JStr(s) => Some(Contains(s, key))
    case JArr(items) => Some(JStr(key) in items)
    case _ => None
  }

  const EmptyObj: Json := JObj(map[])

  /** A one-entry dict `{key: value}`. */
  function Single(key: string, value: Json): Json {
    JObj(map[key := value])
  }
}
