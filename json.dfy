/** Decoded JSON values as the QuickBooks responses and request payloads carry them. Numbers
    are kept as exact amounts in cents (see README, "Left out"). */
module Json {
  import opened Wrappers

  datatype Json =
    | JNull
    | JBool(b: bool)
    | JNum(n: int)
    | JStr(s: string)
    | JArr(items: seq<Json>)
    | JObj(fields: map<string, Json>)

  /** Python's truth value of the decoded value: `None`, `False`, `0`, `""`, `[]` and `{}`
      are false. */
  predicate Truthy(j: Json) {
    match j
    case JNull => false
    case JBool(b) => b
    case JNum(n) => n != 0
    case JStr(s) => s != ""
    case JArr(items) => items != []
    case JObj(fields) => fields != map[]
  }

  /** `for x in j`, where each `x` is then read with `.get`: a list gives its items; an empty
      dict or string gives none; a non-empty dict gives its keys and a non-empty string its
      characters, all of them `str`, which has no `.get`; any other value is not iterable. */
  function ObjectsIn(j: Json): (r: Result<seq<Json>, string>)
    ensures j.JArr? ==> r == Ok(j.items)
    ensures j == JObj(map[]) || j == JStr("") ==> r == Ok([])
    ensures r.Err? <==> !j.JArr? && j != JObj(map[]) && j != JStr("")
  {
    match j
    case JArr(items) => Ok(items)
    case JObj(fields) => if fields == map[] then Ok([]) else Err("AttributeError: 'str' object has no attribute 'get'")
    case JStr(s) => if s == "" then Ok([]) else Err("AttributeError: 'str' object has no attribute 'get'")
    case _ => Err("TypeError: object is not iterable")
  }

  /** `d.get(key)`. */
  function Get(d: map<string, Json>, key: string): (r: Option<Json>)
    ensures r.Some? <==> key in d
    ensures r.Some? ==> r.value == d[key]
  {
    if key in d then Some(d[key]) else None
  }
}
