/** JSON values as produced by `json.load` / `Response.json()` and the two ways Python reads them. */
module Json {
  import opened Wrappers

  datatype Json =
    | JNull
    | JBool(b: bool)
    | JNumber(n: real)
    | JString(s: string)
    | JArray(items: seq<Json>)
    | JObject(members: map<string, Json>)

  /** What `value[key]` raises when it does not return. */
  datatype LookupError = KeyError(key: string) | TypeError

  /** `value[key]` for a string key: only a dict can be subscripted by a string. */
  function Subscript(value: Json, key: string): (r: Result<Json, LookupError>)
    ensures r.Success? <==> value.JObject? && key in value.members
    ensures r.Success? ==> r.value == value.members[key]
    ensures r.Failure? && value.JObject? ==> r.error == KeyError(key)
    ensures !value.JObject? ==> r == Failure(TypeError)
  {
    match value
    case JObject(m) => if key in m then Success(m[key]) else Failure(KeyError(key))
    case _ => Failure(TypeError)
  }

  /** `d.get(key, None)`: a missing key reads as `None`, which is JSON null. */
  function GetOrNull(d: map<string, Json>, key: string): Json
  {
    if key in d then d[key] else JNull
  }

  /** `len(value)`: defined for strings, lists and dicts, a TypeError otherwise. */
  function Len(value: Json): (r: Result<nat, LookupError>)
    ensures r.Success? <==> value.JString? || value.JArray? || value.JObject?
    ensures value.JString? ==> r == Success(|value.s|)
  {
    match value
    case JString(s) => Success(|s|)
    case JArray(items) => Success(|items|)
    case JObject(m) => Success(|m|)
    case _ => Failure(TypeError)
  }
}
