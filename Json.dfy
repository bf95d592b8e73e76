/** Untyped Kubernetes objects (`unstructured.Unstructured`, `map[string]any`)
    and the ways the core reads them: Go's two-value type assertions, which
    yield a zero value when the value has another type, and the
    `unstructured.Nested*` helpers, which report a missing or mistyped field
    as absent. */
module Json {
  import opened Wrappers

  datatype Json =
    | JNull
    | JBool(b: bool)
    | JInt(i: int)
    | JString(s: string)
    | JArray(items: seq<Json>)
    | JObject(fields: map<string, Json>)

  /** `m[key]` on a value that is an object; absent otherwise. */
  function Field(j: Json, key: string): (r: Option<Json>)
    ensures r.Some? <==> j.JObject? && key in j.fields
  {
    if j.JObject? && key in j.fields then Some(j.fields[key]) else None
  }

  /** `v, _ := m[key].(string)`: the empty string unless the field is a string.
      Reading a nil map is allowed in Go, so a non-object also gives "". */
  function Str(j: Json, key: string): string
  {
    match Field(j, key)
    case Some(JString(s)) => s
    case _ => ""
  }

  /** `v, ok := m[key].(map[string]any)`. */
  function Obj(j: Json, key: string): (r: Option<map<string, Json>>)
    ensures r.Some? <==> Field(j, key).Some? && Field(j, key).value.JObject?
  {
    match Field(j, key)
    case Some(JObject(m)) => Some(m)
    case _ => None
  }

  /** `v, ok := m[key].([]any)`. */
  function Arr(j: Json, key: string): (r: Option<seq<Json>>)
    ensures r.Some? <==> Field(j, key).Some? && Field(j, key).value.JArray?
  {
    match Field(j, key)
    case Some(JArray(s)) => Some(s)
    case _ => None
  }

  /** `unstructured.NestedFieldNoCopy`: follows `path` through objects. */
  function Nested(j: Json, path: seq<string>): Option<Json>
    decreases |path|
  {
    if path == [] then Some(j)
    else
      match Field(j, path[0])
      case Some(child) => Nested(child, path[1..])
      case None => None
  }

  /** `unstructured.NestedSlice` with its error and found flag dropped: a
      missing or non-array field reads as the empty (nil) slice. */
  function NestedSlice(j: Json, path: seq<string>): seq<Json>
  {
    match Nested(j, path)
    case Some(JArray(items)) => items
    case _ => []
  }

  /** `unstructured.NestedString`: "" when missing or not a string. */
  function NestedString(j: Json, path: seq<string>): string
  {
    match Nested(j, path)
    case Some(JString(s)) => s
    case _ => ""
  }

  /** `unstructured.NestedMap`: absent (nil) when missing or not an object. */
  function NestedMap(j: Json, path: seq<string>): (r: Option<map<string, Json>>)
    ensures r.Some? <==> Nested(j, path).Some? && Nested(j, path).value.JObject?
  {
    match Nested(j, path)
    case Some(JObject(m)) => Some(m)
    case _ => None
  }

  /** `unstructured.NestedStringMap` with its error dropped: the map when
      the field is an object of strings, otherwise the empty (nil) map. */
  function NestedStringMap(j: Json, path: seq<string>): (r: map<string, string>)
    ensures NestedMap(j, path).Some? ==>
      ((forall k :: k in NestedMap(j, path).value ==> NestedMap(j, path).value[k].JString?) ==>
         r.Keys == NestedMap(j, path).value.Keys)
    ensures forall k :: k in r ==>
      NestedMap(j, path).Some? && k in NestedMap(j, path).value && NestedMap(j, path).value[k] == JString(r[k])
  {
    match NestedMap(j, path)
    case Some(m) =>
      if forall k :: k in m ==> m[k].JString? then map k | k in m :: m[k].s else map[]
    case None => map[]
  }

  /** Reading a Go map of strings: "" for a missing key. */
  function Lookup(m: map<string, string>, key: string): string {
    if key in m then m[key] else ""
  }

  const NamePath: seq<string> := ["metadata", "name"]
  const NamespacePath: seq<string> := ["metadata", "namespace"]

  /** `GetName()` of an unstructured object. */
  function GetName(j: Json): string {
    NestedString(j, NamePath)
  }

  /** `GetNamespace()` of an unstructured object. */
  function GetNamespace(j: Json): string {
    NestedString(j, NamespacePath)
  }
}
