/** Already-parsed JSON documents and dynamically typed values (Go `interface{}`, Python objects). */
module Json {
  import opened Wrappers

  /** A JSON value. Whole numbers decoded by Python are `JInt`; numbers Go decodes into `interface{}`
      are float64 and therefore `JFloat`. */
  datatype Json =
    | JNull
    | JBool(b: bool)
    | JInt(i: int)
    | JFloat(f: real)
    | JStr(s: string)
    | JArr(items: seq<Json>)
    | JObj(fields: map<string, Json>)

  /** Python's truth value of a decoded JSON value. */
  predicate Truthy(j: Json)
  {
    match j
    case JNull => false
    case JBool(b) => b
    case JInt(i) => i != 0
    case JFloat(f) => f != 0.0
    case JStr(s) => s != ""
    case JArr(xs) => |xs| > 0
    case JObj(m) => |m| > 0
  }

  /** Python exceptions that reading a decoded document can raise. */
  datatype PyError =
    | KeyError(key: string)
    | TypeError
    | AttributeError

  /** Python's `j[key]` with a string key: a dict lookup; every other value raises TypeError. */
  function PyIndex(j: Json, key: string): (r: Result<Json, PyError>)
    ensures r.Ok? <==> j.JObj? && key in j.fields
    ensures r.Ok? ==> r.value == j.fields[key]
    ensures r == Err(KeyError(key)) <==> j.JObj? && key !in j.fields
  {
    match j
    case JObj(m) => if key in m then Ok(m[key]) else Err(KeyError(key))
    case _ => Err(TypeError)
  }

  /** Python's `key in j`: dict keys, list elements (equal to the string), substrings of a string. */
  function PyContains(j: Json, key: string): (r: Result<bool, PyError>)
    ensures j.JObj? ==> r == Ok(key in j.fields)
    ensures j.JArr? ==> r == Ok(JStr(key) in j.items)
    ensures (j.JNull? || j.JBool? || j.JInt? || j.JFloat?) ==> r == Err(TypeError)
  {
    match j
    case JObj(m) => Ok(key in m)
    case JArr(xs) => Ok(JStr(key) in xs)
    case JStr(s) => Ok(SubstringOf(key, s))
    case _ => Err(TypeError)
  }

  predicate SubstringOf(sub: string, s: string)
  {
    exists i, j :: 0 <= i <= j <= |s| && s[i..j] == sub
  }

  /** Nested dict lookup `j[k0][k1]…`, or None as soon as a step is not a dict holding the key
      (the KeyError and TypeError cases). */
  function Lookup(j: Json, path: seq<string>): (r: Option<Json>)
    ensures path == [] ==> r == Some(j)
    ensures path != [] && !(j.JObj? && path[0] in j.fields) ==> r.None?
    decreases |path|
  {
    if path == [] then Some(j)
    else match PyIndex(j, path[0])
      case Ok(child) => Lookup(child, path[1..])
      case Err(_) => None
  }

  /** The document `{k0: {k1: … v}}` that holds `v` at the end of `path`. */
  function Nest(path: seq<string>, v: Json): Json
    decreases |path|
  {
    if path == [] then v else JObj(map[path[0] := Nest(path[1..], v)])
  }

  /** Looking a path up in the document nested along it finds the value. */
  lemma {:induction false} LookupNest(path: seq<string>, v: Json)
    ensures Lookup(Nest(path, v), path) == Some(v)
    decreases |path|
  {
    if path != [] {
      LookupNest(path[1..], v);
    }
  }
}
