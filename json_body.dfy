/** Decoding a JSON request body into a record of string fields, as `GetJsonFromRequestBody`
    (corporal/httphelp/request_utils.go) does with `json.Unmarshal` into a Go struct. A body that
    cannot be read decodes like an empty one, because that function drops the read error. */
module JsonBody {
  import opened Wrappers
  import opened Json
  import opened Hex
  import opened Http

  const NotJsonError := "Cannot understand request body payload (not JSON)"

  /** A field the struct can take: absent, `null` (both leave the zero value) or a string. */
  predicate FitsStringField(fields: map<string, Json>, key: string)
  {
    key !in fields || fields[key].JNull? || fields[key].JStr?
  }

  function FieldValue(fields: map<string, Json>, key: string): string
  {
    if key in fields && fields[key].JStr? then fields[key].s else ""
  }

  /** A member of a decoded object, `null` when there is none. */
  function Member(j: Json, key: string): Json
  {
    if j.JObj? && key in j.fields then j.fields[key] else JNull
  }

  /** Unmarshalling a decoded value into a struct whose fields `keys` are strings. */
  function StringFieldsOf(j: Json, keys: set<string>): (r: Result<map<string, string>, string>)
    ensures r.Err? ==> r.error == NotJsonError
    ensures r.Ok? ==> r.value.Keys == keys
    ensures j == JNull ==> r.Ok? && forall k :: k in keys ==> r.value[k] == ""
    ensures j.JObj? ==> (r.Ok? <==> forall k :: k in keys ==> FitsStringField(j.fields, k))
    ensures j.JObj? && r.Ok? ==> forall k :: k in keys ==> r.value[k] == FieldValue(j.fields, k)
    ensures !j.JObj? && !j.JNull? ==> r.Err?
  {
    match j
    case JNull => Ok(map k | k in keys :: "")
    case JObj(fields) =>
      if forall k :: k in keys ==> FitsStringField(fields, k) then Ok(map k | k in keys :: FieldValue(fields, k))
      else Err(NotJsonError)
    case _ => Err(NotJsonError)
  }

  /** The string fields named by `keys` of a request body; any failure gives the one error message. */
  function StringFields(codec: Codec, body: seq<byte>, keys: set<string>): (r: Result<map<string, string>, string>)
    ensures r.Err? ==> r.error == NotJsonError
    ensures r.Ok? ==> r.value.Keys == keys
    ensures codec.decode(body).None? ==> r.Err?
    ensures codec.decode(body).Some? ==> r == StringFieldsOf(codec.decode(body).value, keys)
  {
    match codec.decode(body)
    case None => Err(NotJsonError)
    case Some(j) => StringFieldsOf(j, keys)
  }
}
