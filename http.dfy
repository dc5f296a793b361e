/** HTTP requests, responses and replies as values, and the JSON codec the gateway uses on bodies. */
module Http {
  import opened Wrappers
  import opened Json
  import opened Hex

  /** Body encodings: `encoding/json` reduced to a decoder (None for bytes that are not JSON) and
      an encoder, and the UTF-8 encoding of a string. */
  datatype Codec = Codec(decode: seq<byte> -> Option<Json>, encode: Json -> seq<byte>, utf8: string -> seq<byte>)

  /** Header names are taken as already canonical; a name maps to its first value. */
  type Header = map<string, string>

  /** `http.Header.Get`: the value, or "" when the header is absent. */
  function HeaderGet(h: Header, name: string): string
  {
    if name in h then h[name] else ""
  }

  /** An incoming request. `form` is the parsed query and form (first value per key), None when
      parsing fails; `userId` is the context value the gateway stores once a token resolved;
      `vars` are the router's path variables. */
  datatype Request = Request(
    httpMethod: string,
    requestURI: string,
    path: string,
    header: Header,
    form: Option<map<string, string>>,
    body: seq<byte>,
    contentLength: int,
    userId: Option<string>,
    vars: map<string, string>)

  /** A response obtained from the upstream homeserver. */
  datatype Response = Response(statusCode: int, header: Header, body: seq<byte>, contentLength: int)

  /** One `RespondWithBytes` call: a status, a content type and a payload. */
  datatype Reply = Reply(statusCode: int, contentType: string, payload: seq<byte>)

  const ContentTypeJson := "application/json"

  /** The headers `RespondWithBytes` sets before writing the status. */
  function ReplyHeaders(r: Reply): (h: Header)
    ensures h.Keys == {"Access-Control-Allow-Origin", "Content-Type"}
    ensures h["Access-Control-Allow-Origin"] == "*" && h["Content-Type"] == r.contentType
  {
    map["Access-Control-Allow-Origin" := "*", "Content-Type" := r.contentType]
  }

  /** The JSON document of a Matrix error body: `{"errcode": …, "error": …}`. */
  function MatrixErrorDocument(errorCode: string, errorMessage: string): Json
  {
    JObj(map["errcode" := JStr(errorCode), "error" := JStr(errorMessage)])
  }

  /** `RespondWithMatrixError`: a JSON reply carrying a Matrix error code and message. */
  function MatrixErrorReply(codec: Codec, statusCode: int, errorCode: string, errorMessage: string): (r: Reply)
    ensures r.statusCode == statusCode && r.contentType == ContentTypeJson
    ensures r.payload == codec.encode(MatrixErrorDocument(errorCode, errorMessage))
  {
    Reply(statusCode, ContentTypeJson, codec.encode(MatrixErrorDocument(errorCode, errorMessage)))
  }

  /** `RespondWithJSON`. */
  function JsonReply(codec: Codec, statusCode: int, document: Json): (r: Reply)
    ensures r.statusCode == statusCode && r.contentType == ContentTypeJson
    ensures r.payload == codec.encode(document)
  {
    Reply(statusCode, ContentTypeJson, codec.encode(document))
  }
}
