/** Access-token extraction and body restoration for incoming requests
    (corporal/httphelp/request_utils.go), after sections 2.1 and 2.3 of RFC 6750. */
module RequestUtils {
  import opened Wrappers
  import opened Strings
  import opened Hex
  import opened Http

  const BearerPrefix := "Bearer "

  /** The token of an `Authorization: Bearer <token>` header: the text after the exact,
      case-sensitive prefix, or "" for a missing header or any other scheme. */
  function GetAccessTokenFromRequestHeader(request: Request): (r: string)
    ensures HasPrefix(HeaderGet(request.header, "Authorization"), BearerPrefix) ==>
              HeaderGet(request.header, "Authorization") == BearerPrefix + r
    ensures !HasPrefix(HeaderGet(request.header, "Authorization"), BearerPrefix) ==> r == ""
  {
    var authorization := HeaderGet(request.header, "Authorization");
    if authorization == "" then ""
    else if !HasPrefix(authorization, BearerPrefix) then ""
    else authorization[|BearerPrefix|..]
  }

  /** The `access_token` query or form value; "" when parsing fails or the key is absent. */
  function GetAccessTokenFromRequestQuery(request: Request): (r: string)
    ensures request.form.None? ==> r == ""
    ensures request.form.Some? && "access_token" in request.form.value ==> r == request.form.value["access_token"]
    ensures request.form.Some? && "access_token" !in request.form.value ==> r == ""
  {
    match request.form
    case None => ""
    case Some(form) => if "access_token" in form then form["access_token"] else ""
  }

  /** The header wins; the query is consulted only when the header yields "". */
  function GetAccessTokenFromRequest(request: Request): (r: string)
    ensures GetAccessTokenFromRequestHeader(request) != "" ==> r == GetAccessTokenFromRequestHeader(request)
    ensures GetAccessTokenFromRequestHeader(request) == "" ==> r == GetAccessTokenFromRequestQuery(request)
  {
    var accessToken := GetAccessTokenFromRequestHeader(request);
    if accessToken != "" then accessToken else GetAccessTokenFromRequestQuery(request)
  }

  /** A bearer header carries back exactly the token put in it. */
  lemma BearerHeaderRoundTrip(request: Request, token: string)
    requires HeaderGet(request.header, "Authorization") == BearerPrefix + token
    ensures GetAccessTokenFromRequestHeader(request) == token
  {
    ConcatHasPrefix(BearerPrefix, token);
  }

  /** A non-empty bearer token in the header hides whatever the query says. */
  lemma HeaderTokenWins(request: Request, token: string)
    requires HeaderGet(request.header, "Authorization") == BearerPrefix + token && token != ""
    ensures GetAccessTokenFromRequest(request) == token
  {
    BearerHeaderRoundTrip(request, token);
  }

  /** A lowercase scheme is not the bearer scheme, so the header yields nothing. */
  lemma LowercaseSchemeIgnored(request: Request, token: string)
    requires HeaderGet(request.header, "Authorization") == "bearer " + token
    ensures GetAccessTokenFromRequestHeader(request) == ""
  {
    assert HeaderGet(request.header, "Authorization")[0] == 'b';
  }

  /** A request body reader. `failing` stands for a transport error while reading. */
  class BodyReader {
    var remaining: seq<byte>
    var failing: bool

    constructor(data: seq<byte>)
      ensures remaining == data && !failing
    {
      remaining := data;
      failing := false;
    }

    /** `ioutil.ReadAll` followed by `Close`: everything left, and the reader is spent. */
    method ReadAll() returns (r: Result<seq<byte>, string>)
      modifies this
      ensures !old(failing) ==> r == Ok(old(remaining))
      ensures old(failing) ==> r.Err?
      ensures remaining == [] && failing == old(failing)
    {
      if failing {
        remaining := [];
        return Err("Cannot read bytes from source reader");
      }
      r := Ok(remaining);
      remaining := [];
    }
  }

  /** The part of a request whose body the gateway reads and puts back. */
  class HttpRequest {
    var body: BodyReader

    constructor(data: seq<byte>)
      ensures fresh(body) && body.remaining == data && !body.failing
    {
      body := new BodyReader(data);
    }
  }

  /** `GetRequestBody`: reads the whole body and replaces it with a fresh reader over the same
      bytes, so a later reader (the reverse proxy) sees identical content. */
  method GetRequestBody(r: HttpRequest) returns (result: Result<seq<byte>, string>)
    modifies r, r.body
    ensures !old(r.body.failing) ==> result == Ok(old(r.body.remaining))
    ensures !old(r.body.failing) ==> fresh(r.body) && r.body.remaining == old(r.body.remaining) && !r.body.failing
    ensures old(r.body.failing) ==> result.Err? && r.body == old(r.body)
  {
    var read := r.body.ReadAll();
    if read.Err? {
      return Err("Cannot read request body payload: " + read.error);
    }
    r.body := new BodyReader(read.value);
    return Ok(read.value);
  }

  /** Reading the body twice through `GetRequestBody` yields the same bytes both times. */
  method ReadBodyTwice(r: HttpRequest) returns (first: Result<seq<byte>, string>, second: Result<seq<byte>, string>)
    requires !r.body.failing
    modifies r, r.body
    ensures first.Ok? && second == first
  {
    first := GetRequestBody(r);
    second := GetRequestBody(r);
  }
}
