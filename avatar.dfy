/** Reading an avatar from the URI a policy gives (corporal/avatar/avatar.go): nothing for the
    empty URI, the inline bytes of a `data:` URI, and otherwise whatever fetching the URL gives.
    Every avatar read carries the SHA-512 hex digest of its URI, which is what the reconciler
    compares. */
module Avatars {
  import opened Wrappers
  import opened Strings
  import opened Hex
  import Util

  /** The body is the bytes the reader would hand out. */
  datatype Avatar = Avatar(contentType: string, contentLength: int, body: seq<byte>, uriHash: string)

  /** `base64.StdEncoding.DecodeString`, the decoder of the standard library. */
  type Base64Decoder = string -> Result<seq<byte>, string>

  /** Fetching a URL: the response's content type and body, or why it failed (a transport error,
      a status other than 200, a body that could not be read). */
  type Fetch = string -> Result<(string, seq<byte>), string>

  const DataPrefix := "data:"
  const NoSemicolonMessage := "Malformed data URI, cannot find semicolon"
  const NoCommaMessage := "Malformed data URI, cannot find comma"
  const Base64FailurePrefix := "Failed to base64-decode data: "

  /** `UriHash`. */
  function UriHash(uri: string, sha512: Hash): (h: string)
    ensures |h| == 128 && IsLowerHex(h)
  {
    Util.Sha512(uri, sha512)
  }

  /** Two URIs get the same hash exactly when their SHA-512 digests collide, so avatars are
      told apart by their URIs alone. */
  lemma UriHashesDistinguishUris(a: string, b: string, sha512: Hash)
    ensures UriHash(a, sha512) == UriHash(b, sha512) <==> sha512(a) == sha512(b)
  {
    Util.Sha512SameIffHashesCollide(a, b, sha512);
  }

  /** The first occurrence, found by its position. */
  lemma FirstOccurrence(s: string, c: char, k: nat)
    requires k < |s| && s[k] == c && c !in s[..k]
    ensures IndexOf(s, c) == Some(k)
  {
    assert s[k] in s;
    var r := IndexOf(s, c);
    assert forall j :: 0 <= j < k ==> s[j] == s[..k][j];
    assert forall j :: 0 <= j < r.value ==> s[j] == s[..r.value][j];
  }

  /** The `data:` branch, on the text after the scheme: the content type runs up to the first
      ';', the payload starts after the first ','. */
  function ReadData(dataContent: string, uriHash: string, decode: Base64Decoder): (r: Result<Avatar, string>)
    ensures ';' !in dataContent ==> r == Err(NoSemicolonMessage)
    ensures ';' in dataContent && ',' !in dataContent ==> r == Err(NoCommaMessage)
    ensures r.Ok? ==> ';' in dataContent && ',' in dataContent
    ensures r.Ok? ==> exists k :: 0 <= k < |dataContent| && dataContent[k] == ';' && ';' !in dataContent[..k]
                                  && r.value.contentType == dataContent[..k]
    ensures r.Ok? ==> exists k :: 0 <= k < |dataContent| && dataContent[k] == ',' && ',' !in dataContent[..k]
                                  && decode(dataContent[k + 1..]) == Ok(r.value.body)
    ensures r.Ok? ==> r.value.contentLength == |r.value.body| && r.value.uriHash == uriHash
  {
    match IndexOf(dataContent, ';')
    case None => Err(NoSemicolonMessage)
    case Some(semicolon) =>
      match IndexOf(dataContent, ',')
      case None => Err(NoCommaMessage)
      case Some(comma) =>
        match decode(dataContent[comma + 1..])
        case Err(e) => Err(Base64FailurePrefix + e)
        case Ok(bytes) => Ok(Avatar(dataContent[..semicolon], |bytes|, bytes, uriHash))
  }

  /** `AvatarReader.Read`. */
  function Read(avatarUri: string, sha512: Hash, decode: Base64Decoder, fetch: Fetch): (r: Result<Avatar, string>)
    ensures r.Ok? ==> r.value.uriHash == UriHash(avatarUri, sha512) && r.value.contentLength == |r.value.body|
    ensures avatarUri == "" ==> r == Ok(Avatar("", 0, [], UriHash(avatarUri, sha512)))
    ensures avatarUri != "" && HasPrefix(avatarUri, DataPrefix) ==>
              r == ReadData(avatarUri[|DataPrefix|..], UriHash(avatarUri, sha512), decode)
    ensures avatarUri != "" && !HasPrefix(avatarUri, DataPrefix) ==>
              (r.Err? <==> fetch(avatarUri).Err?)
              && (r.Ok? ==> r.value.contentType == fetch(avatarUri).value.0 && r.value.body == fetch(avatarUri).value.1)
  {
    var uriHash := UriHash(avatarUri, sha512);
    if avatarUri == "" then Ok(Avatar("", 0, [], uriHash))
    else if HasPrefix(avatarUri, DataPrefix) then ReadData(avatarUri[|DataPrefix|..], uriHash, decode)
    else match fetch(avatarUri)
      case Err(e) => Err(e)
      case Ok(response) => Ok(Avatar(response.0, |response.1|, response.1, uriHash))
  }

  /** A well-formed `data:` payload gives its media type and the decoded bytes, even when the
      parameters between the two contain further text. */
  lemma DataContentRead(mediaType: string, parameters: string, payload: string, bytes: seq<byte>,
                        uriHash: string, decode: Base64Decoder)
    requires ';' !in mediaType && ',' !in mediaType && ',' !in parameters
    requires decode(payload) == Ok(bytes)
    ensures ReadData(mediaType + ";" + parameters + "," + payload, uriHash, decode) == Ok(Avatar(mediaType, |bytes|, bytes, uriHash))
  {
    var content := mediaType + ";" + parameters + "," + payload;
    var k := |mediaType|;
    assert content[..k] == mediaType;
    FirstOccurrence(content, ';', k);
    var c := |mediaType| + 1 + |parameters|;
    assert content[..c] == mediaType + ";" + parameters;
    FirstOccurrence(content, ',', c);
    assert content[c + 1..] == payload;
  }

  /** A well-formed `data:` URI as a whole. */
  lemma DataUriRoundTrip(mediaType: string, parameters: string, payload: string, bytes: seq<byte>,
                         sha512: Hash, decode: Base64Decoder, fetch: Fetch)
    requires ';' !in mediaType && ',' !in mediaType && ',' !in parameters
    requires decode(payload) == Ok(bytes)
    ensures var uri := DataPrefix + (mediaType + ";" + parameters + "," + payload);
            Read(uri, sha512, decode, fetch) == Ok(Avatar(mediaType, |bytes|, bytes, UriHash(uri, sha512)))
  {
    var content := mediaType + ";" + parameters + "," + payload;
    var uri := DataPrefix + content;
    assert uri[..|DataPrefix|] == DataPrefix;
    assert uri[|DataPrefix|..] == content;
    DataContentRead(mediaType, parameters, payload, bytes, UriHash(uri, sha512), decode);
  }

  /** A comma before the first semicolon still ends the payload's prefix: the content type then
      runs past the comma, and what is decoded is everything after the first comma. */
  lemma CommaBeforeSemicolon(before: string, after: string, uriHash: string, decode: Base64Decoder)
    requires ',' !in before && ';' !in before && ';' in after
    ensures var content := before + "," + after;
            ReadData(content, uriHash, decode).Ok? ==>
              decode(after) == Ok(ReadData(content, uriHash, decode).value.body)
              && |ReadData(content, uriHash, decode).value.contentType| > |before|
  {
    var content := before + "," + after;
    assert content[|before|] == ',' && content[..|before|] == before;
    assert content[|before| + 1..] == after;
    assert ';' !in content[..|before| + 1];
  }
}
