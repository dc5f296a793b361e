/** The gateway's refusal of client API versions it does not handle
    (corporal/httpgateway/middleware.go): the request URI is searched for the leftmost
    `/_matrix/client/` followed by `r` or `v` and one or more digits; a request whose captured
    version is not one the gateway captures is refused, any other request goes on to the router. */
module ApiVersionGate {
  import opened Wrappers
  import opened Strings
  import opened Http
  import MatrixUtil

  const ClientPrefix := "/_matrix/client/"
  const SupportedApiVersions: seq<string> := ["r0", "v3"]
  const UnsupportedVersionMessage := "API version not supported by gateway"

  predicate IsDigit(c: char)
  {
    '0' <= c <= '9'
  }

  /** The length of the run of digits `s` starts with: `\d+` is greedy. */
  function DigitRun(s: string): (n: nat)
    ensures n <= |s|
    ensures forall i :: 0 <= i < n ==> IsDigit(s[i])
    ensures n < |s| ==> !IsDigit(s[n])
  {
    if s == [] || !IsDigit(s[0]) then 0 else 1 + DigitRun(s[1..])
  }

  /** The version the pattern captures when a match starts at position `i` of `uri`. */
  function VersionAt(uri: string, i: nat): (v: Option<string>)
    requires i <= |uri|
    ensures v.Some? <==> (HasPrefix(uri[i..], ClientPrefix) && i + |ClientPrefix| < |uri| && uri[i + |ClientPrefix|] in "rv"
                          && i + |ClientPrefix| + 1 < |uri| && IsDigit(uri[i + |ClientPrefix| + 1]))
    ensures v.Some? ==> 2 <= |v.value| && v.value[0] in "rv" && (forall k :: 1 <= k < |v.value| ==> IsDigit(v.value[k]))
    ensures v.Some? ==> var end := i + |ClientPrefix| + |v.value|;
                        end <= |uri| && uri[i + |ClientPrefix| .. end] == v.value && (end < |uri| ==> !IsDigit(uri[end]))
  {
    var start := i + |ClientPrefix|;
    if HasPrefix(uri[i..], ClientPrefix) && start < |uri| && uri[start] in "rv" then
      var n := DigitRun(uri[start + 1..]);
      if n == 0 then None
      else
        assert uri[start + 1..][..n] == uri[start + 1 .. start + 1 + n];
        Some(uri[start .. start + 1 + n])
    else None
  }

  /** `FindStringSubmatch` from position `i` on: the leftmost match and its capture. */
  function FindFrom(uri: string, i: nat): (r: Option<(nat, string)>)
    requires i <= |uri|
    ensures r.Some? ==> i <= r.value.0 <= |uri| && VersionAt(uri, r.value.0) == Some(r.value.1)
    ensures r.Some? ==> forall j :: i <= j < r.value.0 ==> VersionAt(uri, j).None?
    ensures r.None? ==> forall j :: i <= j <= |uri| ==> VersionAt(uri, j).None?
    decreases |uri| - i
  {
    match VersionAt(uri, i)
    case Some(v) => Some((i, v))
    case None => if i == |uri| then None else FindFrom(uri, i + 1)
  }

  /** The captured API version of the leftmost match, if the URI has one. */
  function ApiVersionFromUri(uri: string): (r: Option<string>)
    ensures r.None? <==> forall j :: 0 <= j <= |uri| ==> VersionAt(uri, j).None?
    ensures r.Some? ==> exists j :: 0 <= j <= |uri| && VersionAt(uri, j) == r && forall k :: 0 <= k < j ==> VersionAt(uri, k).None?
  {
    var m := FindFrom(uri, 0);
    if m.Some? then Some(m.value.1) else None
  }

  /** `denyUnsupportedApiVersionsMiddleware`: `None` lets the request through to the next
      handler, `Some` is the refusal written instead. */
  function DenyUnsupportedApiVersions(codec: Codec, requestURI: string): (r: Option<Reply>)
    ensures r.None? <==> (ApiVersionFromUri(requestURI).None? || ApiVersionFromUri(requestURI).value in SupportedApiVersions)
    ensures r.Some? ==> r.value == MatrixErrorReply(codec, 403, MatrixUtil.ErrorForbidden, UnsupportedVersionMessage)
  {
    match ApiVersionFromUri(requestURI)
    case None => None
    case Some(version) =>
      if version in SupportedApiVersions then None
      else Some(MatrixErrorReply(codec, 403, MatrixUtil.ErrorForbidden, UnsupportedVersionMessage))
  }

  /** The pattern matches at the very start of a client URI with a version right after the
      prefix, and captures all of the version's digits. */
  lemma {:induction false} VersionRightAfterPrefix(version: string, rest: string)
    requires 2 <= |version| && version[0] in "rv" && forall k :: 1 <= k < |version| ==> IsDigit(version[k])
    requires rest == [] || !IsDigit(rest[0])
    ensures ApiVersionFromUri(ClientPrefix + version + rest) == Some(version)
  {
    var uri := ClientPrefix + version + rest;
    var start := |ClientPrefix|;
    assert uri[0..] == uri;
    assert uri[..start] == ClientPrefix;
    assert uri[start] == version[0];
    var tail := uri[start + 1..];
    assert tail == version[1..] + rest;
    DigitsThenStop(version[1..], rest);
    assert uri[start .. start + |version|] == version;
  }

  lemma {:induction false} DigitsThenStop(digits: string, rest: string)
    requires forall k :: 0 <= k < |digits| ==> IsDigit(digits[k])
    requires rest == [] || !IsDigit(rest[0])
    ensures DigitRun(digits + rest) == |digits|
    decreases |digits|
  {
    if digits != [] {
      assert (digits + rest)[1..] == digits[1..] + rest;
      DigitsThenStop(digits[1..], rest);
    } else {
      assert digits + rest == rest;
    }
  }

  /** A version captured right after the prefix decides alone: it passes exactly when it is
      one of the supported versions, and is refused with 403 otherwise. */
  lemma CapturedVersionDecides(codec: Codec, version: string, rest: string)
    requires 2 <= |version| && version[0] in "rv" && forall k :: 1 <= k < |version| ==> IsDigit(version[k])
    requires rest == [] || !IsDigit(rest[0])
    ensures DenyUnsupportedApiVersions(codec, ClientPrefix + version + rest).None? <==> version in SupportedApiVersions
  {
    VersionRightAfterPrefix(version, rest);
  }

  /** The versions the gateway captures pass. */
  lemma SupportedVersionsPass(codec: Codec, rest: string)
    requires rest == [] || !IsDigit(rest[0])
    ensures DenyUnsupportedApiVersions(codec, ClientPrefix + "r0" + rest).None?
    ensures DenyUnsupportedApiVersions(codec, ClientPrefix + "v3" + rest).None?
  {
    CapturedVersionDecides(codec, "r0", rest);
    CapturedVersionDecides(codec, "v3", rest);
  }

  /** Any other version captured right after the prefix is refused. */
  lemma OtherVersionsRefused(codec: Codec, version: string, rest: string)
    requires 2 <= |version| && version[0] in "rv" && forall k :: 1 <= k < |version| ==> IsDigit(version[k])
    requires rest == [] || !IsDigit(rest[0])
    requires version != "r0" && version != "v3"
    ensures DenyUnsupportedApiVersions(codec, ClientPrefix + version + rest)
            == Some(MatrixErrorReply(codec, 403, MatrixUtil.ErrorForbidden, UnsupportedVersionMessage))
  {
    CapturedVersionDecides(codec, version, rest);
  }

  /** A longer number starting with the same digits, such as `v30`, is a different version. */
  lemma LongerNumberIsAnotherVersion(codec: Codec, rest: string)
    requires rest == [] || !IsDigit(rest[0])
    ensures DenyUnsupportedApiVersions(codec, ClientPrefix + "v30" + rest).Some?
  {
    OtherVersionsRefused(codec, "v30", rest);
  }

  /** Only the leftmost match decides: whatever follows it in the URI is not looked at. */
  lemma LeftmostMatchDecides(codec: Codec, uri: string, j: nat)
    requires j <= |uri| && VersionAt(uri, j).Some?
    requires forall k :: 0 <= k < j ==> VersionAt(uri, k).None?
    ensures ApiVersionFromUri(uri) == VersionAt(uri, j)
    ensures DenyUnsupportedApiVersions(codec, uri).None? <==> VersionAt(uri, j).value in SupportedApiVersions
  {
    var m := FindFrom(uri, 0);
    assert m.Some? && m.value.0 == j;
  }

  /** A match can only start where the URI has the prefix's `/_`, and reads the two characters
      after the prefix. */
  lemma MatchStartsWithPrefix(uri: string, j: nat)
    requires j <= |uri|
    ensures VersionAt(uri, j).Some? ==>
              j + |ClientPrefix| + 1 < |uri| && uri[j + 1] == '_'
              && uri[j + |ClientPrefix|] in "rv" && IsDigit(uri[j + |ClientPrefix| + 1])
  {
    if VersionAt(uri, j).Some? {
      assert uri[j..][..|ClientPrefix|] == ClientPrefix;
      assert uri[j..][1] == '_';
    }
  }

  /** A client URI whose segment after the prefix is no version passes, provided nothing later in
      it starts another client prefix. */
  lemma NonVersionSegmentPasses(codec: Codec, rest: string)
    requires '_' !in rest
    requires |rest| < 2 || rest[0] !in "rv" || !IsDigit(rest[1])
    ensures DenyUnsupportedApiVersions(codec, ClientPrefix + rest).None?
  {
    var uri := ClientPrefix + rest;
    assert '_' !in ClientPrefix[2..];
    forall j | 0 <= j <= |uri|
      ensures VersionAt(uri, j).None?
    {
      MatchStartsWithPrefix(uri, j);
      if j == 0 {
        if |rest| >= 2 {
          assert uri[|ClientPrefix|] == rest[0] && uri[|ClientPrefix| + 1] == rest[1];
        }
      } else if j + 1 < |ClientPrefix| {
        assert uri[j + 1] == ClientPrefix[2..][j - 1];
      } else if j + 1 < |uri| {
        assert uri[j + 1] == rest[j + 1 - |ClientPrefix|];
      }
    }
  }

  /** `/_matrix/client/versions` passes. */
  lemma VersionsEndpointPasses(codec: Codec)
    ensures DenyUnsupportedApiVersions(codec, ClientPrefix + "versions").None?
  {
    NonVersionSegmentPasses(codec, "versions");
  }
}
