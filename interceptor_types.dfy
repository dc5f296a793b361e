/** What an interceptor answers (corporal/httpgateway/interceptor/interceptor_types.go, util.go),
    and what it is handed: the user-auth checker as a function, and the request it may rewrite. */
module Interceptors {
  import opened Wrappers
  import opened Json
  import opened Http

  datatype InterceptorResult = Proxy | Deny

  /** The logging fields of the response are not modelled. */
  datatype InterceptorResponse = InterceptorResponse(result: InterceptorResult, errorCode: string, errorMessage: string)

  /** A proxy verdict carries no error code or message. */
  const ProxyResponse := InterceptorResponse(Proxy, "", "")

  /** `createInterceptorErrorResponse`. */
  function ErrorResponse(errorCode: string, errorMessage: string): (r: InterceptorResponse)
    ensures r.result == Deny && r.errorCode == errorCode && r.errorMessage == errorMessage
  {
    InterceptorResponse(Deny, errorCode, errorMessage)
  }

  /** `Checker.Check(userId, givenPassword, authType, authCredential)`: whether the credentials are
      right, or the authenticator's error. */
  type AuthCheck = (string, string, string, string) -> Result<bool, string>

  /** The verdict, and the request as the interceptor leaves it. */
  datatype Interception = Interception(response: InterceptorResponse, request: Request)

  /** Replacing the body with the encoding of `document` and the content length with its size. */
  function WithJsonBody(codec: Codec, request: Request, document: Json): (r: Request)
    ensures r.body == codec.encode(document) && r.contentLength == |codec.encode(document)|
    ensures r == request.(body := r.body, contentLength := r.contentLength)
  {
    request.(body := codec.encode(document), contentLength := |codec.encode(document)|)
  }

  /** The codec gives `document` back from its own encoding. */
  predicate Lossless(codec: Codec, document: Json)
  {
    codec.decode(codec.encode(document)) == Some(document)
  }
}
