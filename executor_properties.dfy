/** What executing a hook does, action by action, and what the scheduled modifiers do to the
    upstream response (corporal/hook/executor.go). */
module ExecutorProperties {
  import opened Wrappers
  import opened Json
  import opened Hex
  import opened Http
  import opened Hooks
  import opened ResponseBoundWriter
  import opened Executor
  import MatrixUtil

  /** An action without a handler is a processing error that writes nothing and stops the chain. */
  lemma UnknownActionIsProcessingError(env: Env, h: Hook, request: Request, fuel: nat)
    requires h.action !in KnownActions
    ensures Execute(env, h, request, fuel).processingError == Some("Missing handler for hook action = " + h.action)
    ensures Execute(env, h, request, fuel).written == [] && Execute(env, h, request, fuel).request == request
    ensures !NextHooksInChainCanRun(Execute(env, h, request, fuel))
  {
    HandlerTable(h.action);
  }

  /** An after-hook with a known action runs nothing yet: it schedules exactly one modifier that
      holds the hook and the request its handler will see, writes nothing, and lets the chain go on.
      Only a consulting after-hook keeps the request body; for any other action it is empty. */
  lemma AfterHooksAreDeferred(env: Env, h: Hook, request: Request, fuel: nat)
    requires h.action in KnownActions && IsAfterHook(h)
    ensures Execute(env, h, request, fuel).modifiers == [AfterHookModifier(h, RequestAfterProxying(h, request))]
    ensures h.action == ActionConsultRESTServiceURL ==> RequestAfterProxying(h, request) == request
    ensures h.action != ActionConsultRESTServiceURL ==>
              RequestAfterProxying(h, request) == request.(body := [])
    ensures Execute(env, h, request, fuel).hooks == [] && Execute(env, h, request, fuel).written == []
    ensures Execute(env, h, request, fuel).request == request
    ensures NextHooksInChainCanRun(Execute(env, h, request, fuel))
  {
    HandlerTable(h.action);
    BeforeIsNotAfter(h);
  }

  /** Before- and typeless hooks with a known action run their handler at once. */
  lemma ImmediateHooksRunTheirHandler(env: Env, h: Hook, request: Request, fuel: nat)
    requires h.action in KnownActions && RunsNow(h)
    ensures HasHandler(h.action) && Execute(env, h, request, fuel) == Handle(env, h, request, None, fuel)
  {
    HandlerTable(h.action);
  }

  /** For a hook with one of the known event types, running at once and being a before-hook coincide. */
  lemma KnownEventTypesRunNowIffBefore(h: Hook)
    requires h.eventType in KnownEventTypes
    ensures RunsNow(h) <==> IsBeforeHook(h)
  {
    KnownEventTypesAreBeforeOrAfter(h);
    BeforeIsNotAfter(h);
  }

  /** The status a rejection answers with: the hook's, or 403. */
  function RejectionStatus(h: Hook): (status: int)
    ensures h.responseStatusCode.None? ==> status == 403
    ensures h.responseStatusCode.Some? ==> status == h.responseStatusCode.value
  {
    if h.responseStatusCode.Some? then h.responseStatusCode.value else 403
  }

  /** `reject` needs an error code and then an error message; with both it answers with exactly that
      Matrix error, marks the response sent and passes the hook's skip flag on. */
  lemma RejectAnswersWithMatrixError(env: Env, h: Hook, request: Request)
    ensures h.rejectionErrorCode.None? ==> Reject(env, h, request).processingError == Some("A rejection error code is required")
    ensures h.rejectionErrorCode.Some? && h.rejectionErrorMessage.None? ==>
              Reject(env, h, request).processingError == Some("A rejection error message is required")
    ensures Reject(env, h, request).responseSent <==> h.rejectionErrorCode.Some? && h.rejectionErrorMessage.Some?
    ensures Reject(env, h, request).responseSent ==>
              && Reject(env, h, request).processingError.None?
              && Reject(env, h, request).written ==
                   [MatrixErrorReply(env.codec, RejectionStatus(h), h.rejectionErrorCode.value, h.rejectionErrorMessage.value)]
              && Reject(env, h, request).skipNextHooksInChain == h.skipNextHooksInChain
    ensures Reject(env, h, request).request == request && Reject(env, h, request).modifiers == []
  {
  }

  /** The body `respond` sends: the payload as a string for a non-JSON type or when serialisation is
      skipped, else the payload serialised as JSON. */
  predicate SendsRawString(h: Hook)
  {
    ResponseContentType(h) != ContentTypeJson || h.responseSkipPayloadJSONSerialization
  }

  /** `respond` needs a status code, and a string payload when it sends it raw; it then answers with
      the status, the content type (JSON by default) and the payload bytes. */
  lemma RespondAnswersWithPayload(env: Env, h: Hook, request: Request)
    ensures h.responseContentType.None? ==> ResponseContentType(h) == ContentTypeJson
    ensures h.responseStatusCode.None? ==> Respond(env, h, request).processingError == Some("A response status code is required")
    ensures Respond(env, h, request).responseSent <==> h.responseStatusCode.Some? && (SendsRawString(h) ==> h.responsePayload.JStr?)
    ensures h.responseStatusCode.Some? && SendsRawString(h) && !h.responsePayload.JStr? ==>
              Respond(env, h, request).processingError == Some("Could not interpret payload as string")
    ensures Respond(env, h, request).responseSent ==>
              && Respond(env, h, request).processingError.None?
              && Respond(env, h, request).written ==
                   [Reply(h.responseStatusCode.value, ResponseContentType(h),
                          if SendsRawString(h) then env.codec.utf8(h.responsePayload.s) else env.codec.encode(h.responsePayload))]
              && Respond(env, h, request).skipNextHooksInChain == h.skipNextHooksInChain
    ensures Respond(env, h, request).request == request && Respond(env, h, request).modifiers == []
  {
  }

  /** `pass.unmodified` changes nothing and stops the chain only when the hook says so. */
  lemma PassUnmodifiedChangesNothing(h: Hook, request: Request)
    ensures PassUnmodified(h, request).request == request
    ensures PassUnmodified(h, request).written == [] && PassUnmodified(h, request).modifiers == []
    ensures NextHooksInChainCanRun(PassUnmodified(h, request)) <==> !h.skipNextHooksInChain
  {
  }

  /** `pass.modifiedRequest` with something to inject into an object body: the body becomes the
      serialised merge, its length follows, the injected headers are set, and nothing else about
      the request changes. */
  lemma RequestInjectionRewritesBody(env: Env, h: Hook, request: Request)
    requires h.injectJSONIntoRequest.Some?
    requires !NothingToInject(h.injectJSONIntoRequest.value, h.injectHeadersIntoResponse)
    requires DecodeMap(env.codec, request.body).Object?
    ensures var r := PassModifiedRequest(env, h, request);
      && r.processingError.None? && !r.responseSent && r.written == [] && r.modifiers == []
      && r.request.body == env.codec.encode(JObj(DecodeMap(env.codec, request.body).fields + h.injectJSONIntoRequest.value))
      && r.request.contentLength == |r.request.body|
      && r.request.header == SetHeaders(request.header, h.injectHeadersIntoRequest)
      && r.request.httpMethod == request.httpMethod && r.request.requestURI == request.requestURI
      && r.request.path == request.path && r.request.userId == request.userId
  {
  }

  /** A request body that is not a key-value JSON object is a processing error whenever there is
      something to inject, and the request is left alone; so is a JSON `null` body when there are
      keys to inject (where the source panics, see the findings). */
  lemma RequestInjectionNeedsObject(env: Env, h: Hook, request: Request)
    requires h.injectJSONIntoRequest.Some?
    requires !NothingToInject(h.injectJSONIntoRequest.value, h.injectHeadersIntoResponse)
    requires DecodeMap(env.codec, request.body).NotAnObject?
             || (DecodeMap(env.codec, request.body).NilMap? && |h.injectJSONIntoRequest.value| > 0)
    ensures PassModifiedRequest(env, h, request).processingError == Some(RequestNotJsonError)
    ensures PassModifiedRequest(env, h, request).request == request
  {
  }

  /** A JSON `null` request body with no keys to inject (but response headers to inject, so that
      the handler does not pass the request unmodified) is serialised back as `null`, and the
      request headers are set. */
  lemma RequestInjectionKeepsNull(env: Env, h: Hook, request: Request)
    requires h.injectJSONIntoRequest.Some? && |h.injectJSONIntoRequest.value| == 0
    requires !NothingToInject(h.injectJSONIntoRequest.value, h.injectHeadersIntoResponse)
    requires DecodeMap(env.codec, request.body).NilMap?
    ensures var r := PassModifiedRequest(env, h, request);
      && r.processingError.None?
      && r.request.body == env.codec.encode(JNull)
      && r.request.contentLength == |r.request.body|
      && r.request.header == SetHeaders(request.header, h.injectHeadersIntoRequest)
  {
  }

  /** With a faithful codec, injecting twice is injecting once: the second pass finds the injected
      keys already in place. */
  lemma {:induction false} RequestInjectionIdempotent(env: Env, h: Hook, request: Request)
    requires forall j :: env.codec.decode(env.codec.encode(j)) == Some(j)
    requires h.injectJSONIntoRequest.Some?
    requires !NothingToInject(h.injectJSONIntoRequest.value, h.injectHeadersIntoResponse)
    requires DecodeMap(env.codec, request.body).Object?
    ensures var once := PassModifiedRequest(env, h, request).request;
      var twice := PassModifiedRequest(env, h, once).request;
      twice.body == once.body && twice.contentLength == once.contentLength && twice.header == once.header
  {
    var fields := DecodeMap(env.codec, request.body).fields;
    var inject := h.injectJSONIntoRequest.value;
    var once := PassModifiedRequest(env, h, request).request;
    ModifiedRequest(env, h, request, fields);
    assert DecodeMap(env.codec, once.body) == Object(fields + inject) by {
      assert env.codec.decode(once.body) == Some(JObj(fields + inject));
    }
    ModifiedRequest(env, h, once, fields + inject);
    MergeTwice(fields, inject);
    if h.injectHeadersIntoRequest.Some? {
      MergeTwice(request.header, h.injectHeadersIntoRequest.value);
    }
  }

  /** Merging the same map a second time changes nothing. */
  lemma MergeTwice<K, V>(m: map<K, V>, extra: map<K, V>)
    ensures m + extra + extra == m + extra
  {
  }

  /** The body, length and headers a successful injection leaves. */
  lemma ModifiedRequest(env: Env, h: Hook, request: Request, fields: map<string, Json>)
    requires h.injectJSONIntoRequest.Some?
    requires !NothingToInject(h.injectJSONIntoRequest.value, h.injectHeadersIntoResponse)
    requires DecodeMap(env.codec, request.body) == Object(fields)
    ensures var r := PassModifiedRequest(env, h, request).request;
      && r.body == env.codec.encode(JObj(fields + h.injectJSONIntoRequest.value))
      && r.contentLength == |r.body|
      && r.header == SetHeaders(request.header, h.injectHeadersIntoRequest)
  {
  }

  /** With nothing to inject, both pass-modified actions behave as `pass.unmodified`. */
  lemma NothingToInjectIsUnmodified(env: Env, h: Hook, request: Request)
    ensures h.injectJSONIntoRequest.Some? && NothingToInject(h.injectJSONIntoRequest.value, h.injectHeadersIntoResponse) ==>
              PassModifiedRequest(env, h, request) == PassUnmodified(h, request)
    ensures h.injectJSONIntoResponse.Some? && NothingToInject(h.injectJSONIntoResponse.value, h.injectHeadersIntoResponse) ==>
              PassModifiedResponse(h, request) == PassUnmodified(h, request)
  {
  }

  /** Missing injection information is a processing error. */
  lemma InjectionInformationRequired(env: Env, h: Hook, request: Request)
    ensures h.injectJSONIntoRequest.None? ==>
              PassModifiedRequest(env, h, request).processingError == Some("injectJSONIntoRequest information is required")
    ensures h.injectJSONIntoResponse.None? ==>
              PassModifiedResponse(h, request).processingError == Some("injectJSONIntoResponse information is required")
  {
  }

  /** `pass.modifiedResponse` with something to inject leaves the request alone and schedules
      exactly one injection of its own hook. */
  lemma ResponseInjectionIsScheduled(h: Hook, request: Request)
    requires h.injectJSONIntoResponse.Some?
    requires !NothingToInject(h.injectJSONIntoResponse.value, h.injectHeadersIntoResponse)
    ensures PassModifiedResponse(h, request).modifiers == [InjectResponseModifier(h)]
    ensures PassModifiedResponse(h, request).request == request && PassModifiedResponse(h, request).written == []
    ensures NextHooksInChainCanRun(PassModifiedResponse(h, request)) <==> !h.skipNextHooksInChain
  {
  }

  /** Consultation needs a service URL and passes the consultor's error through. */
  lemma ConsultFailures(env: Env, h: Hook, request: Request, response: Option<Response>, fuel: nat)
    ensures h.restServiceURL.None? ==>
              ConsultRESTServiceURL(env, h, request, response, fuel).processingError == Some("A RESTServiceURL is required")
    ensures h.restServiceURL.Some? && env.consult(h, request, response).Err? ==>
              ConsultRESTServiceURL(env, h, request, response, fuel).processingError == Some(env.consult(h, request, response).error)
  {
  }

  /** An after-hook whose service answers with a request modification fails: the request is gone. */
  lemma AfterHookCannotModifyRequest(env: Env, h: Hook, request: Request, response: Option<Response>, fuel: nat)
    requires IsAfterHook(h) && h.restServiceURL.Some?
    requires env.consult(h, request, response).Ok? && env.consult(h, request, response).value.action == ActionPassModifiedRequest
    ensures ConsultRESTServiceURL(env, h, request, response, fuel).processingError ==
              Some(AfterHookModifiesRequestError(h, ConsultedHook(h, env.consult(h, request, response).value)))
    ensures ConsultRESTServiceURL(env, h, request, response, fuel).request == request
    ensures ConsultRESTServiceURL(env, h, request, response, fuel).written == []
  {
  }

  /** A service answer runs at once as a typeless hook, and its result is attributed to the hook
      that consulted: a consulted rejection sends exactly the answer's Matrix error. */
  lemma ConsultedRejectionIsSent(env: Env, h: Hook, request: Request, response: Option<Response>, fuel: nat)
    requires h.restServiceURL.Some? && env.consult(h, request, response).Ok? && 0 < fuel
    requires env.consult(h, request, response).value.action == ActionReject
    ensures var answer := ConsultedHook(h, env.consult(h, request, response).value);
      var r := ConsultRESTServiceURL(env, h, request, response, fuel);
      && r.hooks == [h]
      && r.written == Reject(env, answer, request).written
      && r.responseSent == Reject(env, answer, request).responseSent
      && r.processingError == Reject(env, answer, request).processingError
  {
    var answer := ConsultedHook(h, env.consult(h, request, response).value);
    HandlerTable(answer.action);
    assert !IsBeforeHook(answer) && !IsAfterHook(answer);
    assert Execute(env, answer, request, fuel - 1) == Reject(env, answer, request);
  }

  /** A response injection into an object body sets the serialised merge as the body, its length,
      and the injected headers; a JSON `null` body with no keys to inject is serialised back as
      `null` with the headers set; any other body is an error that asks to skip the rest (a
      `null` body with keys to inject included, where the source panics). */
  lemma ResponseInjectionMerges(env: Env, h: Hook, response: Response)
    requires h.injectJSONIntoResponse.Some?
    ensures DecodeMap(env.codec, response.body).Object? ==>
      var o := InjectIntoResponse(env, h, response);
      && o.err.None? && !o.skip
      && o.response.body == env.codec.encode(JObj(DecodeMap(env.codec, response.body).fields + h.injectJSONIntoResponse.value))
      && o.response.contentLength == |o.response.body|
      && o.response.header == SetHeaders(response.header, h.injectHeadersIntoResponse)
      && o.response.statusCode == response.statusCode
    ensures DecodeMap(env.codec, response.body).NilMap? && |h.injectJSONIntoResponse.value| == 0 ==>
      var o := InjectIntoResponse(env, h, response);
      && o.err.None? && !o.skip
      && o.response.body == env.codec.encode(JNull)
      && o.response.contentLength == |o.response.body|
      && o.response.header == SetHeaders(response.header, h.injectHeadersIntoResponse)
      && o.response.statusCode == response.statusCode
    ensures DecodeMap(env.codec, response.body).NotAnObject?
            || (DecodeMap(env.codec, response.body).NilMap? && |h.injectJSONIntoResponse.value| > 0) ==>
      InjectIntoResponse(env, h, response) == ModifierOutcome(response, true, Some(ResponseNotJsonError))
  {
  }

  /** An after-hook that rejects turns the upstream response into the rejection: its status, the
      reply headers over the old ones, and the error document as the body (when it is not empty). */
  lemma AfterHookRejectionRewritesResponse(env: Env, h: Hook, request: Request, response: Response, fuel: nat)
    requires h.action == ActionReject && h.rejectionErrorCode.Some? && h.rejectionErrorMessage.Some?
    ensures var reply := MatrixErrorReply(env.codec, RejectionStatus(h), h.rejectionErrorCode.value, h.rejectionErrorMessage.value);
      var o := ApplyModifier(env, AfterHookModifier(h, request), response, fuel);
      && o.err.None? && o.skip == h.skipNextHooksInChain
      && o.response == response.(statusCode := reply.statusCode,
                                 header := response.header + ReplyHeaders(reply),
                                 body := if |reply.payload| > 0 then reply.payload else response.body)
  {
    HandlerTable(h.action);
    var reply := MatrixErrorReply(env.codec, RejectionStatus(h), h.rejectionErrorCode.value, h.rejectionErrorMessage.value);
    assert Handle(env, h, request, Some(response), fuel) == Reject(env, h, request);
    assert RespondAll(BoundState(response, []), [reply]) == BoundRespond(BoundState(response, []), reply);
    RespondThenCommit(response, reply);
  }

  /** An after-hook that fails turns the upstream response into a 503 `M_UNKNOWN` error and stops
      the modifiers after it, without reporting an error to the reverse proxy. */
  lemma AfterHookFailureAnswers503(env: Env, h: Hook, request: Request, response: Response, fuel: nat)
    requires HasHandler(h.action) && Handle(env, h, request, Some(response), fuel).processingError.Some?
    ensures var reply := MatrixErrorReply(env.codec, 503, MatrixUtil.ErrorUnknown, "Afer-hook execution failed, cannot proceed");
      var o := ApplyModifier(env, AfterHookModifier(h, request), response, fuel);
      && o.err.None? && o.skip
      && o.response == response.(statusCode := 503,
                                 header := response.header + ReplyHeaders(reply),
                                 body := if |reply.payload| > 0 then reply.payload else response.body)
  {
    HandleResultShape(env, h, request, Some(response), fuel);
    var reply := MatrixErrorReply(env.codec, 503, MatrixUtil.ErrorUnknown, "Afer-hook execution failed, cannot proceed");
    RespondThenCommit(response, reply);
  }

  /** An after-hook that passes unmodified leaves the upstream response as it was. */
  lemma AfterHookPassLeavesResponse(env: Env, h: Hook, request: Request, response: Response, fuel: nat)
    requires h.action == ActionPassUnmodified
    ensures ApplyModifier(env, AfterHookModifier(h, request), response, fuel) ==
              ModifierOutcome(response, h.skipNextHooksInChain, None)
  {
    HandlerTable(h.action);
    assert Handle(env, h, request, Some(response), fuel) == PassUnmodified(h, request);
  }

  /** An after-hook that modifies the response applies its injection to the upstream response. */
  lemma AfterHookInjectsIntoResponse(env: Env, h: Hook, request: Request, response: Response, fuel: nat)
    requires h.action == ActionPassModifiedResponse && h.injectJSONIntoResponse.Some?
    requires !NothingToInject(h.injectJSONIntoResponse.value, h.injectHeadersIntoResponse)
    ensures var o := ApplyModifier(env, AfterHookModifier(h, request), response, fuel);
      var inject := InjectIntoResponse(env, h, response);
      && o.response == inject.response && o.err == inject.err && o.skip == (inject.skip || inject.err.Some?)
  {
    HandlerTable(h.action);
    assert Handle(env, h, request, Some(response), fuel) == PassModifiedResponse(h, request);
    var nested := RunInjections(env, [InjectResponseModifier(h)], response);
    assert [InjectResponseModifier(h)][1..] == [];
  }
  /** An after-hook that modifies the request reads the drained body. Empty bytes are no JSON
      document, so the handler fails and the upstream response becomes the 503 `M_UNKNOWN` error,
      whatever body the request had when the hook was scheduled. */
  lemma AfterHookModifiedRequestFails(env: Env, h: Hook, request: Request, response: Response, fuel: nat)
    requires IsAfterHook(h) && h.action == ActionPassModifiedRequest && h.injectJSONIntoRequest.Some?
    requires !NothingToInject(h.injectJSONIntoRequest.value, h.injectHeadersIntoResponse)
    requires env.codec.decode([]).None?
    ensures var reply := MatrixErrorReply(env.codec, 503, MatrixUtil.ErrorUnknown, "Afer-hook execution failed, cannot proceed");
      && |Execute(env, h, request, fuel).modifiers| == 1
      && var o := ApplyModifier(env, Execute(env, h, request, fuel).modifiers[0], response, fuel);
      && o.err.None? && o.skip
      && o.response == response.(statusCode := 503,
                                 header := response.header + ReplyHeaders(reply),
                                 body := if |reply.payload| > 0 then reply.payload else response.body)
  {
    HandlerTable(h.action);
    BeforeIsNotAfter(h);
    var seen := RequestAfterProxying(h, request);
    assert seen.body == [];
    assert Execute(env, h, request, fuel).modifiers == [AfterHookModifier(h, seen)];
    assert Handle(env, h, seen, Some(response), fuel) == PassModifiedRequest(env, h, seen);
    assert DecodeMap(env.codec, seen.body).NotAnObject?;
    AfterHookFailureAnswers503(env, h, seen, response, fuel);
  }
}
