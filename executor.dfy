/** The hook executor (corporal/hook/executor.go): dispatch on event type and action, the six action
    handlers, and the response modifiers that after-hooks and response injection schedule. */
module Executor {
  import opened Wrappers
  import opened Strings
  import opened Json
  import opened Hex
  import opened Http
  import opened Hooks
  import opened ResponseBoundWriter
  import MatrixUtil

  /** The REST service consultor: the hook a service answers with for a hook, the request and,
      for after-hooks, the upstream response; or the failure to obtain one. */
  type Consultor = (Hook, Request, Option<Response>) -> Result<Hook, string>

  /** What the executor is built with, and the abstract engines it relies on. */
  datatype Env = Env(regex: Regex.Engine, codec: Codec, consult: Consultor)

  /** A scheduled reverse-proxy response modifier: an after-hook to run against the response, with
      the request its handler will see (RequestAfterProxying), or the injection of a
      `pass.modifiedResponse` hook. */
  datatype Modifier =
    | AfterHookModifier(hook: Hook, request: Request)
    | InjectResponseModifier(hook: Hook)

  /** What executing a hook gives. `written` lists the replies sent to the writer the hook was
      given; `request` is the request as the hook left it. */
  datatype ExecutionResult = ExecutionResult(
    hooks: seq<Hook>,
    responseSent: bool,
    skipNextHooksInChain: bool,
    processingError: Option<string>,
    modifiers: seq<Modifier>,
    written: seq<Reply>,
    request: Request)

  predicate NextHooksInChainCanRun(r: ExecutionResult)
  {
    !r.responseSent && r.processingError.None? && !r.skipNextHooksInChain
  }

  function ProcessingErrorResult(h: Hook, request: Request, err: string): (r: ExecutionResult)
    ensures r.processingError == Some(err) && !NextHooksInChainCanRun(r)
    ensures r.written == [] && r.modifiers == [] && r.request == request && r.hooks == [h]
  {
    ExecutionResult([h], false, false, Some(err), [], [], request)
  }

  /** The six action handlers. */
  datatype Handler = ConsultHandler | RejectHandler | RespondHandler | PassUnmodifiedHandler
                   | PassModifiedRequestHandler | PassModifiedResponseHandler

  /** The executor's action-to-handler map. */
  function HandlerOf(action: string): Option<Handler>
  {
    if action == ActionConsultRESTServiceURL then Some(ConsultHandler)
    else if action == ActionReject then Some(RejectHandler)
    else if action == ActionRespond then Some(RespondHandler)
    else if action == ActionPassUnmodified then Some(PassUnmodifiedHandler)
    else if action == ActionPassModifiedRequest then Some(PassModifiedRequestHandler)
    else if action == ActionPassModifiedResponse then Some(PassModifiedResponseHandler)
    else None
  }

  predicate HasHandler(action: string)
  {
    HandlerOf(action).Some?
  }

  /** Exactly the known actions have a handler, each its own. */
  lemma HandlerTable(action: string)
    ensures HasHandler(action) <==> action in KnownActions
    ensures HandlerOf(ActionConsultRESTServiceURL) == Some(ConsultHandler)
    ensures HandlerOf(ActionReject) == Some(RejectHandler)
    ensures HandlerOf(ActionRespond) == Some(RespondHandler)
    ensures HandlerOf(ActionPassUnmodified) == Some(PassUnmodifiedHandler)
    ensures HandlerOf(ActionPassModifiedRequest) == Some(PassModifiedRequestHandler)
    ensures HandlerOf(ActionPassModifiedResponse) == Some(PassModifiedResponseHandler)
  {
  }

  // ---------------------------------------------------------------------------------------------
  // Merging injected keys into maps.

  /** The `for k, v := range inject { target[k] = v }` loop over a non-nil map. */
  method InjectInto<V>(target: map<string, V>, inject: map<string, V>) returns (r: map<string, V>)
    ensures r == target + inject
  {
    r := target;
    var done: set<string> := {};
    while done != inject.Keys
      invariant done <= inject.Keys
      invariant r == target + (map k | k in done :: inject[k])
      decreases |inject.Keys - done|
    {
      var k :| k in inject.Keys - done;
      ghost var before := map j | j in done :: inject[j];
      assert (map j | j in done + {k} :: inject[j]) == before[k := inject[k]];
      r := r[k := inject[k]];
      done := done + {k};
    }
    assert (map j | j in done :: inject[j]) == inject;
  }

  /** Injected keys overwrite same-named keys; every other key keeps its value. */
  lemma InjectedKeysOverwrite<V>(target: map<string, V>, inject: map<string, V>)
    ensures (target + inject).Keys == target.Keys + inject.Keys
    ensures forall k :: k in inject ==> (target + inject)[k] == inject[k]
    ensures forall k :: k in target && k !in inject ==> (target + inject)[k] == target[k]
  {
  }

  /** How `json.Unmarshal` into a `map[string]interface{}` ends: not JSON or not an object is an
      error; JSON `null` leaves a nil map; an object gives its fields. */
  datatype MapDecode = NotAnObject | NilMap | Object(fields: map<string, Json>)

  function DecodeMap(codec: Codec, body: seq<byte>): (d: MapDecode)
    ensures d.Object? <==> codec.decode(body).Some? && codec.decode(body).value.JObj?
    ensures d.NilMap? <==> codec.decode(body) == Some(JNull)
    ensures d.Object? ==> d.fields == codec.decode(body).value.fields
  {
    match codec.decode(body)
    case None => NotAnObject
    case Some(JNull) => NilMap
    case Some(JObj(fields)) => Object(fields)
    case Some(_) => NotAnObject
  }

  /** How a modification ends in the source: the merged document, or a panic. */
  datatype MergeOutcome = Merged(document: Json) | Panicked(reason: string)

  /** The merge as written: writing a key into the nil map that JSON `null` decodes to panics;
      with nothing to inject the nil map is serialised as `null`. */
  function MergeAsWritten(decoded: MapDecode, inject: map<string, Json>): (r: MergeOutcome)
    requires !decoded.NotAnObject?
    ensures decoded.Object? ==> r == Merged(JObj(decoded.fields + inject))
    ensures decoded.NilMap? ==> (r.Panicked? <==> |inject| > 0)
  {
    match decoded
    case Object(fields) => Merged(JObj(fields + inject))
    case NilMap => if |inject| > 0 then Panicked("assignment to entry in nil map") else Merged(JNull)
  }

  /** The merge the handlers evidently intend: it does what the written merge does, except that
      a `null` body with keys to inject is an error instead of a panic; a body that is not JSON
      or not an object is an error, as in the source. */
  function MergeIntended(decoded: MapDecode, inject: map<string, Json>): (r: Option<Json>)
    ensures r.Some? <==> decoded.Object? || (decoded.NilMap? && |inject| == 0)
    ensures decoded.Object? ==> r == Some(JObj(decoded.fields + inject))
    ensures decoded.NilMap? && |inject| == 0 ==> r == Some(JNull)
  {
    match decoded
    case Object(fields) => Some(JObj(fields + inject))
    case NilMap => if |inject| == 0 then Some(JNull) else None
    case NotAnObject => None
  }

  /** A JSON `null` body with something to inject makes the merge as written panic, where the
      intended merge reports an error. */
  lemma NullBodyPanics(codec: Codec, body: seq<byte>, inject: map<string, Json>)
    requires codec.decode(body) == Some(JNull) && |inject| > 0
    ensures MergeAsWritten(DecodeMap(codec, body), inject).Panicked?
    ensures MergeIntended(DecodeMap(codec, body), inject).None?
  {
  }

  /** The two merges agree wherever the written one does not panic: the intended merge gives a
      document exactly when the written one merges, and it is the same document. */
  lemma MergesAgreeUnlessPanic(decoded: MapDecode, inject: map<string, Json>)
    requires !decoded.NotAnObject?
    ensures MergeAsWritten(decoded, inject).Merged? <==> MergeIntended(decoded, inject).Some?
    ensures MergeAsWritten(decoded, inject).Merged? ==>
              MergeAsWritten(decoded, inject) == Merged(MergeIntended(decoded, inject).value)
  {
  }

  const RequestNotJsonError := "Failed to interpret original response body as JSON: Cannot understand request body payload (not JSON)"
  const ResponseNotJsonError := "cannot understand response body payload (not JSON)"

  /** Headers set one by one with `Header.Set`. */
  function SetHeaders(header: Header, inject: Option<map<string, string>>): Header
  {
    if inject.Some? then header + inject.value else header
  }

  /** Nothing to inject: the JSON map is empty and there are no response headers. */
  predicate NothingToInject(inject: map<string, Json>, responseHeaders: Option<map<string, string>>)
  {
    |inject| == 0 && (responseHeaders.None? || |responseHeaders.value| == 0)
  }

  // ---------------------------------------------------------------------------------------------
  // The action handlers.

  function Reject(env: Env, h: Hook, request: Request): ExecutionResult
  {
    if h.rejectionErrorCode.None? then ProcessingErrorResult(h, request, "A rejection error code is required")
    else if h.rejectionErrorMessage.None? then ProcessingErrorResult(h, request, "A rejection error message is required")
    else
      var status := if h.responseStatusCode.Some? then h.responseStatusCode.value else 403;
      ExecutionResult([h], true, h.skipNextHooksInChain, None, [],
                      [MatrixErrorReply(env.codec, status, h.rejectionErrorCode.value, h.rejectionErrorMessage.value)],
                      request)
  }

  /** The content type a `respond` hook answers with. */
  function ResponseContentType(h: Hook): string
  {
    if h.responseContentType.Some? then h.responseContentType.value else ContentTypeJson
  }

  function Respond(env: Env, h: Hook, request: Request): ExecutionResult
  {
    if h.responseStatusCode.None? then ProcessingErrorResult(h, request, "A response status code is required")
    else
      var contentType := ResponseContentType(h);
      if contentType != ContentTypeJson || h.responseSkipPayloadJSONSerialization then
        if !h.responsePayload.JStr? then ProcessingErrorResult(h, request, "Could not interpret payload as string")
        else ExecutionResult([h], true, h.skipNextHooksInChain, None, [],
                             [Reply(h.responseStatusCode.value, contentType, env.codec.utf8(h.responsePayload.s))], request)
      else
        ExecutionResult([h], true, h.skipNextHooksInChain, None, [],
                        [Reply(h.responseStatusCode.value, contentType, env.codec.encode(h.responsePayload))], request)
  }

  function PassUnmodified(h: Hook, request: Request): ExecutionResult
  {
    ExecutionResult([h], false, h.skipNextHooksInChain, None, [], [], request)
  }

  function PassModifiedRequest(env: Env, h: Hook, request: Request): ExecutionResult
  {
    if h.injectJSONIntoRequest.None? then ProcessingErrorResult(h, request, "injectJSONIntoRequest information is required")
    else if NothingToInject(h.injectJSONIntoRequest.value, h.injectHeadersIntoResponse) then PassUnmodified(h, request)
    else match MergeIntended(DecodeMap(env.codec, request.body), h.injectJSONIntoRequest.value)
      case None => ProcessingErrorResult(h, request, RequestNotJsonError)
      case Some(document) =>
        var body := env.codec.encode(document);
        var modified := request.(body := body, contentLength := |body|,
                                 header := SetHeaders(request.header, h.injectHeadersIntoRequest));
        ExecutionResult([h], false, h.skipNextHooksInChain, None, [], [], modified)
  }

  /** Before- and typeless hooks run at once; after-hooks are deferred. */
  predicate RunsNow(h: Hook)
  {
    IsBeforeHook(h) || !IsAfterHook(h)
  }

  function PassModifiedResponse(h: Hook, request: Request): ExecutionResult
  {
    if h.injectJSONIntoResponse.None? then ProcessingErrorResult(h, request, "injectJSONIntoResponse information is required")
    else if NothingToInject(h.injectJSONIntoResponse.value, h.injectHeadersIntoResponse) then PassUnmodified(h, request)
    else ExecutionResult([h], false, h.skipNextHooksInChain, None, [InjectResponseModifier(h)], [], request)
  }

  /** The hook a REST service answered with, made typeless and named after its origin when unnamed. */
  function ConsultedHook(origin: Hook, answer: Hook): (r: Hook)
    ensures r.eventType == ""
    ensures r.id == (if answer.id == "" then origin.id + "-unnamed-response" else answer.id)
    ensures r.action == answer.action
  {
    answer.(id := if answer.id == "" then origin.id + "-unnamed-response" else answer.id, eventType := "")
  }

  /** The error of an after-hook whose service answered with a request modification. */
  function AfterHookModifiesRequestError(h: Hook, answer: Hook): string
  {
    "An after hook (" + ToString(h) + ") yielded a request-modification hook: " + ToString(answer)
    + ". It makes no sense - it's already too late to modify the request"
  }

  /** `executeActionConsultRESTServiceURL`; `fuel` bounds how many consulted hooks may in turn
      consult a service. */
  function ConsultRESTServiceURL(env: Env, h: Hook, request: Request, response: Option<Response>, fuel: nat): ExecutionResult
    decreases fuel, 0
  {
    if h.restServiceURL.None? then ProcessingErrorResult(h, request, "A RESTServiceURL is required")
    else match env.consult(h, request, response)
      case Err(msg) => ProcessingErrorResult(h, request, msg)
      case Ok(answer) =>
        var next := ConsultedHook(h, answer);
        if IsAfterHook(h) && next.action == ActionPassModifiedRequest then
          ProcessingErrorResult(h, request, AfterHookModifiesRequestError(h, next))
        else if fuel == 0 then ProcessingErrorResult(h, request, "REST service consultation depth exhausted")
        else Execute(env, next, request, fuel - 1).(hooks := [h])
  }

  /** The handler of the hook's action, run with the given writer's view of the response. */
  function Handle(env: Env, h: Hook, request: Request, response: Option<Response>, fuel: nat): ExecutionResult
    requires HasHandler(h.action)
    decreases fuel, 1
  {
    match HandlerOf(h.action).value
    case ConsultHandler => ConsultRESTServiceURL(env, h, request, response, fuel)
    case RejectHandler => Reject(env, h, request)
    case RespondHandler => Respond(env, h, request)
    case PassUnmodifiedHandler => PassUnmodified(h, request)
    case PassModifiedRequestHandler => PassModifiedRequest(env, h, request)
    case PassModifiedResponseHandler => PassModifiedResponse(h, request)
  }

  /** The request an after-hook's handler sees. By then the reverse proxy has forwarded the request
      upstream, which drains its body. The body is captured when the hook is scheduled and put back
      only for `consult.RESTServiceURL`, so every other action reads an empty body. The content
      length is left as it was, since the source does not touch it. */
  function RequestAfterProxying(h: Hook, request: Request): Request
  {
    if h.action == ActionConsultRESTServiceURL then request else request.(body := [])
  }

  /** `Execute`: an unknown action is a processing error; a before- or typeless hook runs now; an
      after-hook runs nothing now and schedules exactly one modifier. */
  function Execute(env: Env, h: Hook, request: Request, fuel: nat): ExecutionResult
    decreases fuel, 2
  {
    if !HasHandler(h.action) then ProcessingErrorResult(h, request, "Missing handler for hook action = " + h.action)
    else if IsBeforeHook(h) then Handle(env, h, request, None, fuel)
    else if IsAfterHook(h) then ExecutionResult([], false, false, None, [AfterHookModifier(h, RequestAfterProxying(h, request))], [], request)
    else Handle(env, h, request, None, fuel)
  }

  // ---------------------------------------------------------------------------------------------
  // Running scheduled modifiers.

  /** The outcome of a response modifier with the `(skipNextModifiers, error)` signature. */
  datatype ModifierOutcome = ModifierOutcome(response: Response, skip: bool, err: Option<string>)

  /** The injection scheduled by `pass.modifiedResponse`: a body that is not a key-value object is
      an error; otherwise the keys are merged, the body, its length and the headers replaced. */
  function InjectIntoResponse(env: Env, h: Hook, response: Response): (o: ModifierOutcome)
    requires h.injectJSONIntoResponse.Some?
  {
    match MergeIntended(DecodeMap(env.codec, response.body), h.injectJSONIntoResponse.value)
    case None => ModifierOutcome(response, true, Some(ResponseNotJsonError))
    case Some(document) =>
      var body := env.codec.encode(document);
      ModifierOutcome(response.(body := body, contentLength := |body|,
                                header := SetHeaders(response.header, h.injectHeadersIntoResponse)), false, None)
  }

  /** Every modifier a handler schedules is an injection of a hook that has something to inject. */
  predicate OnlyInjections(modifiers: seq<Modifier>)
  {
    forall i :: 0 <= i < |modifiers| ==> modifiers[i].InjectResponseModifier? && modifiers[i].hook.injectJSONIntoResponse.Some?
  }

  /** What every handler result looks like: it is attributed to the hook itself, at most one reply
      is written and exactly when the response counts as sent, a processing error writes and
      schedules nothing, and the only modifiers scheduled are response injections (consulted
      hooks are typeless, so no after-hook is ever scheduled from within a handler). */
  lemma {:induction false} HandleResultShape(env: Env, h: Hook, request: Request, response: Option<Response>, fuel: nat)
    requires HasHandler(h.action)
    ensures WellShaped(h, Handle(env, h, request, response, fuel))
    decreases fuel, 2
  {
    match HandlerOf(h.action).value
    case ConsultHandler => ConsultResultShape(env, h, request, response, fuel);
    case RejectHandler => RejectShape(env, h, request);
    case RespondHandler => RespondShape(env, h, request);
    case PassUnmodifiedHandler =>
    case PassModifiedRequestHandler => PassModifiedRequestShape(env, h, request);
    case PassModifiedResponseHandler => PassModifiedResponseShape(h, request);
  }

  lemma {:induction false} ConsultResultShape(env: Env, h: Hook, request: Request, response: Option<Response>, fuel: nat)
    ensures WellShaped(h, ConsultRESTServiceURL(env, h, request, response, fuel))
    decreases fuel, 1
  {
    if h.restServiceURL.Some? && env.consult(h, request, response).Ok? {
      var next := ConsultedHook(h, env.consult(h, request, response).value);
      if !(IsAfterHook(h) && next.action == ActionPassModifiedRequest) && fuel > 0 {
        ExecuteShape(env, next, request, fuel - 1);
      }
    }
  }

  /** A typeless hook's result is shaped like a handler's, if attributed to that hook. */
  lemma {:induction false} ExecuteShape(env: Env, next: Hook, request: Request, fuel: nat)
    requires next.eventType == ""
    ensures WellShaped(next, Execute(env, next, request, fuel))
    decreases fuel, 3
  {
    if HasHandler(next.action) {
      assert !IsBeforeHook(next) && !IsAfterHook(next);
      HandleResultShape(env, next, request, None, fuel);
    }
  }

  lemma RejectShape(env: Env, h: Hook, request: Request)
    ensures WellShaped(h, Reject(env, h, request))
  {
  }

  lemma RespondShape(env: Env, h: Hook, request: Request)
    ensures WellShaped(h, Respond(env, h, request))
  {
  }

  lemma PassModifiedRequestShape(env: Env, h: Hook, request: Request)
    ensures WellShaped(h, PassModifiedRequest(env, h, request))
  {
  }

  lemma PassModifiedResponseShape(h: Hook, request: Request)
    ensures WellShaped(h, PassModifiedResponse(h, request))
  {
  }

  predicate WellShaped(h: Hook, r: ExecutionResult)
  {
    && r.hooks == [h]
    && |r.written| <= 1
    && (r.responseSent <==> |r.written| == 1)
    && (r.processingError.Some? ==> r.written == [] && r.modifiers == [])
    && (r.responseSent ==> r.modifiers == [])
    && OnlyInjections(r.modifiers)
  }

  /** The nested loop of the after-hook modifier over the modifiers its handler scheduled. */
  function RunInjections(env: Env, modifiers: seq<Modifier>, response: Response): (o: ModifierOutcome)
    requires OnlyInjections(modifiers)
    ensures |modifiers| == 0 ==> o == ModifierOutcome(response, false, None)
    ensures o.err.Some? ==> o.skip
    decreases |modifiers|
  {
    if |modifiers| == 0 then ModifierOutcome(response, false, None)
    else
      var first := InjectIntoResponse(env, modifiers[0].hook, response);
      if first.err.Some? then ModifierOutcome(first.response, true, first.err)
      else if first.skip then ModifierOutcome(first.response, true, None)
      else RunInjections(env, modifiers[1..], first.response)
  }

  /** The replies a handler sent, issued against the response-bound writer in order. */
  function RespondAll(s: BoundState, replies: seq<Reply>): BoundState
    decreases |replies|
  {
    if |replies| == 0 then s else RespondAll(BoundRespond(s, replies[0]), replies[1..])
  }

  /** The after-hook modifier: the handler runs against the response through a response-bound
      writer that is committed on the way out, whatever the exit. */
  function RunAfterHook(env: Env, h: Hook, request: Request, response: Response, fuel: nat): (o: ModifierOutcome)
    requires HasHandler(h.action)
  {
    var result := Handle(env, h, request, Some(response), fuel);
    var bound := RespondAll(BoundState(response, []), result.written);
    if result.processingError.Some? then
      var failed := BoundRespond(bound, MatrixErrorReply(env.codec, 503, MatrixUtil.ErrorUnknown, "Afer-hook execution failed, cannot proceed"));
      ModifierOutcome(BoundCommit(failed).response, true, None)
    else if |result.modifiers| != 0 then
      HandleResultShape(env, h, request, Some(response), fuel);
      var nested := RunInjections(env, result.modifiers, bound.response);
      ModifierOutcome(BoundCommit(BoundState(nested.response, bound.buffer)).response, nested.skip, nested.err)
    else
      ModifierOutcome(BoundCommit(bound).response, result.skipNextHooksInChain, None)
  }

  /** Runs one scheduled modifier against the upstream response. */
  function ApplyModifier(env: Env, m: Modifier, response: Response, fuel: nat): ModifierOutcome
  {
    match m
    case InjectResponseModifier(h) =>
      if h.injectJSONIntoResponse.Some? then InjectIntoResponse(env, h, response)
      else ModifierOutcome(response, true, Some("injectJSONIntoResponse information is required"))
    case AfterHookModifier(h, request) =>
      if HasHandler(h.action) then RunAfterHook(env, h, request, response, fuel)
      else ModifierOutcome(response, true, Some("Missing handler for hook action = " + h.action))
  }
}
