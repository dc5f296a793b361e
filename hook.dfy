/** Hooks of the gateway policy (corporal/hook/hook.go): their fields, the known event types and
    actions, validation, request matching and the textual rendering. */
module Hooks {
  import opened Wrappers
  import opened Strings
  import opened Json
  import opened Regex
  import opened Http

  const EventTypeBeforeAnyRequest := "beforeAnyRequest"
  const EventTypeBeforeAuthenticatedRequest := "beforeAuthenticatedRequest"
  const EventTypeBeforeAuthenticatedPolicyCheckedRequest := "beforeAuthenticatedPolicyCheckedRequest"
  const EventTypeBeforeUnauthenticatedRequest := "beforeUnauthenticatedRequest"
  const EventTypeAfterAnyRequest := "afterAnyRequest"
  const EventTypeAfterAuthenticatedRequest := "afterAuthenticatedRequest"
  const EventTypeAfterAuthenticatedPolicyCheckedRequest := "afterAuthenticatedPolicyCheckedRequest"
  const EventTypeAfterUnauthenticatedRequest := "afterUnauthenticatedRequest"

  const KnownEventTypes: seq<string> := [
    EventTypeBeforeAnyRequest,
    EventTypeBeforeAuthenticatedRequest,
    EventTypeBeforeAuthenticatedPolicyCheckedRequest,
    EventTypeBeforeUnauthenticatedRequest,
    EventTypeAfterAnyRequest,
    EventTypeAfterAuthenticatedRequest,
    EventTypeAfterAuthenticatedPolicyCheckedRequest,
    EventTypeAfterUnauthenticatedRequest
  ]

  const ActionConsultRESTServiceURL := "consult.RESTServiceURL"
  const ActionRespond := "respond"
  const ActionReject := "reject"
  const ActionPassUnmodified := "pass.unmodified"
  const ActionPassModifiedRequest := "pass.modifiedRequest"
  const ActionPassModifiedResponse := "pass.modifiedResponse"

  const KnownActions: seq<string> := [
    ActionConsultRESTServiceURL,
    ActionRespond,
    ActionReject,
    ActionPassUnmodified,
    ActionPassModifiedResponse,
    ActionPassModifiedRequest
  ]

  /** The union of the hook fields the gateway code reads. The payload of `respond` is any decoded
      JSON value (JNull when absent); pointer fields are options. */
  datatype Hook = Hook(
    id: string,
    eventType: string,
    routeMatchesRegex: Option<string>,
    routeMatchesRegexCompiled: Option<Regexp>,
    methodMatchesRegex: Option<string>,
    methodMatchesRegexCompiled: Option<Regexp>,
    action: string,
    skipNextHooksInChain: bool,
    restServiceURL: Option<string>,
    responsePayload: Json,
    responseSkipPayloadJSONSerialization: bool,
    responseStatusCode: Option<int>,
    responseContentType: Option<string>,
    rejectionErrorCode: Option<string>,
    rejectionErrorMessage: Option<string>,
    injectJSONIntoRequest: Option<map<string, Json>>,
    injectHeadersIntoRequest: Option<map<string, string>>,
    injectJSONIntoResponse: Option<map<string, Json>>,
    injectHeadersIntoResponse: Option<map<string, string>>)

  predicate IsBeforeHook(h: Hook)
  {
    HasPrefix(h.eventType, "before")
  }

  predicate IsAfterHook(h: Hook)
  {
    HasPrefix(h.eventType, "after")
  }

  /** No event type is both a before- and an after-type. */
  lemma BeforeIsNotAfter(h: Hook)
    ensures !(IsBeforeHook(h) && IsAfterHook(h))
  {
    if IsBeforeHook(h) {
      assert h.eventType[0] == h.eventType[..6][0] == 'b';
    }
  }

  /** The first four known event types are before-types, the last four after-types. */
  lemma KnownEventTypePrefixes()
    ensures forall i :: 0 <= i < 4 ==> HasPrefix(KnownEventTypes[i], "before")
    ensures forall i :: 4 <= i < 8 ==> HasPrefix(KnownEventTypes[i], "after")
  {
    assert EventTypeBeforeAnyRequest[..6] == "before";
    assert EventTypeBeforeAuthenticatedRequest[..6] == "before";
    assert EventTypeBeforeAuthenticatedPolicyCheckedRequest[..6] == "before";
    assert EventTypeBeforeUnauthenticatedRequest[..6] == "before";
    assert EventTypeAfterAnyRequest[..5] == "after";
    assert EventTypeAfterAuthenticatedRequest[..5] == "after";
    assert EventTypeAfterAuthenticatedPolicyCheckedRequest[..5] == "after";
    assert EventTypeAfterUnauthenticatedRequest[..5] == "after";
  }

  /** Every known event type is either a before- or an after-type, never both. */
  lemma KnownEventTypesAreBeforeOrAfter(h: Hook)
    requires h.eventType in KnownEventTypes
    ensures IsBeforeHook(h) != IsAfterHook(h)
  {
    BeforeIsNotAfter(h);
    KnownEventTypePrefixes();
    var i :| 0 <= i < |KnownEventTypes| && KnownEventTypes[i] == h.eventType;
  }

  /** The compiled expression a pattern field yields once it exists, or the field left as it was. */
  function Compiled(pattern: Option<string>, compiled: Option<Regexp>): Option<Regexp>
  {
    if pattern.Some? then Some(Regexp(pattern.value)) else compiled
  }

  /** `ensureInitialized`: compiles the route pattern, then the method pattern, into the compiled
      fields. Go runs it on a copy of the hook (value receivers), so callers discard the result. */
  function EnsureInitialized(e: Engine, h: Hook): (r: Result<Hook, string>)
    ensures r.Ok? <==> ((h.routeMatchesRegex.Some? ==> e.compiles(h.routeMatchesRegex.value))
                        && (h.methodMatchesRegex.Some? ==> e.compiles(h.methodMatchesRegex.value)))
    ensures r.Ok? ==> r.value.routeMatchesRegexCompiled == Compiled(h.routeMatchesRegex, h.routeMatchesRegexCompiled)
    ensures r.Ok? ==> r.value.methodMatchesRegexCompiled == Compiled(h.methodMatchesRegex, h.methodMatchesRegexCompiled)
    ensures r.Ok? ==> r.value.(routeMatchesRegexCompiled := h.routeMatchesRegexCompiled,
                               methodMatchesRegexCompiled := h.methodMatchesRegexCompiled) == h
  {
    var routed: Result<Hook, string> :=
      if h.routeMatchesRegex.None? then Ok(h)
      else match Compile(e, h.routeMatchesRegex.value)
        case Ok(re) => Ok(h.(routeMatchesRegexCompiled := Some(re)))
        case Err(msg) => Err(msg);
    match routed
    case Err(msg) => Err(msg)
    case Ok(h1) =>
      if h1.methodMatchesRegex.None? then Ok(h1)
      else match Compile(e, h1.methodMatchesRegex.value)
        case Ok(re) => Ok(h1.(methodMatchesRegexCompiled := Some(re)))
        case Err(msg) => Err(msg)
  }

  /** `Hook.Validate`: the first failing check, in source order. */
  function Validate(e: Engine, h: Hook): (r: Outcome<string>)
    ensures r.Pass? <==> h.id != "" && h.eventType in KnownEventTypes && h.action in KnownActions
                         && EnsureInitialized(e, h).Ok?
    ensures h.id == "" ==> r == Fail("Hook has no id")
    ensures h.id != "" && h.eventType !in KnownEventTypes ==>
              r == Fail(h.eventType + " is an invalid event type for hook #" + h.id)
    ensures h.id != "" && h.eventType in KnownEventTypes && h.action !in KnownActions ==>
              r == Fail(h.action + " is an invalid action for hook #" + h.id)
  {
    if h.id == "" then Fail("Hook has no id")
    else if h.eventType !in KnownEventTypes then Fail(h.eventType + " is an invalid event type for hook #" + h.id)
    else if h.action !in KnownActions then Fail(h.action + " is an invalid action for hook #" + h.id)
    else match EnsureInitialized(e, h)
      case Err(msg) => Fail("Error when initializing hook #" + h.id + ": " + msg)
      case Ok(_) => Pass
  }

  /** A compiled expression, if any, accepts the text. */
  predicate Allows(e: Engine, re: Option<Regexp>, s: string)
  {
    re.None? || MatchString(e, re.value, s)
  }

  /** `Hook.MatchesRequest`; Err stands for the panic raised when a pattern does not compile. */
  function MatchesRequest(e: Engine, h: Hook, request: Request): (r: Result<bool, string>)
    ensures r.Err? <==> !((h.routeMatchesRegex.Some? ==> e.compiles(h.routeMatchesRegex.value))
                          && (h.methodMatchesRegex.Some? ==> e.compiles(h.methodMatchesRegex.value)))
    ensures r.Ok? ==> (r.value <==>
      && Allows(e, Compiled(h.methodMatchesRegex, h.methodMatchesRegexCompiled), request.httpMethod)
      && Allows(e, Compiled(h.routeMatchesRegex, h.routeMatchesRegexCompiled), request.requestURI))
  {
    match EnsureInitialized(e, h)
    case Err(msg) => Err(msg)
    case Ok(initialized) =>
      if initialized.methodMatchesRegexCompiled.Some?
         && !MatchString(e, initialized.methodMatchesRegexCompiled.value, request.httpMethod) then Ok(false)
      else if initialized.routeMatchesRegexCompiled.Some?
         && !MatchString(e, initialized.routeMatchesRegexCompiled.value, request.requestURI) then Ok(false)
      else Ok(true)
  }

  /** A hook that passed validation never makes matching panic. */
  lemma ValidHookMatchesWithoutPanic(e: Engine, h: Hook, request: Request)
    requires Validate(e, h).Pass?
    ensures MatchesRequest(e, h, request).Ok?
  {
  }

  /** A hook with neither pattern nor compiled expression matches every request. */
  lemma UnconstrainedHookMatchesEverything(e: Engine, h: Hook, request: Request)
    requires h.routeMatchesRegex.None? && h.routeMatchesRegexCompiled.None?
    requires h.methodMatchesRegex.None? && h.methodMatchesRegexCompiled.None?
    ensures MatchesRequest(e, h, request) == Ok(true)
  {
  }

  /** Matching reads the method and the raw request URI only; the parsed path, headers, body and
      user do not matter. */
  lemma MatchReadsMethodAndUri(e: Engine, h: Hook, a: Request, b: Request)
    requires a.httpMethod == b.httpMethod && a.requestURI == b.requestURI
    ensures MatchesRequest(e, h, a) == MatchesRequest(e, h, b)
  {
  }

  /** `Hook.String`: `<Hook #id (action @ eventType)>`. */
  function ToString(h: Hook): (r: string)
    ensures HasPrefix(r, "<Hook #" + h.id + " (" + h.action)
    ensures HasSuffix(r, " @ " + h.eventType + ")>")
    ensures |r| == |h.id| + |h.action| + |h.eventType| + 14
  {
    var r := "<Hook #" + h.id + " (" + h.action + " @ " + h.eventType + ")>";
    assert r == ("<Hook #" + h.id + " (" + h.action) + (" @ " + h.eventType + ")>");
    ConcatHasPrefix("<Hook #" + h.id + " (" + h.action, " @ " + h.eventType + ")>");
    ConcatHasSuffix("<Hook #" + h.id + " (" + h.action, " @ " + h.eventType + ")>");
    r
  }
}
