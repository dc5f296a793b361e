/** The login handler of the gateway (corporal/httpgateway/handler/login.go): the hooks of an
    unauthenticated request run first, then the login interceptor decides whether the request is
    refused or proxied, possibly rewritten, to the homeserver. */
module LoginHandler {
  import opened Wrappers
  import opened Http
  import opened Policies
  import opened Hooks
  import opened HookStages
  import opened Interceptors
  import MatrixUtil

  /** `hooksToRun`: a login request never counts as authenticated. */
  const LoginStages: seq<string> := [
    EventTypeBeforeAnyRequest,
    EventTypeBeforeUnauthenticatedRequest,
    EventTypeAfterAnyRequest,
    EventTypeAfterUnauthenticatedRequest]

  /** `Interceptor.Intercept`: the verdict, and the request as the interceptor leaves it. */
  type Intercept = Request -> Interception

  /** What the handler does once the hooks have let the request through. */
  function AfterHooks(env: Executor.Env, p: Pipeline, intercept: Intercept): (s: Served)
    requires p.Running?
    ensures intercept(p.request).response.result == Deny ==>
              s == Answered(p.written + [MatrixErrorReply(env.codec, 403, intercept(p.request).response.errorCode,
                                                                    intercept(p.request).response.errorMessage)], p.ran)
    ensures intercept(p.request).response.result == Proxy ==>
              s.Proxied? && s.request == intercept(p.request).request && s.written == p.written && s.ran == p.ran
              && s.modifyResponse == ModifyResponse(p.modifiers)
  {
    var interception := intercept(p.request);
    if interception.response.result == Deny then
      Answered(p.written + [MatrixErrorReply(env.codec, 403, interception.response.errorCode, interception.response.errorMessage)], p.ran)
    else
      Proxied(p.written, p.ran, interception.request, ModifyResponse(p.modifiers))
  }

  /** The handler as a function of the policy the hooks read. */
  function Login(env: Executor.Env, policy: Option<Policy>, intercept: Intercept, request: Request, fuel: nat): Served
  {
    var p := RunStages(env, policy, Begin(request), LoginStages, fuel);
    if p.Running? then AfterHooks(env, p, intercept) else Stop(p)
  }

  /** The handler: the loop over the hook stages with its early return, then the interceptor. */
  method ServeLogin(env: Executor.Env, policy: Option<Policy>, intercept: Intercept, request: Request, fuel: nat) returns (s: Served)
    ensures s == Login(env, policy, intercept, request, fuel)
  {
    var p := Begin(request);
    var i := 0;
    while i < |LoginStages|
      invariant 0 <= i <= |LoginStages|
      invariant p.Running?
      invariant RunStages(env, policy, p, LoginStages[i..], fuel) == RunStages(env, policy, Begin(request), LoginStages, fuel)
    {
      RunStagesFrom(env, policy, p, LoginStages, i, fuel);
      p := RunStage(env, policy, p, LoginStages[i], fuel);
      if !p.Running? {
        return Stop(p);
      }
      i := i + 1;
    }
    assert LoginStages[i..] == [];
    s := AfterHooks(env, p, intercept);
  }

  /** The interceptor is consulted only after all four stages let the request through, and the
      request it sees is the one the hooks left; a refusal is a 403 with the interceptor's code and
      message after what the hooks wrote; proxying forwards the request as the interceptor left
      it. When the hooks stop the request, they stopped it at the last stage in its trace and the
      interceptor is not consulted. */
  lemma LoginOutcomes(env: Executor.Env, policy: Option<Policy>, intercept: Intercept, request: Request, fuel: nat)
    returns (k: nat)
    ensures var p := RunStages(env, policy, Begin(request), LoginStages, fuel);
            var s := Login(env, policy, intercept, request, fuel);
            && 1 <= k <= 4 && p.ran == LoginStages[..k]
            && (p.Running? ==> k == 4 && s == AfterHooks(env, p, intercept))
            && (!p.Running? ==> s == Stop(p) && s.ran == LoginStages[..k])
  {
    k := StagesRunInOrder(env, policy, Begin(request), LoginStages, fuel);
  }

  /** A login request never runs the hooks of authenticated or policy-checked requests. */
  lemma {:induction false} LoginRunsNoAuthenticatedHooks(env: Executor.Env, policy: Option<Policy>, intercept: Intercept, request: Request, fuel: nat)
    ensures var s := Login(env, policy, intercept, request, fuel);
            && !s.Preflight?
            && EventTypeBeforeAuthenticatedRequest !in s.ran && EventTypeAfterAuthenticatedRequest !in s.ran
            && EventTypeBeforeAuthenticatedPolicyCheckedRequest !in s.ran && EventTypeAfterAuthenticatedPolicyCheckedRequest !in s.ran
  {
    var k := LoginOutcomes(env, policy, intercept, request, fuel);
    var s := Login(env, policy, intercept, request, fuel);
    assert s.ran == LoginStages[..k];
    assert forall t :: t in LoginStages[..k] ==> t in LoginStages;
    LoginStagesUnauthenticated();
  }

  /** None of the login stages is an authenticated or policy-checked one. */
  lemma LoginStagesUnauthenticated()
    ensures EventTypeBeforeAuthenticatedRequest !in LoginStages && EventTypeAfterAuthenticatedRequest !in LoginStages
    ensures EventTypeBeforeAuthenticatedPolicyCheckedRequest !in LoginStages && EventTypeAfterAuthenticatedPolicyCheckedRequest !in LoginStages
  {
    // The event types have different lengths, which tells them apart.
    assert |EventTypeBeforeAnyRequest| == 16 && |EventTypeBeforeUnauthenticatedRequest| == 28;
    assert |EventTypeAfterAnyRequest| == 15 && |EventTypeAfterUnauthenticatedRequest| == 27;
    assert |EventTypeBeforeAuthenticatedRequest| == 26 && |EventTypeAfterAuthenticatedRequest| == 25;
    assert |EventTypeBeforeAuthenticatedPolicyCheckedRequest| == 39 && |EventTypeAfterAuthenticatedPolicyCheckedRequest| == 38;
  }

  /** Only a request the interceptor approved after all four stages reaches the homeserver. */
  lemma ProxiedOnlyWhenApproved(env: Executor.Env, policy: Option<Policy>, intercept: Intercept, request: Request, fuel: nat)
    requires Login(env, policy, intercept, request, fuel).Proxied?
    ensures var p := RunStages(env, policy, Begin(request), LoginStages, fuel);
            && p.Running? && p.ran == LoginStages
            && intercept(p.request).response.result == Proxy
            && Login(env, policy, intercept, request, fuel).request == intercept(p.request).request
  {
    var k := LoginOutcomes(env, policy, intercept, request, fuel);
  }
}
