/** The hook runner (corporal/httpgateway/hookrunner/hook_runner.go): runs, in policy order, every
    hook of one event type that matches the request, until one of them ends the chain. */
module HookRunner {
  import opened Wrappers
  import opened Http
  import opened Hooks
  import opened Executor
  import opened Policies
  import MatrixUtil

  /** What running a chain gives; `MatchPanicked` stands for the panic a hook whose pattern does not
      compile raises while being matched. */
  datatype RunOutcome = Completed(result: ExecutionResult) | MatchPanicked(reason: string)

  const PolicyMissingMessage := "Policy does not exist (yet), cannot proceed"
  const HookFailedMessage := "Hook execution failed, cannot proceed"

  /** `runHook`: executes the hook; a processing error is answered with a 503 Matrix error and
      counts as having sent a response. */
  function RunHook(env: Env, h: Hook, request: Request, fuel: nat): (r: ExecutionResult)
    ensures r.processingError.Some? ==>
              r.responseSent && r.written != [] && r.written[|r.written| - 1] ==
                MatrixErrorReply(env.codec, 503, MatrixUtil.ErrorUnknown, HookFailedMessage)
    ensures r.processingError == Execute(env, h, request, fuel).processingError
    ensures r.modifiers == Execute(env, h, request, fuel).modifiers && r.request == Execute(env, h, request, fuel).request
    ensures r.processingError.None? ==> r == Execute(env, h, request, fuel)
  {
    var result := Execute(env, h, request, fuel);
    if result.processingError.Some? then
      result.(written := result.written + [MatrixErrorReply(env.codec, 503, MatrixUtil.ErrorUnknown, HookFailedMessage)],
              responseSent := true)
    else result
  }

  /** The chain so far: executed hooks, accumulated modifiers and writes, and the request as the
      executed hooks left it. */
  function Start(request: Request): ExecutionResult
  {
    ExecutionResult([], false, false, None, [], [], request)
  }

  /** One executed hook added to the chain so far. */
  function Extend(acc: ExecutionResult, h: Hook, r: ExecutionResult): ExecutionResult
  {
    ExecutionResult(acc.hooks + [h], r.responseSent, false, r.processingError,
                    acc.modifiers + r.modifiers, acc.written + r.written, r.request)
  }

  /** The loop of `RunAllMatchingType` over the remaining policy hooks. */
  function RunFrom(env: Env, hooks: seq<Hook>, eventType: string, acc: ExecutionResult, fuel: nat): RunOutcome
    decreases |hooks|
  {
    if hooks == [] then Completed(acc.(responseSent := false, skipNextHooksInChain := false, processingError := None))
    else if hooks[0].eventType != eventType then RunFrom(env, hooks[1..], eventType, acc, fuel)
    else match MatchesRequest(env.regex, hooks[0], acc.request)
      case Err(reason) => MatchPanicked(reason)
      case Ok(matches) =>
        if !matches then RunFrom(env, hooks[1..], eventType, acc, fuel)
        else
          var r := RunHook(env, hooks[0], acc.request, fuel);
          if !NextHooksInChainCanRun(r) then Completed(Extend(acc, hooks[0], r))
          else RunFrom(env, hooks[1..], eventType, Extend(acc, hooks[0], r), fuel)
  }

  /** `RunAllMatchingType` as a function of the policy in the store. */
  function RunAll(env: Env, policy: Option<Policy>, eventType: string, request: Request, fuel: nat): RunOutcome
  {
    if policy.None? then
      Completed(ExecutionResult([], true, false, None, [],
                                [MatrixErrorReply(env.codec, 503, MatrixUtil.ErrorUnknown, PolicyMissingMessage)], request))
    else RunFrom(env, policy.value.hooks, eventType, Start(request), fuel)
  }

  /** `RunAllMatchingType`: the loop over the policy's hooks with its early return. */
  method RunAllMatchingType(env: Env, policy: Option<Policy>, eventType: string, request: Request, fuel: nat) returns (o: RunOutcome)
    ensures o == RunAll(env, policy, eventType, request, fuel)
  {
    if policy.None? {
      return Completed(ExecutionResult([], true, false, None, [],
                                       [MatrixErrorReply(env.codec, 503, MatrixUtil.ErrorUnknown, PolicyMissingMessage)], request));
    }
    var hooks := policy.value.hooks;
    var executedHooks: seq<Hook> := [];
    var modifiers: seq<Modifier> := [];
    var written: seq<Reply> := [];
    var current := request;
    var i := 0;
    while i < |hooks|
      invariant 0 <= i <= |hooks|
      invariant RunFrom(env, hooks[i..], eventType, ExecutionResult(executedHooks, false, false, None, modifiers, written, current), fuel)
                == RunAll(env, policy, eventType, request, fuel)
    {
      var h := hooks[i];
      assert hooks[i..][1..] == hooks[i + 1..];
      if h.eventType != eventType {
        i := i + 1;
        continue;
      }
      var matches := MatchesRequest(env.regex, h, current);
      if matches.Err? {
        return MatchPanicked(matches.error);
      }
      if !matches.value {
        i := i + 1;
        continue;
      }
      executedHooks := executedHooks + [h];
      var result := RunHook(env, h, current, fuel);
      modifiers := modifiers + result.modifiers;
      written := written + result.written;
      current := result.request;
      if !NextHooksInChainCanRun(result) {
        return Completed(ExecutionResult(executedHooks, result.responseSent, false, result.processingError, modifiers, written, current));
      }
      i := i + 1;
    }
    assert hooks[i..] == [];
    return Completed(ExecutionResult(executedHooks, false, false, None, modifiers, written, current));
  }

  /** `a` occurs in `b` in order, possibly with gaps. */
  predicate Subsequence<T(==)>(a: seq<T>, b: seq<T>)
    decreases |b|
  {
    if a == [] then true
    else if b == [] then false
    else if a[0] == b[0] then Subsequence(a[1..], b[1..])
    else Subsequence(a, b[1..])
  }

  lemma {:induction false} SubsequenceDropHead<T>(a: seq<T>, b: seq<T>)
    requires a != [] && Subsequence(a, b)
    ensures Subsequence(a[1..], b)
    decreases |b|, 0
  {
    if a[0] != b[0] {
      SubsequenceDropHead(a, b[1..]);
      SubsequenceCons(a[1..], b[1..], b[0]);
      assert [b[0]] + b[1..] == b;
    } else {
      SubsequenceCons(a[1..], b[1..], b[0]);
      assert [b[0]] + b[1..] == b;
    }
  }

  /** Adding an element in front of the larger sequence keeps a subsequence a subsequence. */
  lemma {:induction false} SubsequenceCons<T>(a: seq<T>, b: seq<T>, x: T)
    requires Subsequence(a, b)
    ensures Subsequence(a, [x] + b)
    decreases |b|, 1
  {
    assert ([x] + b)[1..] == b;
    if a != [] && a[0] == x {
      SubsequenceDropHead(a, b);
    }
  }

  /** The hooks of one event type, in order. */
  function OfType(hooks: seq<Hook>, eventType: string): (s: seq<Hook>)
    ensures forall i :: 0 <= i < |s| ==> s[i].eventType == eventType
    decreases |hooks|
  {
    if hooks == [] then []
    else if hooks[0].eventType == eventType then [hooks[0]] + OfType(hooks[1..], eventType)
    else OfType(hooks[1..], eventType)
  }

  /** Only hooks of the requested type run, in policy order, after the ones already executed; the
      modifiers and writes of earlier hooks are kept in front of later ones. */
  lemma {:induction false} RunsHooksOfTypeInOrder(env: Env, hooks: seq<Hook>, eventType: string, acc: ExecutionResult, fuel: nat)
    requires RunFrom(env, hooks, eventType, acc, fuel).Completed?
    ensures var r := RunFrom(env, hooks, eventType, acc, fuel).result;
            && |acc.hooks| <= |r.hooks| && r.hooks[..|acc.hooks|] == acc.hooks
            && Subsequence(r.hooks[|acc.hooks|..], OfType(hooks, eventType))
            && |acc.modifiers| <= |r.modifiers| && r.modifiers[..|acc.modifiers|] == acc.modifiers
            && |acc.written| <= |r.written| && r.written[..|acc.written|] == acc.written
    decreases |hooks|
  {
    if hooks == [] {
      assert RunFrom(env, hooks, eventType, acc, fuel).result.hooks[|acc.hooks|..] == [];
    } else {
      var h := hooks[0];
      var rest := hooks[1..];
      var r := RunFrom(env, hooks, eventType, acc, fuel).result;
      if h.eventType != eventType {
        RunsHooksOfTypeInOrder(env, rest, eventType, acc, fuel);
      } else {
        var m := MatchesRequest(env.regex, h, acc.request);
        assert OfType(hooks, eventType) == [h] + OfType(rest, eventType);
        if !m.value {
          RunsHooksOfTypeInOrder(env, rest, eventType, acc, fuel);
          SubsequenceCons(r.hooks[|acc.hooks|..], OfType(rest, eventType), h);
        } else {
          var step := RunHook(env, h, acc.request, fuel);
          var next := Extend(acc, h, step);
          if !NextHooksInChainCanRun(step) {
            assert r == next;
            assert r.hooks[|acc.hooks|..] == [h];
            assert Subsequence([h][1..], OfType(rest, eventType));
          } else {
            RunsHooksOfTypeInOrder(env, rest, eventType, next, fuel);
            assert r.hooks[..|next.hooks|][..|acc.hooks|] == acc.hooks;
            assert r.modifiers[..|next.modifiers|][..|acc.modifiers|] == acc.modifiers;
            assert r.written[..|next.written|][..|acc.written|] == acc.written;
            var tail := r.hooks[|acc.hooks|..];
            assert tail[0] == h && tail[1..] == r.hooks[|next.hooks|..];
          }
        }
      }
    }
  }

  /** A chain that ends with a sent response or a processing error ended at the hook it last
      executed; a processing error always comes with the 503 answer of the runner. A chain that
      ran to its end reports neither. */
  lemma {:induction false} ChainEndsAtTerminalHook(env: Env, hooks: seq<Hook>, eventType: string, acc: ExecutionResult, fuel: nat)
    requires RunFrom(env, hooks, eventType, acc, fuel).Completed?
    ensures var r := RunFrom(env, hooks, eventType, acc, fuel).result;
            && !r.skipNextHooksInChain
            && (r.processingError.Some? ==>
                  r.responseSent && r.written != []
                  && r.written[|r.written| - 1] == MatrixErrorReply(env.codec, 503, MatrixUtil.ErrorUnknown, HookFailedMessage))
            && ((r.responseSent || r.processingError.Some?) ==> |r.hooks| > |acc.hooks|)
    decreases |hooks|
  {
    if hooks != [] {
      var h := hooks[0];
      var rest := hooks[1..];
      if h.eventType != eventType {
        ChainEndsAtTerminalHook(env, rest, eventType, acc, fuel);
      } else if !MatchesRequest(env.regex, h, acc.request).value {
        ChainEndsAtTerminalHook(env, rest, eventType, acc, fuel);
      } else {
        var step := RunHook(env, h, acc.request, fuel);
        var next := Extend(acc, h, step);
        if NextHooksInChainCanRun(step) {
          ChainEndsAtTerminalHook(env, rest, eventType, next, fuel);
        } else if step.processingError.Some? {
          assert next.written[|next.written| - 1] == step.written[|step.written| - 1];
        }
      }
    }
  }

  /** Without a policy the runner answers 503, counts the response as sent and runs no hook. */
  lemma MissingPolicyAnswers503(env: Env, eventType: string, request: Request, fuel: nat)
    ensures var o := RunAll(env, None, eventType, request, fuel);
            && o.Completed? && o.result.responseSent && o.result.hooks == [] && o.result.modifiers == []
            && o.result.written == [MatrixErrorReply(env.codec, 503, MatrixUtil.ErrorUnknown, PolicyMissingMessage)]
  {
  }

  /** Every hook of an after-type that has a handler and matches the request runs; none of them
      ends the chain, nothing is written and each schedules its after-hook modifier. */
  lemma {:induction false} AfterHooksAllRun(env: Env, hooks: seq<Hook>, eventType: string, acc: ExecutionResult, fuel: nat)
    requires forall i :: 0 <= i < |hooks| && hooks[i].eventType == eventType ==>
               IsAfterHook(hooks[i]) && HasHandler(hooks[i].action) && MatchesRequest(env.regex, hooks[i], acc.request) == Ok(true)
    ensures RunFrom(env, hooks, eventType, acc, fuel).Completed?
    ensures var r := RunFrom(env, hooks, eventType, acc, fuel).result;
            && r.hooks == acc.hooks + OfType(hooks, eventType)
            && !r.responseSent && r.processingError.None? && r.written == acc.written && r.request == acc.request
            && |r.modifiers| == |acc.modifiers| + |OfType(hooks, eventType)|
    decreases |hooks|
  {
    if hooks == [] {
    } else {
      var h := hooks[0];
      var rest := hooks[1..];
      assert forall i :: 0 <= i < |rest| ==> rest[i] == hooks[i + 1];
      if h.eventType != eventType {
        AfterHooksAllRun(env, rest, eventType, acc, fuel);
      } else {
        BeforeIsNotAfter(h);
        var step := RunHook(env, h, acc.request, fuel);
        assert step == ExecutionResult([], false, false, None, [AfterHookModifier(h, RequestAfterProxying(h, acc.request))], [], acc.request);
        var next := Extend(acc, h, step);
        AfterHooksAllRun(env, rest, eventType, next, fuel);
        assert OfType(hooks, eventType) == [h] + OfType(rest, eventType);
        assert acc.hooks + [h] + OfType(rest, eventType) == acc.hooks + OfType(hooks, eventType);
      }
    }
  }
}
