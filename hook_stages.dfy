/** How the gateway's handlers run hook stages (corporal/httpgateway/handler/catchall.go:98-117,
    `runHooks`): each stage runs every matching hook of one event type; a stage whose hooks sent a
    response ends the handler, otherwise its response modifiers are appended to the ones
    collected so far. The request the next stage sees is the one the hooks left. */
module HookStages {
  import opened Wrappers
  import opened Http
  import opened Executor
  import opened Policies
  import opened HookRunner

  /** Where a handler's hooks stand: still going (the request as the hooks left it, the
      modifiers scheduled and what the hooks wrote), stopped because a hook sent a response, or
      crashed by a panic while matching. `ran` lists the stages run so far, in order. */
  datatype Pipeline =
    | Running(request: Request, modifiers: seq<Modifier>, written: seq<Reply>, ran: seq<string>)
    | Halted(written: seq<Reply>, ran: seq<string>)
    | Crashed(reason: string, ran: seq<string>)

  function Begin(request: Request): Pipeline
  {
    Running(request, [], [], [])
  }

  /** `runHooks` for one event type. */
  function RunStage(env: Env, policy: Option<Policy>, p: Pipeline, eventType: string, fuel: nat): (q: Pipeline)
    requires p.Running?
    ensures q.ran == p.ran + [eventType]
    ensures q.Running? ==> |p.modifiers| <= |q.modifiers| && q.modifiers[..|p.modifiers|] == p.modifiers
    ensures q.Running? <==> RunAll(env, policy, eventType, p.request, fuel).Completed? &&
                            !RunAll(env, policy, eventType, p.request, fuel).result.responseSent
  {
    match RunAll(env, policy, eventType, p.request, fuel)
    case MatchPanicked(reason) => Crashed(reason, p.ran + [eventType])
    case Completed(result) =>
      if result.responseSent then Halted(p.written + result.written, p.ran + [eventType])
      else Running(result.request, p.modifiers + result.modifiers, p.written + result.written, p.ran + [eventType])
  }

  /** The stages of `eventTypes` in order, up to the first that ends the handler. */
  function RunStages(env: Env, policy: Option<Policy>, p: Pipeline, eventTypes: seq<string>, fuel: nat): (q: Pipeline)
    ensures |p.ran| <= |q.ran| && q.ran[..|p.ran|] == p.ran
    ensures !p.Running? ==> q == p
    decreases |eventTypes|
  {
    if eventTypes == [] || !p.Running? then p
    else RunStages(env, policy, RunStage(env, policy, p, eventTypes[0], fuel), eventTypes[1..], fuel)
  }

  /** Running the stages from position `i` on, while the handler goes on, is running stage `i`
      and then the stages after it. */
  lemma RunStagesFrom(env: Env, policy: Option<Policy>, p: Pipeline, eventTypes: seq<string>, i: nat, fuel: nat)
    requires p.Running? && i < |eventTypes|
    ensures RunStages(env, policy, p, eventTypes[i..], fuel)
            == RunStages(env, policy, RunStage(env, policy, p, eventTypes[i], fuel), eventTypes[i + 1..], fuel)
  {
    assert eventTypes[i..][1..] == eventTypes[i + 1..];
  }

  /** Two stages: the second runs only when the handler is still going after the first. */
  lemma TwoStages(env: Env, policy: Option<Policy>, p: Pipeline, first: string, second: string, fuel: nat)
    requires p.Running?
    ensures var q := RunStage(env, policy, p, first, fuel);
            RunStages(env, policy, p, [first, second], fuel)
            == if q.Running? then RunStage(env, policy, q, second, fuel) else q
  {
    var q := RunStage(env, policy, p, first, fuel);
    assert [first, second][1..] == [second];
    assert RunStages(env, policy, p, [first, second], fuel) == RunStages(env, policy, q, [second], fuel);
    if q.Running? {
      assert [second][1..] == [];
      assert RunStages(env, policy, q, [second], fuel) == RunStages(env, policy, RunStage(env, policy, q, second, fuel), [], fuel);
    }
  }

  /** The stages run in list order; all of them when the handler goes on, and otherwise exactly
      those up to the one that ended it. Modifiers only ever get appended. */
  lemma {:induction false} StagesRunInOrder(env: Env, policy: Option<Policy>, p: Pipeline, eventTypes: seq<string>, fuel: nat)
    returns (k: nat)
    requires p.Running?
    ensures var q := RunStages(env, policy, p, eventTypes, fuel);
            && k <= |eventTypes|
            && q.ran == p.ran + eventTypes[..k]
            && (q.Running? ==> k == |eventTypes| && |p.modifiers| <= |q.modifiers| && q.modifiers[..|p.modifiers|] == p.modifiers)
            && (!q.Running? ==> 0 < k)
    decreases |eventTypes|
  {
    if eventTypes == [] {
      k := 0;
    } else {
      var next := RunStage(env, policy, p, eventTypes[0], fuel);
      var rest := eventTypes[1..];
      if !next.Running? {
        k := 1;
        assert eventTypes[..0] == [];
        assert eventTypes[..1] == [eventTypes[0]];
      } else {
        var j := StagesRunInOrder(env, policy, next, rest, fuel);
        k := j + 1;
        var q := RunStages(env, policy, next, rest, fuel);
        assert RunStages(env, policy, p, eventTypes, fuel) == q;
        assert eventTypes[..k] == [eventTypes[0]] + rest[..j];
        assert q.ran == p.ran + eventTypes[..k] by {
          assert next.ran == p.ran + [eventTypes[0]];
        }
        if q.Running? {
          PrefixOfPrefix(p.modifiers, next.modifiers, q.modifiers);
        }
      }
    }
  }

  /** A prefix of a prefix is a prefix. */
  lemma PrefixOfPrefix<T>(a: seq<T>, b: seq<T>, c: seq<T>)
    requires |a| <= |b| && b[..|a|] == a
    requires |b| <= |c| && c[..|b|] == b
    ensures |a| <= |c| && c[..|a|] == a
  {
    assert c[..|a|] == c[..|b|][..|a|];
  }

  /** Running one more stage after a list of stages: when the handler was still going, the new
      stage decides; otherwise nothing changes. So the stage that stops a handler is the last one
      in its trace. */
  lemma {:induction false} RunStagesSnoc(env: Env, policy: Option<Policy>, p: Pipeline, eventTypes: seq<string>, eventType: string, fuel: nat)
    ensures var q := RunStages(env, policy, p, eventTypes, fuel);
            RunStages(env, policy, p, eventTypes + [eventType], fuel)
            == if q.Running? then RunStage(env, policy, q, eventType, fuel) else q
    decreases |eventTypes|
  {
    if eventTypes == [] {
      assert [] + [eventType] == [eventType];
    } else if p.Running? {
      assert (eventTypes + [eventType])[1..] == eventTypes[1..] + [eventType];
      RunStagesSnoc(env, policy, RunStage(env, policy, p, eventTypes[0], fuel), eventTypes[1..], eventType, fuel);
    }
  }

  /** A handler that has stopped stays stopped: later stages run nothing. */
  lemma StoppedStaysStopped(env: Env, policy: Option<Policy>, p: Pipeline, eventTypes: seq<string>, fuel: nat)
    requires !p.Running?
    ensures RunStages(env, policy, p, eventTypes, fuel) == p
  {
  }

  /** What a handler did with a request: answered it itself (after what the hooks wrote),
      proxied it upstream, answered a preflight with headers only, or panicked (the panic aborts the handler). */
  datatype Served =
    | Answered(written: seq<Reply>, ran: seq<string>)
    | Proxied(written: seq<Reply>, ran: seq<string>, request: Request, modifyResponse: Option<seq<Modifier>>)
    | Preflight(statusCode: int, header: Header)
    | Aborted(reason: string, ran: seq<string>)

  /** The reverse proxy gets a chained response modifier (`CreateChainedHttpResponseModifierFunc`)
      only when some hook scheduled one. */
  function ModifyResponse(modifiers: seq<Modifier>): (m: Option<seq<Modifier>>)
    ensures m.None? <==> modifiers == []
    ensures m.Some? ==> m.value == modifiers
  {
    if modifiers == [] then None else Some(modifiers)
  }

  /** The end of a handler whose hooks stopped it. */
  function Stop(p: Pipeline): (s: Served)
    requires !p.Running?
    ensures p.Halted? ==> s == Answered(p.written, p.ran)
    ensures p.Crashed? ==> s == Aborted(p.reason, p.ran)
  {
    if p.Halted? then Answered(p.written, p.ran) else Aborted(p.reason, p.ran)
  }

  /** Proxying the request as the hooks left it. */
  function ProxyFrom(p: Pipeline): (s: Served)
    requires p.Running?
    ensures s.Proxied? && s.request == p.request && s.ran == p.ran && s.written == p.written
    ensures s.modifyResponse == ModifyResponse(p.modifiers)
  {
    Proxied(p.written, p.ran, p.request, ModifyResponse(p.modifiers))
  }

  function Finish(p: Pipeline): Served
  {
    if p.Running? then ProxyFrom(p) else Stop(p)
  }
}
