/** Hook match rules (corporal/hook/hook_match.go): a typed regular expression over one part of a
    request, optionally inverted, whose compiled expression is cached in the rule. */
module HookMatch {
  import opened Wrappers
  import opened Regex
  import opened Http

  const RuleTypeHttpMethod := "method"
  const RuleTypeUrlPath := "route"
  const RuleTypeMatrixUserId := "matrixUserID"

  const KnownRuleTypes: seq<string> := [RuleTypeHttpMethod, RuleTypeUrlPath, RuleTypeMatrixUserId]

  /** The match before inversion: a method rule tests the method, a route rule the parsed path (no
      query string), a user rule the authenticated user, and passes when there is none. Any other
      type imposes nothing. */
  predicate RawMatch(e: Engine, ruleType: string, pattern: string, request: Request)
  {
    && (ruleType == RuleTypeHttpMethod ==> e.matchString(pattern, request.httpMethod))
    && (ruleType == RuleTypeUrlPath ==> e.matchString(pattern, request.path))
    && (ruleType == RuleTypeMatrixUserId && request.userId.Some? ==> e.matchString(pattern, request.userId.value))
  }

  /** What a rule decides about a request once its pattern compiled. */
  predicate RuleDecision(e: Engine, ruleType: string, pattern: string, invert: bool, request: Request)
  {
    RawMatch(e, ruleType, pattern, request) != invert
  }

  /** How `%s` renders a `*HookMatchRule` whose expression is not compiled yet: Go's fmt prints the
      struct behind the pointer field by field, and the nil `*regexp.Regexp` and the bool, which
      `%s` does not fit, as bad-verb notes. */
  function UncompiledRendering(ruleType: string, regex: string, invert: bool): string
  {
    "&{" + ruleType + " " + regex + " %!s(*regexp.Regexp=<nil>) %!s(bool=" + (if invert then "true" else "false") + ")}"
  }

  class HookMatchRule {
    var ruleType: string
    var regex: string
    var regexCompiled: Option<Regexp>
    var invert: bool
    /** How many times a pattern was compiled successfully into the cache. */
    ghost var compilations: nat

    /** The cache, once filled, holds the rule's own pattern, and it was filled exactly once. */
    ghost predicate Valid()
      reads this
    {
      && (regexCompiled.None? ==> compilations == 0)
      && (regexCompiled.Some? ==> regexCompiled.value.pattern == regex && compilations == 1)
    }

    /** A rule as decoded from a policy: nothing compiled yet. */
    constructor(ruleType: string, regex: string, invert: bool)
      ensures Valid()
      ensures this.ruleType == ruleType && this.regex == regex && this.invert == invert
      ensures regexCompiled.None?
    {
      this.ruleType := ruleType;
      this.regex := regex;
      this.invert := invert;
      regexCompiled := None;
      compilations := 0;
    }

    /** `ensureInitialized`: compiles the pattern only when nothing is cached. */
    method EnsureInitialized(e: Engine) returns (err: Option<string>)
      requires Valid()
      modifies this
      ensures Valid()
      ensures ruleType == old(ruleType) && regex == old(regex) && invert == old(invert)
      ensures err.None? <==> (old(regexCompiled).Some? || e.compiles(regex))
      ensures err.None? ==> regexCompiled == Some(Regexp(regex))
      ensures err.Some? ==> regexCompiled.None? && err == Some(Compile(e, regex).error)
      ensures old(regexCompiled).Some? ==> regexCompiled == old(regexCompiled) && compilations == old(compilations)
      ensures compilations <= 1
    {
      if regexCompiled.None? {
        var compiled := Compile(e, regex);
        if compiled.Err? {
          return Some(compiled.error);
        }
        regexCompiled := Some(compiled.value);
        compilations := compilations + 1;
      }
      return None;
    }

    /** `matchRequestAgainstRules`: the raw match, or the compilation error. */
    method MatchRequestAgainstRules(e: Engine, request: Request) returns (isMatch: bool, err: Option<string>)
      requires Valid()
      modifies this
      ensures Valid()
      ensures ruleType == old(ruleType) && regex == old(regex) && invert == old(invert)
      ensures err.None? <==> (old(regexCompiled).Some? || e.compiles(regex))
      ensures err.None? ==> isMatch == RawMatch(e, ruleType, regex, request)
      ensures err.Some? ==> !isMatch
      ensures compilations <= 1
    {
      err := EnsureInitialized(e);
      if err.Some? {
        return false, err;
      }
      var compiled := regexCompiled.value;
      if ruleType == RuleTypeHttpMethod {
        if !MatchString(e, compiled, request.httpMethod) {
          return false, None;
        }
      }
      if ruleType == RuleTypeUrlPath {
        if !MatchString(e, compiled, request.path) {
          return false, None;
        }
      }
      if ruleType == RuleTypeMatrixUserId {
        if request.userId.Some? {
          if !MatchString(e, compiled, request.userId.value) {
            return false, None;
          }
        }
      }
      return true, None;
    }

    /** `MatchesRequest`; Err stands for the panic on a pattern that does not compile. */
    method MatchesRequest(e: Engine, request: Request) returns (r: Result<bool, string>)
      requires Valid()
      modifies this
      ensures Valid()
      ensures ruleType == old(ruleType) && regex == old(regex) && invert == old(invert)
      ensures r.Ok? <==> (old(regexCompiled).Some? || e.compiles(regex))
      ensures r.Ok? ==> r.value == RuleDecision(e, ruleType, regex, invert, request)
      ensures compilations <= 1
    {
      var isMatch, err := MatchRequestAgainstRules(e, request);
      if err.Some? {
        return Err(err.value);
      }
      if invert {
        isMatch := !isMatch;
      }
      return Ok(isMatch);
    }

    /** `validate`: an unknown rule type fails before anything is compiled. */
    method Validate(e: Engine) returns (err: Option<string>)
      requires Valid()
      modifies this
      ensures Valid()
      ensures ruleType == old(ruleType) && regex == old(regex) && invert == old(invert)
      ensures ruleType !in KnownRuleTypes ==> err.Some? && regexCompiled == old(regexCompiled)
      ensures ruleType in KnownRuleTypes ==> (err.None? <==> (old(regexCompiled).Some? || e.compiles(regex)))
      ensures ruleType !in KnownRuleTypes ==> err == Some(ruleType + " is an invalid hook match rule type")
      ensures ruleType in KnownRuleTypes && err.Some? ==>
                err == Some("Failed initialization for hook match rule (" + UncompiledRendering(ruleType, regex, invert) + "): "
                            + Compile(e, regex).error)
      ensures compilations <= 1
    {
      if ruleType !in KnownRuleTypes {
        return Some(ruleType + " is an invalid hook match rule type");
      }
      var initErr := EnsureInitialized(e);
      if initErr.Some? {
        return Some("Failed initialization for hook match rule (" + UncompiledRendering(ruleType, regex, invert) + "): " + initErr.value);
      }
      return None;
    }
  }

  /** Inversion negates the raw match. */
  lemma InvertNegates(e: Engine, ruleType: string, pattern: string, request: Request)
    ensures RuleDecision(e, ruleType, pattern, true, request) == !RuleDecision(e, ruleType, pattern, false, request)
  {
  }

  /** Without an authenticated user a user rule passes raw, so its inverted form always fails. */
  lemma InvertedUserRuleFailsUnauthenticated(e: Engine, pattern: string, request: Request)
    requires request.userId.None?
    ensures RuleDecision(e, RuleTypeMatrixUserId, pattern, false, request)
    ensures !RuleDecision(e, RuleTypeMatrixUserId, pattern, true, request)
  {
  }

  /** A route rule reads the parsed path, not the raw URI with its query string. */
  lemma RouteRuleIgnoresRawUri(e: Engine, pattern: string, invert: bool, a: Request, b: Request)
    requires a.path == b.path
    ensures RuleDecision(e, RuleTypeUrlPath, pattern, invert, a) == RuleDecision(e, RuleTypeUrlPath, pattern, invert, b)
  {
  }

  /** An unknown rule type matches everything (the validator is what rejects it). */
  lemma UnknownRuleTypeMatchesAll(e: Engine, ruleType: string, pattern: string, request: Request)
    requires ruleType !in KnownRuleTypes
    ensures RawMatch(e, ruleType, pattern, request)
  {
  }
}
