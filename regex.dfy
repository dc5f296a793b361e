/** Go's `regexp` package as an abstract engine: whether a pattern compiles and whether a compiled
    pattern matches somewhere in a string. */
module Regex {
  import opened Wrappers

  datatype Engine = Engine(compiles: string -> bool, matchString: (string, string) -> bool)

  /** A compiled expression; it remembers its pattern, which is all matching depends on. */
  datatype Regexp = Regexp(pattern: string)

  /** `regexp.Compile`. */
  function Compile(e: Engine, pattern: string): (r: Result<Regexp, string>)
    ensures r.Ok? <==> e.compiles(pattern)
    ensures r.Ok? ==> r.value.pattern == pattern
  {
    if e.compiles(pattern) then Ok(Regexp(pattern)) else Err("error parsing regexp: " + pattern)
  }

  /** `(*regexp.Regexp).MatchString`. */
  predicate MatchString(e: Engine, re: Regexp, s: string)
  {
    e.matchString(re.pattern, s)
  }
}
