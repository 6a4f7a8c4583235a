/** The branch predicates shared by both rule resolvers: "exact", "prefix" and
    "regex". The regular-expression engine is not modelled; it is a parameter
    that says whether a pattern compiles and whether a compiled pattern matches
    a whole input. */
module Matching {

  /** Kotlin's `Regex(pattern)` (which throws when the pattern does not compile)
      and `Regex.matches(input)` (a full-string match). */
  datatype RegexEngine = RegexEngine(compiles: string -> bool, fullMatch: (string, string) -> bool)

  datatype RegexOutcome = FullMatch | NoMatch | CompileError

  /** `Regex(pattern).matches(input)`, with the compile failure made explicit. */
  function Evaluate(engine: RegexEngine, pattern: string, input: string): (o: RegexOutcome)
    ensures o == CompileError <==> !engine.compiles(pattern)
    ensures o == FullMatch <==> engine.compiles(pattern) && engine.fullMatch(pattern, input)
  {
    if !engine.compiles(pattern) then CompileError
    else if engine.fullMatch(pattern, input) then FullMatch
    else NoMatch
  }

  /** The `when (matchType)` of both resolvers: an unknown kind, a pattern that does
      not compile, and a regex that does not match the whole name are all "no match". */
  predicate Matches(kind: string, pattern: string, branch: string, engine: RegexEngine)
  {
    if kind == "exact" then branch == pattern
    else if kind == "prefix" then pattern <= branch
    else if kind == "regex" then Evaluate(engine, pattern, branch) == FullMatch
    else false
  }

  /** What each match kind means, stated without the `when`: equality, `startsWith`,
      a compiled full match, and nothing for any other kind. */
  lemma MatchKinds(pattern: string, branch: string, engine: RegexEngine, kind: string)
    ensures Matches("exact", pattern, branch, engine) <==> branch == pattern
    ensures Matches("prefix", pattern, branch, engine) <==>
              |pattern| <= |branch| && branch[..|pattern|] == pattern
    ensures Matches("regex", pattern, branch, engine) <==>
              engine.compiles(pattern) && engine.fullMatch(pattern, branch)
    ensures kind != "exact" && kind != "prefix" && kind != "regex" ==>
              !Matches(kind, pattern, branch, engine)
  {
  }

  /** A regex that does not compile matches no branch at all. */
  lemma BrokenRegexNeverMatches(pattern: string, engine: RegexEngine)
    requires !engine.compiles(pattern)
    ensures forall b :: !Matches("regex", pattern, b, engine)
  {
  }

  /** Examples: "main" is matched exactly by "main" but
      "main2" is not; "release/1.0" starts with "release/" but "rel" does not. */
  lemma MatchExamples(engine: RegexEngine)
    ensures Matches("exact", "main", "main", engine)
    ensures !Matches("exact", "main", "main2", engine)
    ensures Matches("prefix", "release/", "release/1.0", engine)
    ensures !Matches("prefix", "release/", "rel", engine)
  {
  }
}
