/** Filter patterns and the matchers built from them (index.ts, FilterPattern,
    ensureArray and getMatcher). The glob engine (picomatch) and the regular
    expression engine (`RegExp.prototype.test`) are foreign code; they enter
    the model as the two functions of an `Engines` value and nothing is
    assumed about them. */
module Patterns {

  /** One pattern: a glob string, or a regular expression given by its source
      text and flags. */
  datatype Pattern =
    | Glob(glob: string)
    | Regex(source: string, flags: string)

  /** `FilterPattern | undefined`: no value (null or undefined), one pattern,
      or an array of patterns. */
  datatype FilterPattern =
    | Absent
    | One(pattern: Pattern)
    | Many(patterns: seq<Pattern>)

  /** The options object handed to picomatch; the filter only ever sets `dot`. */
  datatype GlobOptions = GlobOptions(dot: bool)

  /** A matcher: the regular expression itself, or a glob string that is
      compiled with the given options each time it is tested. */
  datatype Matcher =
    | RegexMatcher(source: string, flags: string)
    | GlobMatcher(glob: string, options: GlobOptions)

  /** The foreign pattern engines: `regexTest(source, flags, path)` is
      `new RegExp(source, flags).test(path)`, `globTest(glob, options, path)`
      is `pm(glob, options)(path)`. */
  datatype Engines = Engines(
    regexTest: (string, string, string) -> bool,
    globTest: (string, GlobOptions, string) -> bool)

  /** ensureArray (index.ts:18-22): the configured value as a list of
      patterns. */
  function EnsureArray(thing: FilterPattern): (r: seq<Pattern>)
    ensures thing.Absent? ==> r == []
    ensures thing.Many? ==> r == thing.patterns
    ensures thing.One? ==> |r| == 1
    ensures forall p :: p in r <==> (thing.One? && p == thing.pattern) || (thing.Many? && p in thing.patterns)
  {
    match thing
    case Many(ps) => ps
    case Absent => []
    case One(p) => [p]
  }

  /** getMatcher (index.ts:30-37): a regular expression is its own matcher;
      a glob string is matched with dot files included. */
  function GetMatcher(p: Pattern): (m: Matcher)
    ensures p.Regex? <==> m.RegexMatcher?
    ensures m.GlobMatcher? ==> m.glob == p.glob && m.options.dot
    ensures m.RegexMatcher? ==> m.source == p.source && m.flags == p.flags
  {
    match p
    case Regex(source, flags) => RegexMatcher(source, flags)
    case Glob(glob) => GlobMatcher(glob, GlobOptions(dot := true))
  }

  /** `matcher.test(path)`: dispatch to the engine the matcher belongs to. */
  function Test(e: Engines, m: Matcher, path: string): (b: bool)
    ensures m.RegexMatcher? ==> b == e.regexTest(m.source, m.flags, path)
    ensures m.GlobMatcher? ==> b == e.globTest(m.glob, m.options, path)
  {
    match m
    case RegexMatcher(source, flags) => e.regexTest(source, flags, path)
    case GlobMatcher(glob, options) => e.globTest(glob, options, path)
  }

  /** Whether a configured pattern matches a path. */
  predicate Matches(e: Engines, p: Pattern, path: string)
  {
    Test(e, GetMatcher(p), path)
  }

  /** A glob pattern is always handed to picomatch with `dot: true`, so dot
      files and dot directories are eligible to match. */
  lemma GlobMatchesWithDot(e: Engines, glob: string, path: string)
    ensures Matches(e, Glob(glob), path) == e.globTest(glob, GlobOptions(true), path)
  {
  }

  /** `ensureArray(...).map(getMatcher)`: one matcher per pattern, in order. */
  function MatchersOf(patterns: seq<Pattern>): (ms: seq<Matcher>)
    ensures |ms| == |patterns|
    ensures forall k :: 0 <= k < |patterns| ==> ms[k] == GetMatcher(patterns[k])
  {
    seq(|patterns|, k requires 0 <= k < |patterns| => GetMatcher(patterns[k]))
  }

  /** Some matcher of the list accepts the path. */
  predicate AnyMatcher(e: Engines, ms: seq<Matcher>, path: string)
  {
    exists k :: 0 <= k < |ms| && Test(e, ms[k], path)
  }

  /** Some pattern of the list matches the path. */
  predicate AnyPattern(e: Engines, ps: seq<Pattern>, path: string)
  {
    exists p :: p in ps && Matches(e, p, path)
  }

  /** Testing the built matchers is testing the patterns they came from. */
  lemma MatchersOfAgree(e: Engines, ps: seq<Pattern>, path: string)
    ensures AnyMatcher(e, MatchersOf(ps), path) <==> AnyPattern(e, ps, path)
  {
    var ms := MatchersOf(ps);
    if AnyPattern(e, ps, path) {
      var p :| p in ps && Matches(e, p, path);
      var k :| 0 <= k < |ps| && ps[k] == p;
      assert Test(e, ms[k], path);
    }
    if AnyMatcher(e, ms, path) {
      var k :| 0 <= k < |ms| && Test(e, ms[k], path);
      assert ps[k] in ps && Matches(e, ps[k], path);
    }
  }

  /** Whether any pattern matches depends only on which patterns are listed,
      not on their order or repetition. */
  lemma AnyPatternBySet(e: Engines, ps: seq<Pattern>, qs: seq<Pattern>, path: string)
    requires forall p :: p in ps <==> p in qs
    ensures AnyPattern(e, ps, path) <==> AnyPattern(e, qs, path)
  {
  }
}
