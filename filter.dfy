/** The file filter (index.ts, createFilter and the `result` function it
    returns): exclusion first, then inclusion, and an empty include list
    means "everything not excluded". */
module FilterEngine {
  import opened Paths
  import opened Patterns

  /** The id the bundler hands to the filter: `result` accepts any value and
      only a string is a path. */
  datatype Id = Str(s: string) | NonStr

  /** What `createFilter` closes over: the include and exclude matchers. */
  datatype Filter = Filter(includeMatchers: seq<Matcher>, excludeMatchers: seq<Matcher>)

  /** createFilter (index.ts:29-39): one matcher per configured pattern,
      kept in the configured order. */
  function CreateFilter(includes: FilterPattern, excludes: FilterPattern): (f: Filter)
    ensures |f.includeMatchers| == |EnsureArray(includes)|
    ensures |f.excludeMatchers| == |EnsureArray(excludes)|
    ensures forall k :: 0 <= k < |f.includeMatchers| ==> f.includeMatchers[k] == GetMatcher(EnsureArray(includes)[k])
    ensures forall k :: 0 <= k < |f.excludeMatchers| ==> f.excludeMatchers[k] == GetMatcher(EnsureArray(excludes)[k])
  {
    Filter(MatchersOf(EnsureArray(includes)), MatchersOf(EnsureArray(excludes)))
  }

  /** The intended decision, stated declaratively: a string id is accepted
      exactly when no exclude matcher accepts its normalised form and either
      there are no include matchers or one of them accepts it. */
  predicate Decision(f: Filter, e: Engines, id: Id)
  {
    match id
    case NonStr => false
    case Str(s) =>
      var path := NormalizePath(s);
      !AnyMatcher(e, f.excludeMatchers, path)
      && (|f.includeMatchers| == 0 || AnyMatcher(e, f.includeMatchers, path))
  }

  /** result (index.ts:40-52): reject non-strings, normalise, scan the
      exclude matchers (a hit rejects), then the include matchers (a hit
      accepts), and finally accept only when there are no include matchers. */
  method Decide(f: Filter, e: Engines, id: Id) returns (accepted: bool)
    ensures accepted == Decision(f, e, id)
  {
    if !id.Str? {
      return false;
    }
    var pathId := NormalizePath(id.s);
    var i := 0;
    while i < |f.excludeMatchers|
      invariant 0 <= i <= |f.excludeMatchers|
      invariant forall j :: 0 <= j < i ==> !Test(e, f.excludeMatchers[j], pathId)
    {
      if Test(e, f.excludeMatchers[i], pathId) {
        return false;
      }
      i := i + 1;
    }
    i := 0;
    while i < |f.includeMatchers|
      invariant 0 <= i <= |f.includeMatchers|
      invariant forall j :: 0 <= j < i ==> !Test(e, f.includeMatchers[j], pathId)
    {
      if Test(e, f.includeMatchers[i], pathId) {
        return true;
      }
      i := i + 1;
    }
    return |f.includeMatchers| == 0;
  }

  /** The decision of a filter built from configured patterns, in terms of
      the patterns themselves. */
  lemma DecisionOfPatterns(includes: FilterPattern, excludes: FilterPattern, e: Engines, s: string)
    ensures Decision(CreateFilter(includes, excludes), e, Str(s)) <==>
              !AnyPattern(e, EnsureArray(excludes), NormalizePath(s))
              && (EnsureArray(includes) == [] || AnyPattern(e, EnsureArray(includes), NormalizePath(s)))
  {
    MatchersOfAgree(e, EnsureArray(excludes), NormalizePath(s));
    MatchersOfAgree(e, EnsureArray(includes), NormalizePath(s));
  }

  /** A non-string id is never linted, whatever the patterns. */
  lemma NonStringRejected(includes: FilterPattern, excludes: FilterPattern, e: Engines)
    ensures !Decision(CreateFilter(includes, excludes), e, NonStr)
  {
  }

  /** Exclusion wins: a path matched by an exclude pattern is rejected,
      whatever the include patterns. */
  lemma ExclusionWins(includes: FilterPattern, excludes: FilterPattern, e: Engines, s: string, p: Pattern)
    requires p in EnsureArray(excludes) && Matches(e, p, NormalizePath(s))
    ensures !Decision(CreateFilter(includes, excludes), e, Str(s))
  {
    DecisionOfPatterns(includes, excludes, e, s);
  }

  /** A path that no exclude pattern matches and some include pattern
      matches is accepted. */
  lemma IncludeMatchAccepts(includes: FilterPattern, excludes: FilterPattern, e: Engines, s: string, p: Pattern)
    requires !AnyPattern(e, EnsureArray(excludes), NormalizePath(s))
    requires p in EnsureArray(includes) && Matches(e, p, NormalizePath(s))
    ensures Decision(CreateFilter(includes, excludes), e, Str(s))
  {
    DecisionOfPatterns(includes, excludes, e, s);
  }

  /** With no include patterns, every string id that is not excluded is
      accepted. */
  lemma EmptyIncludeAcceptsUnexcluded(includes: FilterPattern, excludes: FilterPattern, e: Engines, s: string)
    requires EnsureArray(includes) == []
    requires !AnyPattern(e, EnsureArray(excludes), NormalizePath(s))
    ensures Decision(CreateFilter(includes, excludes), e, Str(s))
  {
    DecisionOfPatterns(includes, excludes, e, s);
  }

  /** With include patterns, a path none of them matches is rejected even
      when nothing excludes it: the final `!includeMatchers.length` is false
      on that path. */
  lemma UnmatchedIncludeRejects(includes: FilterPattern, excludes: FilterPattern, e: Engines, s: string)
    requires EnsureArray(includes) != []
    requires !AnyPattern(e, EnsureArray(includes), NormalizePath(s))
    ensures !Decision(CreateFilter(includes, excludes), e, Str(s))
  {
    DecisionOfPatterns(includes, excludes, e, s);
  }

  /** With neither include nor exclude patterns every string id is accepted. */
  lemma EmptyConfigurationAcceptsStrings(e: Engines, s: string)
    ensures Decision(CreateFilter(Absent, Absent), e, Str(s))
    ensures !Decision(CreateFilter(Absent, Absent), e, NonStr)
  {
  }

  /** Two ids that differ only in `\` against `/` at some positions get the
      same decision from any filter. */
  lemma SeparatorInvariance(f: Filter, e: Engines, a: string, b: string)
    requires |a| == |b|
    requires forall i :: 0 <= i < |a| ==>
               a[i] == b[i] || (a[i] in {WinSep, PosixSep} && b[i] in {WinSep, PosixSep})
    ensures Decision(f, e, Str(a)) == Decision(f, e, Str(b))
  {
    NormalizePathSeparatorBlind(a, b);
  }

  /** Patterns combine with OR inside each list: reordering or repeating the
      patterns of either list does not change any decision. */
  lemma OrderIrrelevant(includes1: FilterPattern, excludes1: FilterPattern,
                        includes2: FilterPattern, excludes2: FilterPattern, e: Engines, s: string)
    requires forall p :: p in EnsureArray(includes1) <==> p in EnsureArray(includes2)
    requires forall p :: p in EnsureArray(excludes1) <==> p in EnsureArray(excludes2)
    ensures Decision(CreateFilter(includes1, excludes1), e, Str(s))
            == Decision(CreateFilter(includes2, excludes2), e, Str(s))
  {
    var path := NormalizePath(s);
    DecisionOfPatterns(includes1, excludes1, e, s);
    DecisionOfPatterns(includes2, excludes2, e, s);
    AnyPatternBySet(e, EnsureArray(includes1), EnsureArray(includes2), path);
    AnyPatternBySet(e, EnsureArray(excludes1), EnsureArray(excludes2), path);
    if EnsureArray(includes1) != [] {
      assert EnsureArray(includes1)[0] in EnsureArray(includes2);
    }
    if EnsureArray(includes2) != [] {
      assert EnsureArray(includes2)[0] in EnsureArray(includes1);
    }
  }
}
