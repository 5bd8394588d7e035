/** The filter the plugin builds from its options (index.ts:60): a missing
    include list becomes `[]` and a missing exclude list becomes the regular
    expression `/node_modules/`, through JavaScript's `||`. */
module Plugin {
  import opened Paths
  import opened Patterns
  import opened FilterEngine

  /** The default exclude pattern `/node_modules/` (no flags). */
  const NodeModules: Pattern := Regex("node_modules", "")

  /** JavaScript falsiness of an option value: `undefined`, `null` and the
      empty string are falsy; an array (even an empty one) and a regular
      expression are not. */
  function Falsy(value: FilterPattern): (b: bool)
    ensures value.Absent? ==> b
    ensures value.Many? ==> !b
    ensures value.One? && value.pattern.Regex? ==> !b
    ensures value.One? && value.pattern.Glob? ==> (b <==> value.pattern.glob == [])
  {
    value.Absent? || value == One(Glob(""))
  }

  /** `value || fallback`. */
  function OrElse(value: FilterPattern, fallback: FilterPattern): (r: FilterPattern)
    ensures Falsy(value) ==> r == fallback
    ensures !Falsy(value) ==> r == value
  {
    if Falsy(value) then fallback else value
  }

  /** `createFilter(options?.include || [], options?.exclude || /node_modules/)`. */
  function PluginFilter(includes: FilterPattern, excludes: FilterPattern): (f: Filter)
    ensures Falsy(excludes) ==> f.excludeMatchers == [RegexMatcher("node_modules", "")]
    ensures Falsy(includes) ==> f.includeMatchers == []
    ensures !Falsy(excludes) ==> f.excludeMatchers == MatchersOf(EnsureArray(excludes))
    ensures !Falsy(includes) ==> f.includeMatchers == MatchersOf(EnsureArray(includes))
  {
    CreateFilter(OrElse(includes, Many([])), OrElse(excludes, One(NodeModules)))
  }

  /** Without options the plugin lints exactly the paths whose normalised
      form the `/node_modules/` expression does not match. */
  lemma DefaultOptionsSkipNodeModules(e: Engines, s: string)
    ensures Decision(PluginFilter(Absent, Absent), e, Str(s))
            == !e.regexTest("node_modules", "", NormalizePath(s))
  {
    var path := NormalizePath(s);
    assert PluginFilter(Absent, Absent) == CreateFilter(Many([]), One(NodeModules));
    DecisionOfPatterns(Many([]), One(NodeModules), e, s);
    assert EnsureArray(One(NodeModules)) == [NodeModules];
    assert AnyPattern(e, [NodeModules], path) <==> Matches(e, NodeModules, path) by {
      assert NodeModules in [NodeModules];
    }
  }

  /** An explicit empty exclude array is truthy, so it switches the
      `/node_modules/` default off: with no include patterns either, every
      string id is linted. */
  lemma EmptyExcludeArrayDisablesDefault(e: Engines, s: string)
    ensures Decision(PluginFilter(Absent, Many([])), e, Str(s))
  {
  }

  /** An empty-string include is falsy and behaves like no include at all;
      an empty-string exclude likewise falls back to `/node_modules/`. */
  lemma EmptyStringIsDefault(includes: FilterPattern, excludes: FilterPattern)
    ensures PluginFilter(One(Glob("")), excludes) == PluginFilter(Absent, excludes)
    ensures PluginFilter(includes, One(Glob(""))) == PluginFilter(includes, Absent)
  {
  }
}
