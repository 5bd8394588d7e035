# File filter of vite-plugin-eslint, modelled in Dafny

The plugin runs ESLint on the files that Vite hands to its `transform` hook.
It lints only the files that pass a filter. This project models that filter
and proves its precedence rules. The filter is built by `createFilter` from an
include list and an exclude list of patterns. A pattern is a glob string or a
regular expression.

For one file id the filter works like this:

- an id that is not a string is rejected;
- the id's Windows separators `\` are rewritten to `/` (`normalizePath`);
- if any exclude pattern matches, the id is rejected;
- otherwise, if any include pattern matches, the id is accepted;
- otherwise the id is accepted exactly when the include list is empty.

Files, one module each:

- `paths.dfy` (`Paths`): `normalizePath`. It is modelled as JavaScript's
  `split` followed by `join`, with both functions written out. The model
  proves that the result is the input with every `\` replaced by `/` in place.
  It also proves that `split` and `join` are inverses, that normalising is
  idempotent, and that normalising cannot tell `\` from `/`.
- `patterns.dfy` (`Patterns`): patterns, `ensureArray`, `getMatcher` and
  matcher dispatch. The glob engine (picomatch) and `RegExp.prototype.test`
  are foreign code. They are the two function-valued fields of an `Engines`
  value, and every result holds for all such engines.
- `filter.dfy` (`FilterEngine`): `createFilter` and the decision function it
  returns. `Decide` models that function: a method with the source's two
  index loops and early returns. It is proved equal to `Decision`, a
  declarative statement of the rule. The precedence properties are lemmas
  about `Decision`.
- `plugin.dfy` (`Plugin`): the defaults the plugin passes to `createFilter`.
  These are `options.include || []` and `options.exclude || /node_modules/`,
  with JavaScript's falsiness.

`options.exclude || /node_modules/` falls back to `/node_modules/` whenever
`exclude` is falsy. That covers an absent value and also the empty string;
likewise an empty-string `include` falls back to `[]`. An empty array is
truthy and keeps its value. `Plugin.EmptyStringIsDefault` and
`Plugin.EmptyExcludeArrayDisablesDefault` state this.

## Model

| member | source | states |
|---|---|---|
| `Paths.Join` | index.ts:7 | `join` of no parts is empty; the result starts with the first part and has the separator right after it when there is a second part; `Paths.Split` and `Paths.SplitJoin` make it the inverse of `split` |
| `Paths.Split` | index.ts:7 | `split` on one character gives at least one part; no part contains the separator; joining the parts with the separator gives the input back |
| `Paths.SplitJoin` | index.ts:7 | splitting a join gives the parts back, provided no part holds the separator (the other half of the round trip) |
| `Paths.JoinSplitReplaces` | index.ts:7 | splitting on one character and joining with another keeps the length, puts the new character wherever the old one stood, and leaves every other character in place |
| `Paths.NormalizePath` | index.ts:6-8 | the normalised path has the input's length and contains no `\`; each `\` becomes `/` and every other character is unchanged in place |
| `Paths.NormalizePathNoWinSep` | index.ts:7 | a path without `\` is returned unchanged |
| `Paths.NormalizePathIdempotent` | index.ts:6-8 | normalising twice equals normalising once |
| `Paths.NormalizePathSeparatorBlind` | index.ts:6-8 | two paths that differ only in `\` against `/` at some positions normalise to the same path |
| `Patterns.EnsureArray` | index.ts:18-22 | an absent (null or undefined) value gives `[]`; an array is returned as it is; a single pattern gives a one-element list; the result holds exactly the configured patterns |
| `Patterns.GetMatcher` | index.ts:30-37 | a regular expression stays a regular-expression matcher with the same source and flags; a glob string becomes a glob matcher on the same string with `dot` set |
| `Patterns.GlobMatchesWithDot` | index.ts:33-36 | a glob pattern matches a path exactly when picomatch, called with `dot: true`, accepts the path |
| `Patterns.Test` | index.ts:33-36 | `matcher.test(path)` for a regular expression is the regular-expression engine's answer for its source and flags; for a glob matcher it is picomatch's answer for its glob and options |
| `Patterns.MatchersOf` | index.ts:38-39 | `.map(getMatcher)` gives one matcher per pattern, at the same index |
| `Patterns.MatchersOfAgree` | index.ts:38-39 | some built matcher accepts a path exactly when some configured pattern matches it |
| `Patterns.AnyPatternBySet` | index.ts:43-50 | whether some pattern of a list matches depends only on which patterns are listed, not on their order or repetition |
| `FilterEngine.CreateFilter` | index.ts:29-39 | the include and exclude matchers are those of `ensureArray(include)` and `ensureArray(exclude)`, one per pattern, in order |
| `FilterEngine.Decide` | index.ts:40-52 | the two early-return loops give exactly the declarative decision: false for a non-string; otherwise no exclude matcher accepts the normalised id, and the include list is empty or one of its matchers accepts it |
| `FilterEngine.DecisionOfPatterns` | index.ts:38-52 | the decision for a string id, stated over the configured patterns: no exclude pattern matches the normalised id, and the include list is empty or some include pattern matches it |
| `FilterEngine.NonStringRejected` | index.ts:41 | a non-string id is rejected whatever the lists hold |
| `FilterEngine.ExclusionWins` | index.ts:43-46 | an id whose normalised form matches an exclude pattern is rejected, whatever the include list holds |
| `FilterEngine.IncludeMatchAccepts` | index.ts:47-50 | an id that no exclude pattern matches and some include pattern matches is accepted |
| `FilterEngine.EmptyIncludeAcceptsUnexcluded` | index.ts:51 | with an empty include list, every string id that is not excluded is accepted |
| `FilterEngine.UnmatchedIncludeRejects` | index.ts:47-51 | with a non-empty include list, an id that no include pattern matches is rejected, even when nothing excludes it |
| `FilterEngine.EmptyConfigurationAcceptsStrings` | index.ts:40-52 | with no include and no exclude patterns, every string id is accepted and every non-string id is rejected |
| `FilterEngine.SeparatorInvariance` | index.ts:42 | two string ids that differ only in `\` against `/` at some positions get the same decision from any filter |
| `FilterEngine.OrderIrrelevant` | index.ts:43-51 | lists that hold the same patterns, in any order and with any repetition, give the same decision |
| `Plugin.Falsy` | index.ts:60 | an absent option is falsy; an array (even an empty one) and a regular expression are truthy; a string is falsy exactly when it is empty |
| `Plugin.OrElse` | index.ts:60 | `value \|\| fallback` gives the fallback for an absent value or the empty string, and the value itself otherwise |
| `Plugin.PluginFilter` | index.ts:60 | a falsy `exclude` gives the single matcher `/node_modules/` and a falsy `include` gives no include matchers; a truthy option is passed unchanged, giving the matchers of its own patterns |
| `Plugin.DefaultOptionsSkipNodeModules` | index.ts:60 | without options, a string id is linted exactly when `/node_modules/` does not match its normalised form |
| `Plugin.EmptyExcludeArrayDisablesDefault` | index.ts:60 | an explicit empty exclude array replaces the default, so with no include patterns every string id is linted |
| `Plugin.EmptyStringIsDefault` | index.ts:60 | an empty-string include or exclude builds the same filter as an absent one |

## Left out

- `relativePath` (index.ts:10-14) is not modelled. It reads the process's working directory and calls Node's `path.relative`. The model's decision takes the already relative path as a string.
- The ESLint `CLIEngine`, `executeOnFiles`, the `stylish` formatter and `console.log` (index.ts:58-59, 65-72) are not modelled. They are foreign calls and console output, and linting never changes the build.
- The Vite plugin object and its `transform` hook (index.ts:55-77) are not modelled, beyond the defaults in `Plugin`. The hook always returns `null`.
- Glob semantics (picomatch) and regular-expression semantics are not modelled. They are arbitrary function parameters of `Engines`, so nothing is assumed about which paths a pattern matches. That includes case sensitivity and how `dot: true` treats hidden segments.
- A regular expression with the `g` or `y` flag keeps state between `test` calls (`lastIndex`). The model treats every test as a pure function of the pattern and the path.
- The pattern engines are modelled as never throwing. picomatch rejects an empty glob string, and because the glob is compiled inside `test` (index.ts:34), a truthy list such as `include: [""]` would make the decision function throw instead of returning; the model gives it a boolean answer.
- Recompiling the glob on every test (index.ts:34) is not modelled. It affects only speed.
- Array elements that are neither strings nor regular expressions are not modelled. The TypeScript type `FilterPattern` rules them out. Every non-`RegExp` element is a `Glob`.
