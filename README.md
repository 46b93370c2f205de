# hpw: the Labs auto checker, modelled in Dafny

`hpw` checks learner exercises. For every spec file `X.test` in the exercise
directory it loads `X.js` and `X.test` in a sandbox, picks the function the
spec names, and reports a verdict for the exercise. The checks run in a fixed
order and stop at the first failure:

1. the target exists;
2. a function target carries the spec's name;
3. the length of its source text is within bounds;
4. each call case matches;
5. the optional `test` hook runs last.

This project models the deterministic parts of `bin/hpw.js` and proves what
they promise:

- `JsValues`: JavaScript values with their truthiness, and a `JsArray` class
  whose `Pop` shortens the array in place.
- `Strings`: `startsWith`, `endsWith` and `includes`.
- `Lines`: `countLines`, a loop proved equal to 1 plus the number of `'\n'`
  indices.
- `Loader`: the `loadFile` logic. It covers how source is wrapped (in an
  expression for spec files, in a statement block otherwise), the choice
  between the truthy `module.exports` and the wrapper's return value, and the
  two fatal outcomes. Compiling and running are oracle parameters.
- `Discovery`: how the exercise directory is chosen, and the filter/map from a
  directory listing to exercise names.
- `Validator`: the verdict of `executeTest`. The pure function `Check` states
  the verdict. The method `ExecuteTest` runs the same steps on the case arrays,
  popping each expected value off in place, and is proved equal to `Check`.
- `Scenarios`: concrete exercises run through `Check`. An `add` function is
  checked against the cases `[[1, 2, 3], [-1, -1, -2]]` under several bounds,
  once with the export missing and once with the function misnamed.

The model takes these as inputs:

- the looked-up target, as a `JsValue`;
- its `toString()` text;
- its behaviour when called: the `JSON.stringify` of the result, or the
  message of what it threw;
- `JSON.stringify` on expected values;
- the outcome of the hook.

Points where the code behaves in ways a reader may not expect:

- A load returns `module.exports` when it is *truthy*, not when it is
  non-empty. `{}` wins, and `0` or `""` falls back to the wrapper's return value.
- Cases are compared as JSON strings, not by deep equality. Key order in
  objects therefore matters.
- Whatever the target's call throws ends the exercise with that message, an
  error kind of its own.
- `cases: []` is truthy, so it reports `PassedCases(0)` rather than
  "No test cases".
- A missing element of `length` is `undefined`. A comparison with it is false,
  so that bound is never violated.
- The working directory is used as it is when "/Exercises" occurs anywhere in
  it, for example in `/a/Exercises-old`.
- Any exception thrown while running a file is reported as "Execution timeout".
  Despite that message, the file's statements run outside any time limit (see
  "## Left out").

## Model

| member | source | states |
|---|---|---|
| `JsValues.FalsyValues` | bin/hpw.js:64 | the values `!target` rejects are exactly undefined, null, false, 0, NaN, 0n and "" |
| `JsValues.Truthy` | bin/hpw.js:64 | ToBoolean, as `!target` and `exported ? … : …` use it; no contract, its properties are the lemmas `FalsyValues` and `SelectExport` |
| `JsValues.JsArray.Pop` | bin/hpw.js:81 | `pop()` removes and returns the last element, so the rest plus the returned value is the old array; an empty array returns undefined and stays empty |
| `Strings.Includes` | bin/hpw.js:24 | `String.prototype.includes`; no contract, its properties are the lemmas `IncludesOccurs` and `IncludesTestInScriptPath` |
| `Strings.EndsWith` | bin/hpw.js:100 | `String.prototype.endsWith`; no contract, its properties are `TestFiles`, `StripTest` and `TestNameMembership` |
| `Strings.IncludesOccurs` | bin/hpw.js:24 | `includes` holds exactly when the pattern occurs at some index |
| `Strings.IncludesTestInScriptPath` | bin/hpw.js:59-60 | `"./" + x + ".js"` includes ".test" exactly when `x` does |
| `Lines.CountLines` | bin/hpw.js:50-56 | the loop returns 1 plus the number of '\n' characters: at least 1, at most length+1, and 1 for "" |
| `Lines.NewlinesAreIndices` | bin/hpw.js:50-56 | the recursive count equals the number of indices holding '\n' |
| `Lines.NewlinesConcat` | bin/hpw.js:52-53 | the '\n' count of a concatenation is the sum of the counts |
| `Lines.LinesOfJoin` | bin/hpw.js:50-56 | joining two texts with '\n' gives as many lines as the two have together |
| `Loader.Wrap` | bin/hpw.js:25 | the wrapper is 11 characters longer than `data`, starts with "() => " and has `data` verbatim between its 8-character prefix and 3-character suffix |
| `Loader.Source` | bin/hpw.js:22-25 | the text compiled for a file: the expression wrapper when its name includes ".test"; no contract, its properties are `SpecFileIsExpression` and `ScriptFileWrapping` |
| `Loader.UnwrapWrap` | bin/hpw.js:24-25 | the wrapper kind and the data can be read back from the wrapped source, so wrapping is injective |
| `Loader.WrapUnwrap` | bin/hpw.js:25 | every source of either shape is the wrapping of what is read back from it |
| `Loader.SelectExport` | bin/hpw.js:47 | a truthy export wins, otherwise the return value; the result is falsy only when both are |
| `Loader.EmptyExportWins` | bin/hpw.js:41-47 | an empty export object is still chosen; an unset export slot yields the return value |
| `Loader.Load` | bin/hpw.js:21-48 | a compile failure gives "Parsing error" whatever running would do; a run that throws gives "Execution timeout"; a completed run yields the export if it is truthy and the return value otherwise |
| `Loader.SpecFileIsExpression` | bin/hpw.js:61-62 | the spec file `./X.test` is always wrapped as an expression |
| `Loader.ScriptFileWrapping` | bin/hpw.js:59-60 | the implementation file `./X.js` is wrapped as statements exactly when `X` has no ".test" in it |
| `Discovery.ExercisesDir` | bin/hpw.js:12 | the directory starts with the working directory and includes "/Exercises"; it is the working directory exactly when that already includes "/Exercises", and exactly the working directory plus "/Exercises" otherwise |
| `Discovery.ExercisesDirIdempotent` | bin/hpw.js:12 | choosing the directory twice gives the same directory |
| `Discovery.TestFiles` | bin/hpw.js:100 | the filter keeps exactly the listed files that end with ".test" |
| `Discovery.TestFilesConcat` | bin/hpw.js:100 | filtering keeps listing order: it distributes over concatenation |
| `Discovery.StripTest` | bin/hpw.js:101 | the stripped name plus ".test" is the file name |
| `Discovery.StripAll` | bin/hpw.js:101 | the map keeps the length, and each name plus ".test" is the spec file at that position |
| `Discovery.TestNames` | bin/hpw.js:99-101 | the filter followed by the map; no contract, its properties are `TestNamesRoundTrip`, `TestNameMembership` and `TestNamesConcat` |
| `Discovery.TestNamesRoundTrip` | bin/hpw.js:99-101 | every discovered name plus ".test" is the spec file at the same position |
| `Discovery.TestNameMembership` | bin/hpw.js:99-101 | a name is discovered exactly when `name + ".test"` is listed |
| `Discovery.TestNamesConcat` | bin/hpw.js:99-101 | names come out in listing order: discovery distributes over concatenation |
| `Validator.Arguments` | bin/hpw.js:81-82 | the call's arguments are the case without its last element, and appending the expected value gives the case back |
| `Validator.CaseOutcome` | bin/hpw.js:81-85 | one case's failure message, if any; no contract, its properties are `CaseFailureMessage` and `RunCase` |
| `Validator.Check` | bin/hpw.js:63-92 | the report of one exercise; no contract, its properties are `PassedExactly`, `MeasureReported`, `NoImplementationFirst`, `NameMismatchSecond`, `TooLongFirst`, `TooShortSecond`, `WithinBoundsPasses`, `FirstFailureReported`, `HookRunsLast`, and `ExecuteTest` is proved equal to it |
| `Validator.FirstFailing` | bin/hpw.js:80-86 | a reported index is in range and that case fails |
| `Validator.FirstFailingPrefixPasses` | bin/hpw.js:80-86 | every case before the reported one matches |
| `Validator.LeastFailingIsFirst` | bin/hpw.js:80-86 | the least failing index is the one reported |
| `Validator.FirstFailingIsLeast` | bin/hpw.js:80-86 | the reported index is exactly the least failing one (both directions) |
| `Validator.FirstFailingNone` | bin/hpw.js:80-87 | no index is reported exactly when every case matches |
| `Validator.CaseFailureMessage` | bin/hpw.js:81-85 | a case fails exactly when the call throws or the JSON strings differ, and the message is "Case failed: expected E, result: R" |
| `Validator.NoImplementationFirst` | bin/hpw.js:63-64 | a falsy target gives "No implementation detected" with nothing measured, whatever the spec, text, cases or hook |
| `Validator.NameMismatchSecond` | bin/hpw.js:65-69 | a function target with another name gives "Function <spec name> is not found" with nothing measured, whatever the bounds, cases and hook |
| `Validator.NameIgnoredForNonFunctions` | bin/hpw.js:65-69 | for a non-function target the spec's name does not affect the report |
| `Validator.MeasureReported` | bin/hpw.js:70-74 | the length and line count are reported exactly when existence and name pass, with lines = 1 + number of '\n' indices |
| `Validator.TooLongFirst` | bin/hpw.js:75-76 | a length above the maximum gives "Solution is too long", whatever the minimum |
| `Validator.TooShortSecond` | bin/hpw.js:75-77 | a length not above the maximum but below the minimum gives "Solution is too short" |
| `Validator.WithinBoundsPasses` | bin/hpw.js:75-77 | a length within the bounds, either bound included, gives the same report as having no bounds |
| `Validator.FirstFailureReported` | bin/hpw.js:80-86 | the first failing case in index order gives the verdict; the cases after it and the hook do not matter |
| `Validator.PassedExactly` | bin/hpw.js:63-92 | Passed exactly when the target exists, the name fits, the length is within bounds, every case matches and the hook does not throw; the summary is "No test cases" or the case count |
| `Validator.HookRunsLast` | bin/hpw.js:89-92 | a throwing hook turns a passing exercise into a failure with its message verbatim; a returning hook changes nothing |
| `Scenarios.AddCasesMatch` | bin/hpw.js:80-86 | a target behaving as addition matches both cases `[1, 2, 3]` and `[-1, -1, -2]` |
| `Scenarios.AddPasses` | bin/hpw.js:63-92 | an `add` whose length is within [10, 50] passes both cases and reports "Passed cases: 2" |
| `Scenarios.AddTooShort` | bin/hpw.js:75-77 | a 30-character `add` against [40, 50] fails with "Solution is too short" |
| `Scenarios.UpperBoundInclusive` | bin/hpw.js:75-77 | length 50 against [10, 50] passes; length 51 fails with "Solution is too long" |
| `Scenarios.AddMissing` | bin/hpw.js:63-64 | without an `add` export the exercise fails with "No implementation detected" and nothing measured |
| `Scenarios.AddMisnamed` | bin/hpw.js:65-69 | a function named `sum` looked up as `add` fails with "Function add is not found" |
| `Validator.RunCase` | bin/hpw.js:81-85 | one iteration pops the expected value and yields that case's failure message, if any |
| `Validator.RunCases` | bin/hpw.js:79-88 | the loop returns the first failing case's message, or none; exactly the cases up to and including it are popped |
| `Validator.ExecuteTest` | bin/hpw.js:58-93 | the report equals `Check` of the spec as loaded; exactly the case arrays evaluated lose their last element and the others are unchanged |

## Left out

- Compiling with `vm.Script`, running with `runInNewContext`, and the `prepareSandbox` context (lines 14-19, 27-46): these are runtime services. Compiling and running are oracle parameters of `Loader.Load`.
- Time limits: `EXECUTION_TIMEOUT` bounds only `runInNewContext` (line 39), which merely evaluates the arrow expression. The file's statements run in `f()` at line 40 with no limit, and `new vm.Script` takes no `timeout` option, so `PARSING_TIMEOUT` (line 28) has no effect. A file that never terminates hangs the checker; the model cannot express this, because `run` is a total oracle, so `Aborted` stands only for something thrown while running.
- A stateful target: `call` is a function of the arguments alone, so a target whose result at one case depends on earlier calls (a closure counter, say) is not expressible, although the source would check it case by case (line 82).
- `JSON.stringify(callCase.pop())` throwing (a `BigInt` expected value, a cyclic object; line 81): this would end the exercise with a TypeError before the target is called. `stringify` is total in the model.
- `process.exit(1)` (lines 33, 45): it is modelled only as a `Fatal` load outcome. Ending the whole batch is not modelled.
- `fs.readFile`, `fs.readdir`, the path `dir + '/' + file`, and the async driver that loops over the exercises and catches each exercise's error (lines 22-23, 95-110): these are I/O and orchestration. Only the filter/map over a listing is modelled.
- All console output and `concolor` formatting (lines 72-74, 92, 96-97, 103, 107): `Report` carries the values that get printed, not their text.
- The property lookup `js[test.name]` (line 63): the looked-up value is an input. In particular, the TypeError the source raises when the implementation file loads to `undefined` or `null` is not modelled.
- `Function.prototype.toString`, `JSON.stringify`, calling the target and calling the hook: these are oracles. `JSON.stringify` returning `undefined`, and a target that mutates its argument array, are not modelled.
- Validator.ExecuteTest: requires distinct case arrays. In the source, one array object listed twice in `cases` would be popped twice; that aliasing is not modelled.
- The reported length is the number of Dafny characters, while JavaScript counts UTF-16 code units. The two differ for characters outside the Basic Multilingual Plane.
- Numbers are exact reals. Infinities, floating-point rounding and symbols are not represented.
- Spec objects with a `length` that is not an array, or `cases` that is truthy but not an array of arrays: the TypeErrors these raise are not modelled.
- A thrown value that is not an `Error` has no `message`. The model always carries one message string.
