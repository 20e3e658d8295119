# Interactive code runner of the JavaScript theory pages

Every topic page under `src/theory/` defines its own copy of the
`InteractiveExample` component: a text area holding an example snippet, a
run button, and the text the last run produced. Running a snippet rewrites
its `console.log` calls (and, on the Promises page, its `console.error`
calls) into calls of local interceptors, evaluates it with `new Function`,
and shows either the intercepted lines joined by line breaks or
`"Error: "` followed by the failure's message. Each argument of an
intercepted call is serialised with `JSON.stringify` (section 25.5.2 of
ECMA-262, 2023 edition). Most pages also show one example at a time
through a tab bar whose keys are derived from the example names.

The project has one shared model and one module per page:

- `strings.dfy` (`Strings`): global left-to-right replacement, replacement
  of the first occurrence, split and join, with their laws: rewriting is a
  split followed by a join, the replaced pattern is gone afterwards,
  rewriting twice changes nothing, two independent rewrites commute, and
  joining lines that hold no separator can be split back.
- `json.dfy` (`Json`): a JSON-like value type and `JSON.stringify` over it,
  with a decoder for string literals (quoting round-trips) and integer
  text (number text round-trips); numbers are the integers a double holds
  exactly, `undefined` serialises to nothing, and no serialised text holds
  a control character.
- `sandbox.dfy` (`Sandbox`): the rewrite, the output buffer and the result
  text; `Execute`, the loop of `runCode` that pushes one line per call; and
  the `InteractiveExample` class whose `code` and `result` fields change on
  edit and on run.
- `tabs.dfy` (`Tabs`): the tab keys (`toLowerCase` then the first space,
  every space or no space replaced by `-`) and the `TopicPage` class whose
  `activeTab` field changes on a click.
- `page_*.dfy`: one module per topic page, holding the page's interceptors,
  key rule, initial tab and example names, and the facts about its own
  examples.

Evaluating a snippet is a JavaScript engine and is not modelled. A run is
given an `engine`: a function from the rewritten text to an `Outcome`,
which is either a compile error with its message, or a run that made some
intercepted calls in order and then returned, threw a value, or threw
`null` or `undefined`, together with the calls made later by promise and
timer callbacks. The calls made later never reach the result: the result
text does not depend on them.

Three consequences of the code that are easy to miss:

- Every argument is serialised with `JSON.stringify`, so a snippet that
  logs the strings `a` and then `b` shows `"a"`, a line break and `"b"`,
  quotes included.
- On the Promises page a successful run whose first line comes from
  `console.error` starts with the same `Error: ` tag as a failure
  (`Sandbox.ErrorTagMeansFailureOrConsoleError`).
- A call whose only argument serialises to nothing, such as
  `console.log(undefined)`, pushes an empty line; a run with exactly one
  such call gives an empty result, and the result block stays hidden
  (`Sandbox.ResultText`, `Sandbox.ResultBlockShown`).

## Model

| member | source | states |
|---|---|---|
| Strings.ReplaceAllIsSplitJoin | src/theory/LexicalExecution.jsx:27 | replacing every occurrence, left to right, is splitting the text at the occurrences and joining the pieces with the replacement |
| Strings.JoinSplit | src/theory/LexicalExecution.jsx:27 | joining the pieces with the pattern gives the text back, so the pieces are exactly the characters outside the occurrences |
| Strings.ReplaceAllLeavesNone | src/theory/LexicalExecution.jsx:27 | when the replacement cannot create the pattern, no occurrence is left after replacing |
| Strings.ReplaceAllOfFree | src/theory/LexicalExecution.jsx:27 | text without an occurrence is left unchanged |
| Strings.ReplaceAllIdempotent | src/theory/LexicalExecution.jsx:27 | under the same condition, replacing a second time changes nothing |
| Strings.PassOver | src/theory/LexicalExecution.jsx:27 | text that cannot run into the pattern is copied as it is, and replacement continues after it |
| Strings.ReplacementsCommute | src/theory/Promises.jsx:28 | two replacements whose patterns and replacements cannot create or overlap each other give the same text in either order |
| Strings.SplitJoin | src/theory/LexicalExecution.jsx:28 | lines joined by a separator none of them contains split back into the same lines |
| Strings.Join | src/theory/LexicalExecution.jsx:28 | a join begins with its first part |
| Strings.JoinIsEmpty | src/theory/LexicalExecution.jsx:28 | a join is empty exactly when there are no parts or one empty part |
| Strings.ReplaceAllCharAt | src/theory/VarLetConst.jsx:187 | replacing every occurrence of one character keeps the length and changes exactly those positions |
| Strings.ReplaceFirstCharAt | src/theory/LexicalExecution.jsx:120 | replacing the first occurrence of one character changes only the position of its first occurrence |
| Json.UnquoteQuote | src/theory/LexicalExecution.jsx:26 | a serialised string decodes back to the same string |
| Json.QuotePlain | src/theory/LexicalExecution.jsx:26 | a string with no quote, backslash or control character is serialised as itself between double quotes |
| Json.IntTextRoundTrip | src/theory/LexicalExecution.jsx:26 | an integer's text parses back to the integer and holds no control character |
| Json.Quote | src/theory/LexicalExecution.jsx:26 | a serialised string is delimited by double quotes and holds no raw control character, whatever the string holds |
| Json.Stringify | src/theory/LexicalExecution.jsx:26 | serialisation gives nothing exactly for `undefined` |
| Json.StringifyPrintable | src/theory/LexicalExecution.jsx:26 | serialised text never holds a control character, in particular no line break |
| Sandbox.Rewrite | src/theory/Promises.jsx:28 | no `console.log` is left after rewriting, and on the Promises page no `console.error` either |
| Sandbox.ArgText | src/theory/LexicalExecution.jsx:26 | an argument's text never holds a line break |
| Sandbox.ArgsText | src/theory/LexicalExecution.jsx:26 | the arguments' texts joined by spaces never hold a line break |
| Sandbox.Line | src/theory/Promises.jsx:26-27 | a pushed line, tagged or not, never holds a line break |
| Sandbox.ResultText | src/theory/LexicalExecution.jsx:28-35 | the result is empty exactly after a normal return with no calls or with one call whose line is empty; a failure always gives a non-empty result |
| Sandbox.Execute | src/theory/LexicalExecution.jsx:22-37 | the loop over the intercepted calls pushes one line each onto a fresh buffer; the text handed to `setResult` is the buffer joined by line breaks, or the tagged message on failure, and there is none for a thrown `null` or `undefined` |
| Sandbox.InteractiveExample.constructor | src/theory/LexicalExecution.jsx:19-20 | the component starts with the example's code and an empty result |
| Sandbox.InteractiveExample.Edit | src/theory/LexicalExecution.jsx:43 | an edit replaces the whole code and leaves the result as it was: nothing runs |
| Sandbox.InteractiveExample.RunCode | src/theory/LexicalExecution.jsx:22-37 | the button sets the result from the rewritten current code alone, never from an earlier result, and leaves the code as it was; a run that settles nothing keeps the earlier result |
| Sandbox.RewriteIsSplitJoin | src/theory/LexicalExecution.jsx:27 | the rewrite splits the snippet at its `console.log` occurrences and joins the pieces with `consoleLog`; every other character is kept |
| Sandbox.RewriteCommentedCall | src/theory/LexicalExecution.jsx:27 | a `console.log` after text that cannot run into it, such as `// `, and before text holding no `.`, is rewritten all the same, the text around it kept |
| Sandbox.RewriteIdempotent | src/theory/LexicalExecution.jsx:27 | rewriting a rewritten snippet changes nothing |
| Sandbox.RewritesIndependent | src/theory/Promises.jsx:28 | neither pattern overlaps itself or the other, and no binding can create or complete a pattern |
| Sandbox.RewriteOrderIrrelevant | src/theory/Promises.jsx:28 | the two replacements of the Promises page give the same text in either order |
| Sandbox.ArgsTextCons | src/theory/LexicalExecution.jsx:26 | a line is the first argument's text, one space, then the remaining arguments' line |
| Sandbox.PlainStringArg | src/theory/LexicalExecution.jsx:26 | a plain string argument appears quoted |
| Sandbox.ReturnedRunLines | src/theory/LexicalExecution.jsx:28-33 | after a normal return with no calls the result is empty; otherwise splitting it at line breaks gives one line per call, in call order |
| Sandbox.ReturnedCons | src/theory/LexicalExecution.jsx:28 | the result is the first call's line, a line break, then the result of the remaining calls |
| Sandbox.LogLineUntagged | src/theory/LexicalExecution.jsx:26 | a `console.log` line never starts with `Error: ` |
| Sandbox.ErrorTagMeansFailureOrConsoleError | src/theory/Promises.jsx:27-36 | the result starts with `Error: ` exactly when the run failed or its first line came from `console.error` |
| Sandbox.ReturnedTagged | src/theory/Promises.jsx:26-29 | after a normal return, the result starts with `Error: ` exactly when the first call was `console.error` |
| Sandbox.ResultBlockShown | src/theory/LexicalExecution.jsx:49-53 | the result block is rendered exactly when there is a code block and the run failed or left a non-empty buffer |
| Sandbox.NullishThrowSettlesNothing | src/theory/LexicalExecution.jsx:34-35 | as written, a thrown `null` or `undefined` settles no text, although the text meant for it is not empty |
| Sandbox.NullishThrowShowsError | src/theory/LexicalExecution.jsx:34-35 | the text meant for a thrown `null` or `undefined` is one line tagged `Error: ` |
| Tabs.Slug | src/theory/ObjectsPrimitive.jsx:150 | a key is as long as the name; replacing every space leaves no space; the third kind of key is `toLowerCase()` alone, spaces kept |
| Tabs.FirstSpaceIsReplaceFirst | src/theory/LexicalExecution.jsx:120 | the first-space key is `toLowerCase()` followed by `.replace(' ', '-')` |
| Tabs.AllSpacesIsReplaceAll | src/theory/VarLetConst.jsx:187 | the every-space key is `toLowerCase()` followed by `.replace(/ /g, '-')` |
| Tabs.FirstSpaceAt | src/theory/LexicalExecution.jsx:120 | the first-space key turns the first space into `-` and keeps every later space |
| Tabs.FirstSpaceBetween | src/theory/LexicalExecution.jsx:120 | a name made of a word with no space, one space and a rest has the key: the lower-cased word, `-`, the lower-cased rest with its spaces kept |
| Tabs.KeysDiffer | src/theory/LexicalExecution.jsx:136 | names of different lengths, or differing at a position with no space up to case, give different keys |
| Tabs.TopicPage.constructor | src/theory/LexicalExecution.jsx:60 | the page starts with its initial tab |
| Tabs.TopicPage.ClickTab | src/theory/LexicalExecution.jsx:120-136 | a click makes `activeTab` the clicked example's key; a panel is shown exactly when its key is that key, so with distinct keys exactly the clicked panel is shown |
| LexicalExecutionPage.KeysAreDistinct | src/theory/LexicalExecution.jsx:136 | the two examples have different keys |
| LexicalExecutionPage.InitialTabShowsFirstExample | src/theory/LexicalExecution.jsx:60 | 'lexical-environment' shows the first example and no other |
| LexicalExecutionPage.InnerVarFailureHidesOuterLine | src/theory/LexicalExecution.jsx:77-81 | the line logged for `outerVar` would be `"I am outside!"`, but the `innerVar` failure replaces it with the tagged message |
| VarLetConstPage.KeysAreDistinct | src/theory/VarLetConst.jsx:194 | the four examples have different keys |
| VarLetConstPage.InitialTabShowsFirstExample | src/theory/VarLetConst.jsx:59 | 'var' shows the first example and no other |
| VarLetConstPage.CommentedCallRewritten | src/theory/VarLetConst.jsx:89 | the commented-out `console.log(functionVar)` is rewritten to `consoleLog(functionVar)`, the rest of the line kept |
| VarLetConstPage.ScopeComparisonKey | src/theory/VarLetConst.jsx:187 | 'Scope Comparison' has the key 'scope-comparison' |
| PromisesPage.KeysAreDistinct | src/theory/Promises.jsx:180 | the four examples have different keys |
| PromisesPage.InitialTabShowsFirstExample | src/theory/Promises.jsx:60 | 'creating-a-promise' shows the first example and no other |
| PromisesPage.CreatingAPromiseShowsOnlySyncLine | src/theory/Promises.jsx:84-92 | the result is the quoted message of line 92 alone, whatever the `then` callback logs later |
| MemoizationPage.KeysAreDistinct | src/theory/Memoization.jsx:128 | the two examples have different keys |
| MemoizationPage.WhatIsMemoizationKey | src/theory/Memoization.jsx:120 | 'What is Memoization' has the key 'what-is memoization' |
| MemoizationPage.NoPanelInitially | src/theory/Memoization.jsx:60 | the initial 'what-is-memoization' is no example's key, so no panel is shown before a click |
| MemoizationPage.CorrectedInitialTabShowsFirstExample | src/theory/Memoization.jsx:128 | with every space replaced, the initial tab shows the first example and no other |
| SpreadRestPage.KeysAreDistinct | src/theory/SpreadRest.jsx:150 | the five examples have different keys |
| SpreadRestPage.InitialTabShowsFirstExample | src/theory/SpreadRest.jsx:59 | 'spread-arrays' shows the first example and no other |
| SpreadRestPage.SpreadInFunctionCallsKey | src/theory/SpreadRest.jsx:142 | 'Spread in Function Calls' has the key 'spread-in-function-calls' |
| SpreadRestPage.CombinedArrayLine | src/theory/SpreadRest.jsx:76 | logging `combinedArray` gives the one line `[1,2,3,4,5,6]` |
| ScopePage.KeysAreDistinct | src/theory/Scope.jsx:164 | the five examples have different keys |
| ScopePage.InitialTabShowsFirstExample | src/theory/Scope.jsx:59 | 'global-scope' shows the first example and no other |
| ScopePage.CommentedCallRewritten | src/theory/Scope.jsx:90 | the commented-out `console.log(localVar)` is rewritten to `consoleLog(localVar)`, the rest of the line kept |
| ScopePage.VarVsLetAndConstKey | src/theory/Scope.jsx:156 | 'var vs let and const' has the key 'var-vs-let-and-const' |
| JsonObjectPage.KeysAreDistinct | src/theory/JsonObject.jsx:173 | the three examples have different keys |
| JsonObjectPage.InitialTabShowsFirstExample | src/theory/JsonObject.jsx:60 | 'object-literal' shows the first example and no other |
| JsonObjectPage.QuotedArguments | src/theory/JsonObject.jsx:117 | the label is logged quoted |
| JsonObjectPage.TwoArgumentLine | src/theory/JsonObject.jsx:117 | the two-argument call gives the quoted label, one space, the quoted message |
| JsonObjectPage.KeyDifferencesKey | src/theory/JsonObject.jsx:165 | 'Key Differences' has the key 'key-differences' |
| PrecedenceAssociabilityPage.KeysAreDistinct | src/theory/PrecedenceAssociability.jsx:127 | the three examples have different keys |
| PrecedenceAssociabilityPage.InitialTabShowsFirstExample | src/theory/PrecedenceAssociability.jsx:59 | 'operator-precedence' shows the first example and no other |
| PrecedenceAssociabilityPage.TwoCallsTwoLines | src/theory/PrecedenceAssociability.jsx:71-75 | the two calls give the two lines `23` and `35`, in call order |
| DefaultValuesPage.RenderExamples | src/theory/DefaultValues.jsx:124-131 | every example is rendered with a fresh component of its own, holding the example's code and no result |
| DefaultValuesPage.EditExample | src/theory/DefaultValues.jsx:44 | editing one example leaves every other example's code and every result as they were |
| DefaultValuesPage.RunExample | src/theory/DefaultValues.jsx:23-38 | running one example sets its result from its own code (or keeps it when the run settles nothing) and changes no other example |
| DefaultValuesPage.OrOperatorLines | src/theory/DefaultValues.jsx:85-91 | the three calls log `true` and the two quoted strings |
| DefaultValuesPage.OrOperatorOutput | src/theory/DefaultValues.jsx:84-91 | the example shows the three lines `true`, `"hello"`, `"default"` |
| ReferenceValuePage.KeysAreDistinct | src/theory/ReferenceValue.jsx:131 | the four examples have different keys |
| ReferenceValuePage.InitialTabShowsFirstExample | src/theory/ReferenceValue.jsx:59 | 'primitive-types' shows the first example and no other |
| ReferenceValuePage.FunctionsAndReferencesKey | src/theory/ReferenceValue.jsx:123 | 'Functions and References' has the key 'functions-and-references' |
| ObjectsPrimitivePage.KeysAreDistinct | src/theory/ObjectsPrimitive.jsx:158 | the four examples have different keys |
| ObjectsPrimitivePage.InitialTabShowsFirstExample | src/theory/ObjectsPrimitive.jsx:59 | 'objects' shows the first example and no other |
| ObjectsPrimitivePage.WrappingPrimitivesKey | src/theory/ObjectsPrimitive.jsx:150 | 'Wrapping Primitives' has the key 'wrapping primitives', space kept |
| NullandUndefinedPage.KeysAreDistinct | src/theory/NullandUndefined.jsx:136 | the four examples have different keys |
| NullandUndefinedPage.InitialTabShowsFirstExample | src/theory/NullandUndefined.jsx:59 | 'understanding' shows the first example and no other |
| NullandUndefinedPage.NullAndUndefinedLines | src/theory/NullandUndefined.jsx:74-75 | logging `null` gives `null`, logging `undefined` gives an empty line |
| NullandUndefinedPage.CheckingKey | src/theory/NullandUndefined.jsx:128 | 'Checking for null or undefined' has the key 'checking-for null or undefined' |
| HoistingPage.KeysAreDistinct | src/theory/Hoisting.jsx:147 | the five examples have different keys |
| HoistingPage.InitialTabShowsFirstExample | src/theory/Hoisting.jsx:60 | 'hoisting-definition' shows the first example and no other |
| HoistingPage.NumberedExampleKeys | src/theory/Hoisting.jsx:139 | the numbered examples have the keys 'hoisting-example 1' and 'hoisting-example 2' |
| HoistingPage.VariableHoistingOutput | src/theory/Hoisting.jsx:77-79 | logging the unassigned `x` and then 5 gives an empty line, then `5` |
| ArrayMethodsPage.KeysAreDistinct | src/theory/ArrayMethods.jsx:146 | the five methods have different keys |
| ArrayMethodsPage.InitialTabShowsFirstExample | src/theory/ArrayMethods.jsx:59 | 'every' shows the first method and no other |
| ArrayMethodsPage.CompileErrorShowsOnlyMessage | src/theory/ArrayMethods.jsx:91-105 | the snippet that declares `affordableItems` three times shows only the tagged message, one line |
| DestructuringPage.KeysAreDistinct | src/theory/Destructuring.jsx:146 | the three examples have different keys |
| DestructuringPage.InitialTabShowsFirstExample | src/theory/Destructuring.jsx:59 | 'object-destructuring' shows the first example and no other |
| DestructuringPage.ObjectDestructuringLines | src/theory/Destructuring.jsx:74-82 | each call gives one line: `"Alice" 30`, `"Alice" "Developer"`, `"USA"` |
| DestructuringPage.ObjectDestructuringOutput | src/theory/Destructuring.jsx:70-82 | the example shows those three lines in call order |
| DestructuringPage.OtherColorsText | src/theory/Destructuring.jsx:99 | the rest array is serialised as `["blue","yellow","purple"]` |
| DestructuringPage.RestPatternLine | src/theory/Destructuring.jsx:99 | the rest-pattern call gives `"red" "green" ["blue","yellow","purple"]` on one line |
| ClosuresPage.KeysAreDistinct | src/theory/Closures.jsx:128 | the two examples have different keys |
| ClosuresPage.InitialTabShowsFirstExample | src/theory/Closures.jsx:60 | 'basic-closure' shows the first example and no other |
| ClosuresPage.GreetingDiscardedByFailure | src/theory/Closures.jsx:84-87 | the greeting would show as `"Hola Miguel"`, but the failing `validateName` call replaces it with the tagged message |
| ClosuresPage.BasicClosure2Key | src/theory/Closures.jsx:120 | 'Basic Closure 2' has the key 'basic-closure 2', not the initial tab |
| CoercionPage.KeysAreDistinct | src/theory/Coercion.jsx:115 | the two examples have different keys |
| CoercionPage.InitialTabShowsFirstExample | src/theory/Coercion.jsx:60 | 'existence-check' shows the first example and no other |
| CoercionPage.RunTwice | src/theory/Coercion.jsx:22-37 | pressing the button twice leaves the code as it was; the second result is what the second evaluation settles, whatever the first press showed, or the first result when the second settles nothing |
| DataTypesDynamicTypingPage.KeysAreDistinct | src/theory/DataTypesDynamicTyping.jsx:128 | the three examples have different keys |
| DataTypesDynamicTypingPage.InitialTabShowsFirstExample | src/theory/DataTypesDynamicTyping.jsx:60 | 'data-types' shows the first example and no other |
| DataTypesDynamicTypingPage.TypeNameLines | src/theory/DataTypesDynamicTyping.jsx:77-80 | each `typeof` result is logged quoted |
| DataTypesDynamicTypingPage.TypeofLines | src/theory/DataTypesDynamicTyping.jsx:77-80 | the example shows four quoted type names, one per line |

## Findings

| source | as written | input that shows it | evidently intended | confidence | as-written member | corrected member |
|---|---|---|---|---|---|---|
| src/theory/Memoization.jsx:60 | the initial tab 'what-is-memoization' is compared with keys that replace only the first space | mounting the page: the first example's key is 'what-is memoization' | the first example's panel is shown on mounting, as on every other tabbed page | high, not executed | MemoizationPage.NoPanelInitially | MemoizationPage.CorrectedInitialTabShowsFirstExample |
| src/theory/LexicalExecution.jsx:34-35 | the catch block reads `error.message`, which itself throws a `TypeError` when the thrown value is `null` or `undefined`, so `setResult` is never called | the snippet `throw null;`: the result of the previous run stays on show | a failure line tagged `Error: ` is shown, as for every other throw | medium, not executed | Sandbox.NullishThrowSettlesNothing | Sandbox.NullishThrowShowsError |

The facts about the pages' examples are stated with `Sandbox.ResultText`, the
text each run is meant to show; `Sandbox.Settled`, `Sandbox.Execute` and
`Sandbox.InteractiveExample.RunCode` keep the code's behaviour for a thrown
`null` or `undefined`, which settles nothing.

## Left out

- Evaluating the snippet with `new Function` and calling it: this is a JavaScript engine, so a run takes the engine's outcome as a parameter (compile error, or calls followed by a return or a throw, plus the calls made later by callbacks).
- The engine's error message texts, and snippets whose declarations collide with the wrapper's own `output`, `consoleLog` or `consoleError` bindings: both need a JavaScript parser.
- Sandbox.Execute: its outcomes do not include a snippet that uses the wrapper's body directly, by a top-level `return v` (the result is then `v`, and `return;` gives no result) or by changing `output` itself (`output.push(...)`, `output.length = 0`); telling those apart needs a JavaScript parser, and a tagged result on a `console.log`-only page is a failure only among the outcomes modelled.
- CoercionPage.RunTwice: the page's global object, clock (`Date.now`) and random source (`Math.random`) are shared by the two evaluations and not modelled; each press is given its own engine, so nothing is claimed about how the two evaluations relate.
- `JSON.stringify` on numbers that are not integers of magnitude at most 2^53 - 1 (fractions, exponent forms such as `1e+21`, integers a double rounds), BigInt, Symbol, functions, `toJSON` methods and cyclic objects: a `Number` holds a safe integer only, and a value that serialises to nothing is written as `Undefined`.
- The event loop: promise and `setTimeout` callbacks run after `runCode` has returned; the model keeps only the fact that their calls never reach the result.
- `console.error` on pages other than Promises is not intercepted and writes to the host console, which is not modelled.
- `toLowerCase` beyond ASCII letters: other characters are kept as they are.
- Lone surrogate code units in strings: Dafny characters are Unicode scalar values, so `JSON.stringify`'s escaping of lone surrogates does not arise.
- React rendering, `useState` scheduling, JSX markup, styles, `ExternalLinks`, the prose and the description texts of the examples.
- `src/App.js` (routing), `src/components/sidebar.jsx` (navigation) and `src/SyntaxHighlighterUtil.js` (code highlighting) are not part of this model.
- The debugging `console.log` calls at the top level of some pages, such as `src/theory/Memoization.jsx:59`: they write to the host console.
- The snippet texts of the examples are not modelled as a whole; the facts about an example state the calls it makes and prove the text it shows.
- PromisesPage.CreatingAPromiseShowsOnlySyncLine: the message of line 92 is a parameter rather than the literal text, because the proof is stated for every message.
