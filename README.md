# checkmate, modelled in Dafny

checkmate is a service that grades Python submissions. A request carries:
- the submitted source;
- a list of tests;
- optionally a function name;
- flags for linked-list mode and "level 5" mode.

Each test gives input arguments, optional expected output arguments and an expected return value. This project models the parts of checkmate that decide each test's result:

- **The `ListPtr` cursor** (`LinkedList`). A position over a private copy of a list. It steps forward and back under bounds checks, and its writes accept only integers in [-99, 99]. The class has the source's fields and methods.
- **Python equality on test values** (`Values`). Linked-list mode hands cursors to the submitted function, and `==` on them is where a crash can come from. There are three modes:
  - the cursor's `__eq__` as written;
  - a corrected `__eq__`;
  - the identity comparison of the older cursor, which has no `__eq__`.
- **The specification validator of checkmate/spec_check.py** (`SpecCheck`):
  - the visitor class, with its stack of parent nodes;
  - a functional walk that its methods are proved against;
  - declarative views: the top-level `def`s, and the imports the visitor reaches.
  
  Only a `def` directly inside the module can be the target. When no name is given, the first such `def` fixes it. A wrong parameter count raises. In level-5 mode the target is fixed to `when_run`. Every reached `import` is rejected, at any depth, unless a top-level `when_run` with a wrong parameter count is met first and raises the arity error.
- **The older validator run_python_tests/syntax_check.py** (`SyntaxCheck`). It never enters function bodies. It considers `def`s nested in other blocks. It words the arity error differently.
- **Both validators' target selection** (`DefSearch`). The selection both share is a scan over the visited `def`s, with characterisation lemmas.
- **The request and result types of checkmate/types.py** (`Types`):
  - the length validator;
  - the result tags and their names.
- **checkmate/index.py** (`Runner`):
  - `transform_args`;
  - the `Line N. message` error string, with a parser that reads it back;
  - the order in which `run_one` decides a test: compile error, then specification error, then timeout probe, then runtime error, then return value, then output arguments;
  - `run_tests`.
- **The older single-file service index.py** (`LegacyIndex`):
  - the two regular-expression readers of the source text (the function header, and a named function's parameter list);
  - `run_one`: a JSON test object and one worker run;
  - `run_tests`: the name is resolved once per request.

The same model serves both cursor classes (checkmate/linked_list.py and the copy in index.py). The older one differs only in its equality.

Inputs the model takes as parameters:
- Parsing and compiling the source become an input (`Runner.Source`): a compile error, or a syntax tree (`PyAst`).
- Running the submitted function becomes an input (`Runner.Execution`): what the timeout probe did, and what the real call returned or raised.
- In the older service this is one `LegacyIndex.WorkerOutcome`.
- The caller line numbers the cursor reads from the interpreter stack become method parameters.

## Model

| member | source | states |
|---|---|---|
| LinkedList.ListPtr.constructor | checkmate/linked_list.py:9-13 | the cursor owns the given list and starts at the given position; it is valid exactly when that position is in the list, or 0 |
| LinkedList.ListPtr.View | checkmate/linked_list.py:15-16 | the cursor as a value carries exactly its list |
| LinkedList.ListPtr.Equals | checkmate/linked_list.py:18-19 | two cursors compare by their lists under the as-written equality; cursors over equal lists are equal |
| LinkedList.EqualityIgnoresPosition | checkmate/linked_list.py:18-19 | cursors over the same list at different positions are equal |
| LinkedList.ListPtr.GoNext | checkmate/linked_list.py:21-26 | advances by one exactly when `has_next` held; otherwise the position is kept and the error names the caller's line; the list never changes and validity is preserved |
| LinkedList.ListPtr.GoPrev | checkmate/linked_list.py:28-33 | steps back by one exactly when `has_prev` held; otherwise the position is kept and the error names the caller's line; validity is preserved |
| LinkedList.ListPtr.HasNext | checkmate/linked_list.py:35-36 | on a valid cursor: true iff the list is nonempty and the position is not the last |
| LinkedList.ListPtr.HasPrev | checkmate/linked_list.py:38-39 | on a valid cursor: true iff the list is nonempty and the position is not the first |
| LinkedList.PyIndex | checkmate/linked_list.py:42 | Python indexing: a nonnegative index inside the list is itself, an index beyond either end denotes no element, and any element it denotes is in range |
| LinkedList.ListPtr.GetValue | checkmate/linked_list.py:41-42 | a valid cursor over a nonempty list reads its current element; on an empty list `IndexError` |
| LinkedList.ListPtr.SetValue | checkmate/linked_list.py:44-49 | a value that is not an integer in [-99, 99] (booleans count as integers) is refused with the range message and nothing changes; an accepted value replaces exactly the indexed element; the position never moves |
| LinkedList.WriteOnValidCursor | checkmate/linked_list.py:44-46 | on a valid cursor, a successful write changes the current element and no other |
| Values.EqualReflexive | checkmate/linked_list.py:18-19 | with cursors compared by contents, every value equals itself, nested lists and cursors included |
| Values.CursorPositionIgnored | checkmate/linked_list.py:18-19 | the position of a cursor never takes part in equality |
| Values.CursorAgainstNonCursorRaises | checkmate/linked_list.py:18-19 | as written, `==` and `!=` between a cursor and a non-cursor raise `AttributeError`, in either order |
| Values.CorrectedEqualTotal | checkmate/linked_list.py:18-19 | the corrected equality never raises |
| Values.CorrectedAgrees | checkmate/linked_list.py:18-19 | wherever the as-written equality gives an answer, the corrected one gives the same answer |
| DefSearch.ScanDefsAppend | checkmate/spec_check.py:44-61 | scanning two lists of visited `def`s is scanning the first, then the second from where the first left off |
| DefSearch.ScanFixedTargetSucceeds | checkmate/spec_check.py:48-56 | with the name fixed and no wrong parameter count: the name is kept; found iff some visited `def` has the name; the recorded parameters are those of the last such `def` |
| DefSearch.ScanFixedTargetFails | checkmate/spec_check.py:50-61 | with the name fixed, the first `def` of that name with a wrong parameter count raises, with its line and the arity message |
| DefSearch.ScanUnnamed | checkmate/spec_check.py:48-49 | with no name requested, the scan is the scan with the first visited `def`'s name requested |
| SpecCheck.WalkStmt | checkmate/spec_check.py:32-62 | visiting a statement keeps the visitor's state consistent (found implies a name and parameter names) and never changes a name once fixed |
| SpecCheck.WalkSeq | checkmate/spec_check.py:32-35 | the same for a statement list visited in order |
| SpecCheck.SpecificationCheckVisitor.constructor | checkmate/spec_check.py:23-30 | a fresh visitor: the given name, no parameter names, nothing found, empty parent stack |
| SpecCheck.SpecificationCheckVisitor.VisitModule | checkmate/spec_check.py:70 | visiting the module walks its body at the top level and leaves the stack as it was |
| SpecCheck.SpecificationCheckVisitor.GenericVisit | checkmate/spec_check.py:32-35 | pushes the node, visits the children in order, and pops it on success; the resulting state (or error) is that of the functional walk |
| SpecCheck.SpecificationCheckVisitor.Visit | checkmate/spec_check.py:32-62 | dispatching a node gives the functional walk's state or error, judged top-level by the parent stack |
| SpecCheck.SpecificationCheckVisitor.VisitImport | checkmate/spec_check.py:40-42 | raises exactly in level-5 mode, with the import's line and message |
| SpecCheck.SpecificationCheckVisitor.VisitFunctionDef | checkmate/spec_check.py:44-62 | a nested `def` is only descended into; a top-level one is selected, recorded, arity-checked and then descended into, as the functional walk says |
| SpecCheck.CheckSpecification | checkmate/spec_check.py:65-76 | the visitor's result is `Checked`: the resolved name and parameters, or the error raised |
| SpecCheck.TopDefs | checkmate/spec_check.py:37-38 | there are no more top-level `def`s than top-level statements |
| SpecCheck.NestedWalk | checkmate/spec_check.py:44-47 | below the top level nothing is selected: the walk changes nothing, or in level-5 mode stops at the first import |
| SpecCheck.TopWalkIsScan | checkmate/spec_check.py:37-62 | outside level-5 mode, the walk is the selection scan over the top-level `def`s alone |
| SpecCheck.NestedDefsIgnored | checkmate/spec_check.py:44-47 | outside level-5 mode, modules with the same top-level `def`s check alike |
| SpecCheck.CheckedWithName | checkmate/spec_check.py:50-75 | with a requested name: the first wrong-arity `def` raises; else not found when there is no such `def`; else the last such `def`'s parameters |
| SpecCheck.FirstTopLevelDefIsTarget | checkmate/spec_check.py:48-49 | with no name: the first top-level `def` is the target, and without one the error says "No function found in source" |
| SpecCheck.Level5Stmt | checkmate/spec_check.py:40-62 | in level-5 mode a statement's visit raises the error of its first event; with no event it succeeds and equals the visit without the import rule |
| SpecCheck.Level5Checked | checkmate/spec_check.py:40-75 | for every module, level-5 mode checks `when_run` whatever name was requested. An event is a reached `import`, or a top-level `when_run` with a wrong parameter count (whose body is then not entered), taken in the order the visitor meets them. The first event decides the outcome: `NoImportsAllowedError` at an import's line, or `WrongNumberOfArgumentsError` at the `def` of a wrong-arity `when_run`. With no event the outcome is the ordinary check of `when_run` |
| SpecCheck.EventsAreImports | checkmate/spec_check.py:40-62 | when every top-level `when_run` has the right arity, the events are exactly the reached imports, in order |
| SpecCheck.Level5ImportsOnly | checkmate/spec_check.py:40-42 | with `when_run` of the right arity, the check fails at the first reached import (even inside `when_run`), and otherwise is the ordinary check of `when_run` |
| SpecCheck.WrongArityBeforeInnerImport | checkmate/spec_check.py:55-61 | `def when_run(a, b)` holding `import os`, given one input: the arity error at the `def` is raised, and the import is never reached |
| SpecCheck.ImportBeforeWrongArity | checkmate/spec_check.py:40-42 | an import above a wrong-arity `when_run` is met first and rejected |
| SpecCheck.StripUnselected | checkmate/spec_check.py:50-51 | emptying the bodies of non-target `def`s keeps the number of statements |
| SpecCheck.UnselectedBodyNotVisited | checkmate/spec_check.py:50-51 | the body of a top-level `def` other than the target is never visited: emptying it changes nothing |
| SpecCheck.OuterImportBefore | checkmate/spec_check.py:40-42 | an import before `when_run` is rejected with its line (2) |
| SpecCheck.OuterImportAfter | checkmate/spec_check.py:40-42 | an import after `when_run` is rejected with its line (6) |
| SpecCheck.InnerImport | checkmate/spec_check.py:40-42 | an import inside `when_run` is rejected, the first one reached (line 3) |
| SpecCheck.WhenRunNotFound | checkmate/spec_check.py:66-75 | a level-5 module without `when_run` reports "Function 'when_run' not found" |
| SyntaxCheck.LegacyWalkStmt | run_python_tests/syntax_check.py:33-51 | visiting a statement keeps the state consistent and never changes a fixed name |
| SyntaxCheck.LegacyWalkSeq | run_python_tests/syntax_check.py:33-51 | the same for a statement list visited in order |
| SyntaxCheck.LegacySpecificationCheckVisitor.constructor | run_python_tests/syntax_check.py:23-31 | a fresh visitor, with the name forced to `when_run` in level-5 mode |
| SyntaxCheck.LegacySpecificationCheckVisitor.GenericVisit | run_python_tests/syntax_check.py:22 | children are visited in order, as the functional walk says |
| SyntaxCheck.LegacySpecificationCheckVisitor.Visit | run_python_tests/syntax_check.py:33-51 | dispatching a node gives the functional walk's state or error |
| SyntaxCheck.LegacySpecificationCheckVisitor.VisitImport | run_python_tests/syntax_check.py:33-35 | raises exactly in level-5 mode |
| SyntaxCheck.LegacySpecificationCheckVisitor.VisitFunctionDef | run_python_tests/syntax_check.py:37-51 | a `def` is selected, recorded and arity-checked; its body is never visited |
| SyntaxCheck.CheckSpecification | run_python_tests/syntax_check.py:54-63 | the visitor's result is `LegacyChecked` |
| SyntaxCheck.LegacyWalkIsScan | run_python_tests/syntax_check.py:37-51 | outside level-5 mode, the walk is the selection scan over the `def`s not inside another `def` |
| SyntaxCheck.LegacyCheckedWithName | run_python_tests/syntax_check.py:40-62 | with a requested name: the first reached wrong-arity `def` raises (with the older wording); else not found; else the last reached `def`'s parameters |
| SyntaxCheck.StripBodies | run_python_tests/syntax_check.py:37-51 | emptying bodies keeps every `def` a `def` |
| SyntaxCheck.BodiesIgnored | run_python_tests/syntax_check.py:37-51 | function bodies are never looked at, in either mode |
| SyntaxCheck.LegacyBodiesIgnored | run_python_tests/syntax_check.py:54-63 | the check of a module equals the check with every function body emptied |
| SyntaxCheck.LegacyLevel5 | run_python_tests/syntax_check.py:33-51 | in level-5 mode a visit raises the error of its first event; with no event it succeeds and equals the visit without the import rule |
| SyntaxCheck.LegacyLevel5Checked | run_python_tests/syntax_check.py:26-62 | for every module, with events the imports outside every `def` and the reached `when_run`s with a wrong parameter count, in source order: the first event decides the level-5 outcome: `NoImportsAllowedError` for an import outside a function, or the older arity error for a wrong-arity `when_run`. With no event the outcome is the check of `when_run`, except that a missing `when_run` is reported under the requested name |
| SyntaxCheck.LegacyEventsAreImports | run_python_tests/syntax_check.py:33-51 | when every reached `when_run` has the right arity, the events are exactly the imports outside every `def`, in order |
| SyntaxCheck.LegacyLevel5ImportsOnly | run_python_tests/syntax_check.py:33-35 | with every reached `when_run` of the right arity, the first import outside a function fails the check, and with no such import there is no event |
| SyntaxCheck.LegacyWrongArityBeforeImport | run_python_tests/syntax_check.py:43-51 | a wrong-arity `when_run` above an import raises the arity error first |
| SyntaxCheck.InnerImportAccepted | run_python_tests/syntax_check.py:37-51 | an import inside `when_run` passes |
| SyntaxCheck.WhenRunMissingMessage | run_python_tests/syntax_check.py:58-60 | a level-5 module without `when_run` and no name reports "No function found in source" |
| SyntaxCheck.NestedInBlockSelected | run_python_tests/syntax_check.py:37-43 | a `def` inside another block is a candidate |
| Types.TagFromName | checkmate/types.py:30-36 | a name read back as a tag is that tag's name |
| Types.TagRoundTrip | checkmate/types.py:30-36 | every tag reads back as itself |
| Types.TagNamesInjective | checkmate/types.py:30-36 | distinct tags have distinct names |
| Types.Tag | checkmate/types.py:47-79 | the discriminator is `success` exactly for the success result, and one of runtime error, timeout and fail exactly for the results that carry diagnostics |
| Types.TagDecidesVariant | checkmate/types.py:76-79 | the discriminator decides the result class |
| Types.CheckTest | checkmate/types.py:12-18 | a test is accepted unchanged iff it has no output arguments or as many as input arguments; otherwise `ValueError` with the fixed message |
| Types.NoOutputArgsAccepted | checkmate/types.py:16 | a test without output arguments is always accepted |
| Types.UnequalLengthsRejected | checkmate/types.py:16-17 | two inputs and one output argument are rejected |
| Types.CheckTests | checkmate/types.py:23 | a test list is accepted unchanged iff every test is |
| Types.CheckRequest | checkmate/types.py:21-27 | a request is accepted unchanged iff every test is |
| Types.RequestDefaults | checkmate/types.py:24-27 | no name, not linked-list, not level 5, timeout checked |
| Runner.Wrap | checkmate/index.py:98-101 | in linked-list mode a list becomes a cursor over its items at position 0; anything else is unchanged |
| Runner.WrapAll | checkmate/index.py:96-102 | one wrapped argument per argument, in order |
| Runner.TransformArgs | checkmate/index.py:93-102 | `None` stays `None`; otherwise the result is the arguments wrapped in order |
| Runner.UnwrapAll | checkmate/index.py:99 | one unwrapped value per value |
| Runner.WrapRoundTrip | checkmate/index.py:99 | each cursor owns exactly the list it replaced: unwrapping gives the arguments back |
| Runner.WrapIdempotent | checkmate/index.py:93-102 | wrapping twice is wrapping once, and outside linked-list mode nothing changes |
| Runner.ErrorStringRoundTrip | checkmate/index.py:105-109 | `Line N. message` always reads back as its line and message |
| Runner.CheckOutputArgs | checkmate/index.py:158-165 | the indexed loop computes the output-argument mismatch, raising when a comparison raises |
| Runner.MismatchMeaning | checkmate/index.py:158-165 | no mismatch iff every non-`None` expected output argument equals the argument after the call; a mismatch names a differing position |
| Runner.ExpectedOutputArgs | checkmate/index.py:123-129 | expected output arguments are present iff the test has them, wrapped like the inputs |
| Runner.FailureBeforeExecution | checkmate/index.py:130-138 | a compile or specification failure is a syntax-error result, whatever the execution would do |
| Runner.ProbeOnlyDecidesTimeout | checkmate/index.py:139-145 | what the probe returned or raised plays no part |
| Runner.TimeoutWins | checkmate/index.py:141-143 | a probe that times out gives a timeout result with the test's diagnostics, whatever the real call would do |
| Runner.RaisedIsRuntimeError | checkmate/index.py:146-151 | an exception in the call is a runtime-error result whose message reads back as its line and description |
| Runner.ReturnMismatchFailsFirst | checkmate/index.py:152-157 | a wrong return value fails the test, reporting the arguments after the call and the value returned |
| Runner.SuccessIff | checkmate/index.py:118-166 | success iff: the specification check passes, the probe finishes, the call returns the expected value, and every non-`None` expected output argument matches |
| Runner.OutputArgFailureNamesPosition | checkmate/index.py:158-165 | a failure after a correct return value names a differing output-argument position |
| Runner.CorrectedNeverCrashes | checkmate/index.py:152-165 | with the corrected cursor equality no test raises past the comparisons, and where the written version gives a result the corrected one gives the same |
| Runner.ReturnedCursorCrashes | checkmate/index.py:152 | as written, returning the cursor when a plain list is expected crashes the request |
| Runner.OutputArgCursorCrashes | checkmate/index.py:160 | as written, a list expected at a non-list argument position crashes the request in linked-list mode |
| Runner.SpecErrorLineAsWritten | checkmate/index.py:105-109 | as written, a rejected level-5 import is reported at line 42, the validator's own `raise`, not at the import's line |
| Runner.SpecErrorCarriesNodeLine | checkmate/index.py:136-138 | corrected, a specification error's message carries the offending statement's line |
| Wrappers.CollectMeaning | checkmate/index.py:174-184 | running the tests in order gives one value per test, in order, exactly when none raises; otherwise the exception is that of a test all of whose predecessors completed |
| Runner.Results | checkmate/index.py:175-182 | one outcome per test of the request, each that of `run_one` on the test under the request's settings |
| Runner.RunTests | checkmate/index.py:173-184 | the loop's result is the in-order collection of the per-test outcomes: one result per test, or the first exception |
| Runner.CorrectedRequestCompletes | checkmate/index.py:173-184 | with the corrected equality every test of a request gives a result, for submissions whose raises are all `Exception`s |
| LegacyIndex.ParsedHeaderRenders | index.py:113-115 | every header match is a valid header followed by the rest of the text |
| LegacyIndex.PiecesRender | index.py:114 | the matched pieces, put back together, are the text |
| LegacyIndex.RenderedHeaderParses | index.py:113-115 | a valid header followed by any text is matched, and `first_function_name` yields its name |
| LegacyIndex.ArgNamesOf | index.py:120 | one parameter name per comma, plus one |
| LegacyIndex.ArgNamesStripped | index.py:120 | no parameter name has whitespace at either end |
| LegacyIndex.FirstArgsSkips | index.py:119-120 | positions where no match starts do not change which match comes first |
| LegacyIndex.HeaderArgNames | index.py:118-120 | for a source starting with a header, `get_arg_names` with its name reads that header's parameter list |
| LegacyIndex.NoMatchAtSpace | index.py:119 | no match starts at whitespace |
| LegacyIndex.HeaderArgsAt | index.py:119 | a header's text matches the parameter-list pattern for its own name |
| LegacyIndex.EmptyParameterList | index.py:120 | `def f()` has the parameter list `['']` |
| LegacyIndex.Lookup | index.py:156 | a key lookup succeeds iff the key is present, and raises `KeyError` naming it otherwise |
| LegacyIndex.Elements | index.py:131 | iterating a list gives its items, a string its characters, and anything else raises |
| LegacyIndex.IdentityTotal | index.py:178 | comparison without `__eq__` never raises |
| LegacyIndex.LegacySuccessIff | index.py:155-180 | success iff: the test object is well formed, the parameter list is found, the source compiles, the worker returns, and the value equals the expected output |
| LegacyIndex.OutputArgsIgnored | index.py:156-180 | the expected output arguments never affect the result |
| LegacyIndex.ReturnedCursorFails | index.py:171-179 | a returned cursor never equals the expected output |
| LegacyIndex.ReportedArgsArePassedArgs | index.py:157-161 | the reported arguments are the arguments passed |
| LegacyIndex.LegacyResults | index.py:188-190 | one outcome per test, each that of `run_one` under the resolved name |
| LegacyIndex.LegacyRunAll | index.py:187-191 | the loop's result is the in-order collection of the per-test outcomes: one result per test, or the first exception |
| LegacyIndex.LegacyRunTests | index.py:184-191 | the name is resolved once and a failure to resolve it ends the request; otherwise the result is that of the loop under that name |
| LegacyIndex.UnnamedNeedsLeadingDef | index.py:185 | without a name, a source that does not start with a header fails before any test runs |

## Left out

- Parsing and compiling Python (`ast.parse`, `compile`), `exec` and calling the submission are not modelled. Their outcomes are inputs: `Runner.Source`, `Runner.Execution`, `LegacyIndex.WorkerOutcome`.
- The process pool, the 3-second timeout and the pickling of arguments to the worker are not modelled. A timeout is one outcome among the inputs.
- Only the call of the submitted function inside the worker process is time-limited, by `run_with_timeout`. The module-level code of the submission runs through `exec` in the parent process first, outside the time limit: at checkmate/index.py:139 and :147 (both through `string_to_lambda`, line 88), and at index.py:169 (line 125). A hang there hangs the request, and it is not modelled. The second call at checkmate/index.py:148 is in-process and has no time limit either; a hang there is not modelled. `ProbeTimedOut` and `WorkerTimedOut` stand only for a call of the function that times out in the worker.
- Runner.CorrectedNeverCrashes, Runner.CorrectedRequestCompletes: a raise is modelled as one that `except Exception` catches. `SystemExit` (from `exit()`, `sys.exit()` or `raise SystemExit`) and `KeyboardInterrupt` are not `Exception`s. Raised by the submission's module-level code or by its function, at checkmate/index.py:139, :147 or :148 (index.py:169-170 in the older service), they end the request; the model does not capture this. So "every test of a request gives a result" holds only for submissions that raise nothing outside `Exception`.
- `inspect.stack()` line lookups become the `callerLine` parameters.
- The innermost traceback frame of a runtime error is part of `Runner.ExcInfo`, given by the execution.
- `repr` of the reported values is not modelled. Results carry the values themselves.
- FastAPI routing, pydantic parsing of JSON into requests and the `json.loads` of `testJSON` are not modelled. Legacy tests are given already decoded, as maps.
- Types.CheckRequest: the model checks only the length validator. The pydantic type checks of the fields are not modelled.
- `checkmate/types.py` fields no runner reads are not modelled: `check_timeout` and the per-test `function_name` are carried but never read.
- Floating-point equality is modelled on exact reals. `bool`, `int` and `float` compare by numeric value, as in Python.
- Tuples, dicts and other Python objects are not `Value`s.
- `\s` and `str.strip()` use the whitespace of `str.isspace()`, Unicode included. `\w` is ASCII only: letters, digits and `_`. The Unicode letters and digits that `\w` also matches are not modelled.
- LegacyIndex.GetArgNames: the function name is matched literally. A name holding regular-expression metacharacters is not modelled.
- Runner.RunOne: aliasing is not modelled. Both argument lists are values, and the call's effect on the arguments is the `after` sequence of the execution.
- Line 58 of checkmate/spec_check.py is the first line of a multi-line `raise`, which is the line Python reports for it.
- checkmate/index.py imports `check_specification` from a `syntax_check` module inside `checkmate` that is not part of this model. The model uses checkmate/spec_check.py, which agrees with the new runner's messages and level-5 behaviour.
- The result classes of checkmate/index.py that duplicate checkmate/types.py are modelled once, by `Types`. In particular, `function_name` in the diagnostics is filled with the resolved name.

## Findings

| source | as written | input that shows it | evidently intended | confidence | as-written member | corrected member |
|---|---|---|---|---|---|---|
| checkmate/linked_list.py:18-19 | `__eq__` reads `other._lst`, so comparing a cursor with a non-cursor raises `AttributeError`; in checkmate/index.py:152 and :160 nothing catches it, and the whole request fails | linked-list mode, a function returning its list argument when the expected output is `[1]` | a cursor is unequal to a non-cursor, and the test fails | not executed | Values.CursorAgainstNonCursorRaises, Runner.ReturnedCursorCrashes | Values.CorrectedEqualTotal, Runner.CorrectedNeverCrashes |
| checkmate/index.py:107 | the error line is that of the innermost traceback frame, which for a specification error is the `raise` inside checkmate/spec_check.py (42, 58, 73 or 75), not the submission's line | level 5, `import os` on line 2: reported as "Line 42." | the line carried by the error (`lineno`), i.e. the offending statement | not executed | Runner.SpecErrorLineAsWritten | Runner.SpecErrorCarriesNodeLine |
