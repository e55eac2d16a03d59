/** The per-request pipeline of checkmate/index.py: argument preparation, the
    fixed order in which one test's outcome is decided, the error-string format
    and one result per test.  Compiling the source, running the submitted
    function and the timeout probe are outside the model: the parse result and
    an `Execution` (what the probe and the real call did) are inputs. */
module Runner {
  import opened Wrappers
  import opened Strings
  import opened Values
  import opened PyAst
  import opened DefSearch
  import SpecCheck
  import opened Types

  // ---------------------------------------------------------------------------
  // transform_args

  /** One argument as handed to the function: in linked-list mode a list
      becomes a `ListPtr` over a copy of it, at position 0. */
  function Wrap(v: Value, linked: bool): (w: Value)
    ensures linked && v.VList? ==> w == VCursor(v.items, 0)
    ensures !(linked && v.VList?) ==> w == v
  {
    if linked && v.VList? then VCursor(v.items, 0) else v
  }

  function WrapAll(args: seq<Value>, linked: bool): (ws: seq<Value>)
    ensures |ws| == |args| && forall i :: 0 <= i < |args| ==> ws[i] == Wrap(args[i], linked)
  {
    if |args| == 0 then [] else [Wrap(args[0], linked)] + WrapAll(args[1..], linked)
  }

  /** `transform_args`: `None` stays `None`; otherwise the arguments are wrapped
      one by one, in order. */
  method TransformArgs(args: Option<seq<Value>>, linked: bool) returns (r: Option<seq<Value>>)
    ensures r.None? <==> args.None?
    ensures args.Some? ==> r == Some(WrapAll(args.value, linked))
  {
    if args.None? {
      return None;
    }
    var xs := args.value;
    var result: seq<Value> := [];
    for i := 0 to |xs|
      invariant |result| == i
      invariant forall k :: 0 <= k < i ==> result[k] == Wrap(xs[k], linked)
    {
      if linked && xs[i].VList? {
        result := result + [VCursor(xs[i].items, 0)];
      } else {
        result := result + [xs[i]];
      }
    }
    assert result == WrapAll(xs, linked);
    return Some(result);
  }

  /** The list a `ListPtr` owns, or the value itself. */
  function Unwrap(v: Value): Value {
    if v.VCursor? then VList(v.items) else v
  }

  function UnwrapAll(ws: seq<Value>): (vs: seq<Value>)
    ensures |vs| == |ws| && forall i :: 0 <= i < |ws| ==> vs[i] == Unwrap(ws[i])
  {
    if |ws| == 0 then [] else [Unwrap(ws[0])] + UnwrapAll(ws[1..])
  }

  /** Test data decoded from JSON holds no cursors. */
  predicate NoCursors(args: seq<Value>) {
    forall i :: 0 <= i < |args| ==> !args[i].VCursor?
  }

  /** Wrapping loses nothing: each cursor owns exactly the list it replaced. */
  lemma WrapRoundTrip(args: seq<Value>, linked: bool)
    requires NoCursors(args)
    ensures UnwrapAll(WrapAll(args, linked)) == args
  {
    var ws := UnwrapAll(WrapAll(args, linked));
    assert forall i :: 0 <= i < |args| ==> ws[i] == args[i];
  }

  /** Wrapping twice is wrapping once, and outside linked-list mode nothing changes. */
  lemma WrapIdempotent(args: seq<Value>, linked: bool)
    ensures WrapAll(WrapAll(args, linked), linked) == WrapAll(args, linked)
    ensures WrapAll(args, false) == args
  {
    var once := WrapAll(args, linked);
    assert forall i :: 0 <= i < |args| ==> WrapAll(once, linked)[i] == once[i];
    assert forall i :: 0 <= i < |args| ==> WrapAll(args, false)[i] == args[i];
  }

  // ---------------------------------------------------------------------------
  // get_error_string

  /** An exception as `get_error_string` sees it: the line of the innermost
      traceback frame and the last line of the formatted exception, stripped. */
  datatype ExcInfo = ExcInfo(line: nat, description: string)

  function ErrorString(e: ExcInfo): string {
    "Line " + NatToString(e.line) + ". " + e.description
  }

  /** Reads an error string back into its line and description. */
  function ParseErrorString(s: string): Option<ExcInfo> {
    if |s| < 5 || s[..5] != "Line " then None
    else
      var e := DigitRunEnd(s, 5);
      if e == 5 || |s| < e + 2 || s[e..e + 2] != ". " then None
      else Some(ExcInfo(DigitsToNat(s[5..e]), s[e + 2..]))
  }

  /** The line and the description can always be recovered from the string. */
  lemma ErrorStringRoundTrip(e: ExcInfo)
    ensures ParseErrorString(ErrorString(e)) == Some(e)
  {
    var s, d := ErrorString(e), NatToString(e.line);
    var n := 5 + |d|;
    assert s[..5] == "Line ";
    assert s[5..n] == d;
    assert s[n] == '.';
    DigitRunEndAt(s, 5, n);
    assert s[n..n + 2] == ". ";
    assert s[n + 2..] == e.description;
    DigitsRoundTrip(e.line);
  }

  // ---------------------------------------------------------------------------
  // What the outside world contributes.

  /** `compile(source, ...)` followed by `ast.parse`: a `SyntaxError` with its
      formatted message, or the tree. */
  datatype Source = CompileFailed(description: string) | Parsed(tree: Module)

  /** The line of `compile(...)` in `run_one`: compilation is a built-in, so it
      is the innermost frame of a `SyntaxError`'s traceback. */
  const CompileLine: nat := 131

  /** The real call: the value returned and the arguments as they are after
      the call, or the exception it raised. */
  datatype CallOutcome = Returned(value: Value, after: seq<Value>) | Raised(info: ExcInfo)

  /** The probe in a worker process: it finished (its result is discarded) or
      timed out. */
  datatype ProbeOutcome = ProbeDone(outcome: CallOutcome) | ProbeTimedOut

  datatype Execution = Execution(probe: ProbeOutcome, call: CallOutcome)

  /** A returned call hands back as many arguments as it was given. */
  predicate CallFits(exec: Execution, arity: nat) {
    exec.call.Returned? ==> |exec.call.after| == arity
  }

  // ---------------------------------------------------------------------------
  // Specification errors as `get_error_string` renders them.

  /** Which behaviour of the two findings of this model is in force. */
  datatype Variant = AsWritten | Corrected

  function EqualityOf(v: Variant): CursorEquality {
    if v == AsWritten then Contents else ContentsCorrected
  }

  const SpecModule: string := "checkmate.spec_check."

  function ErrorClassName(e: SpecError): string {
    match e
    case NoImportsAllowed(_, _) => "NoImportsAllowedError"
    case FunctionDefNotFound(_, _) => "FunctionDefNotFoundError"
    case WrongNumberOfArguments(_, _) => "WrongNumberOfArgumentsError"
  }

  /** The line of the `raise` in checkmate/spec_check.py that raised `e`; the
      not-found error has two, depending on whether a name was in force. */
  function SpecRaiseLine(e: SpecError, named: bool): nat {
    match e
    case NoImportsAllowed(_, _) => 42
    case WrongNumberOfArguments(_, _) => 58
    case FunctionDefNotFound(_, _) => if named then 75 else 73
  }

  /** As written, the traceback's innermost frame is the validator's own
      `raise`, so the line reported is a line of the checker; the corrected
      version reports the line carried by the error. */
  function SpecErrorInfo(variant: Variant, e: SpecError, named: bool): ExcInfo {
    ExcInfo(if variant == AsWritten then SpecRaiseLine(e, named) else e.line,
            SpecModule + ErrorClassName(e) + ": " + e.msg)
  }

  // ---------------------------------------------------------------------------
  // The output-argument check.

  /** Scanning the expected output arguments from position `i`: `true` at the
      first non-`None` one that differs from the argument after the call. */
  function MismatchFrom(mode: CursorEquality, after: seq<Value>, expected: seq<Value>, i: nat): Result<bool, Crash>
    requires i <= |expected| <= |after|
    decreases |expected| - i
  {
    if i == |expected| then Ok(false)
    else if expected[i].VNone? then MismatchFrom(mode, after, expected, i + 1)
    else
      var ne :- NotEqual(mode, after[i], expected[i]);
      if ne then Ok(true) else MismatchFrom(mode, after, expected, i + 1)
  }

  function OutputArgsMismatch(mode: CursorEquality, after: seq<Value>, expected: Option<seq<Value>>): Result<bool, Crash>
    requires expected.Some? ==> |expected.value| <= |after|
  {
    if expected.None? then Ok(false) else MismatchFrom(mode, after, expected.value, 0)
  }

  /** The indexed loop of `run_one` over the expected output arguments. */
  method CheckOutputArgs(mode: CursorEquality, after: seq<Value>, expected: Option<seq<Value>>) returns (r: Result<bool, Crash>)
    requires expected.Some? ==> |expected.value| <= |after|
    ensures r == OutputArgsMismatch(mode, after, expected)
  {
    if expected.None? {
      return Ok(false);
    }
    var exp := expected.value;
    var i := 0;
    while i < |exp|
      invariant 0 <= i <= |exp|
      invariant MismatchFrom(mode, after, exp, 0) == MismatchFrom(mode, after, exp, i)
    {
      if !exp[i].VNone? {
        var ne := NotEqual(mode, after[i], exp[i]);
        if ne.Err? {
          return Err(ne.error);
        }
        if ne.value {
          return Ok(true);
        }
      }
      i := i + 1;
    }
    return Ok(false);
  }

  /** What the check means: no mismatch exactly when every non-`None` expected
      argument equals the argument after the call; a mismatch names one that
      does not. */
  lemma {:induction false} MismatchMeaning(mode: CursorEquality, after: seq<Value>, expected: seq<Value>, i: nat)
    requires i <= |expected| <= |after|
    ensures MismatchFrom(mode, after, expected, i) == Ok(false) <==>
            forall k :: i <= k < |expected| && !expected[k].VNone? ==> Equal(mode, after[k], expected[k]) == Ok(true)
    ensures MismatchFrom(mode, after, expected, i) == Ok(true) ==>
            exists k :: i <= k < |expected| && !expected[k].VNone? && Equal(mode, after[k], expected[k]) == Ok(false)
    decreases |expected| - i
  {
    if i < |expected| {
      MismatchMeaning(mode, after, expected, i + 1);
    }
  }

  // ---------------------------------------------------------------------------
  // run_one

  /** The expected output arguments, wrapped like the inputs. */
  function ExpectedOutputArgs(test: Test, linked: bool): (r: Option<seq<Value>>)
    ensures r.Some? <==> test.outputArgs.Some?
    ensures r.Some? ==> r.value == WrapAll(test.outputArgs.value, linked)
  {
    if test.outputArgs.Some? then Some(WrapAll(test.outputArgs.value, linked)) else None
  }

  /** The diagnostics every runtime, timeout and fail result carries.  The
      function name reported is the resolved one. */
  function DiagnosticsFor(test: Test, linked: bool, name: string, argNames: seq<string>): Diagnostics {
    Diagnostics(argNames, WrapAll(test.inputArgs, linked), ExpectedOutputArgs(test, linked), test.output, name)
  }

  /** `run_one`.  An uncaught exception (`Err`) ends the whole request. */
  function RunOne(variant: Variant, src: Source, test: Test, functionName: Option<string>,
                  linked: bool, level5: bool, exec: Execution): Result<TestResult, Crash>
    requires LengthsAgree(test) && CallFits(exec, |test.inputArgs|)
  {
    match src
    case CompileFailed(d) => Ok(SyntaxErrorResult(ErrorString(ExcInfo(CompileLine, d))))
    case Parsed(tree) =>
      match SpecCheck.Checked(tree, |test.inputArgs|, functionName, level5)
      case Err(e) => Ok(SyntaxErrorResult(ErrorString(SpecErrorInfo(variant, e, level5 || functionName.Some?))))
      case Ok(resolved) =>
        var diag := DiagnosticsFor(test, linked, resolved.0, resolved.1);
        if exec.probe.ProbeTimedOut? then Ok(TimeoutResult(diag))
        else
          match exec.call
          case Raised(info) => Ok(RuntimeErrorResult(diag, ErrorString(info)))
          case Returned(v, after) =>
            var ne :- NotEqual(EqualityOf(variant), v, test.output);
            if ne then Ok(FailResult(diag, after, v))
            else
              var mismatch :- OutputArgsMismatch(EqualityOf(variant), after, ExpectedOutputArgs(test, linked));
              if mismatch then Ok(FailResult(diag, after, v)) else Ok(SuccessResult)
  }

  /** The specification check passed and resolved this name and parameter list. */
  predicate SpecPassed(src: Source, test: Test, functionName: Option<string>, level5: bool, resolved: (string, seq<string>)) {
    src.Parsed? && SpecCheck.Checked(src.tree, |test.inputArgs|, functionName, level5) == Ok(resolved)
  }

  /** A compile or specification failure is a syntax-error result, whatever
      the execution would have done: nothing is run. */
  lemma FailureBeforeExecution(variant: Variant, src: Source, test: Test, functionName: Option<string>,
                               linked: bool, level5: bool, e1: Execution, e2: Execution)
    requires LengthsAgree(test) && CallFits(e1, |test.inputArgs|) && CallFits(e2, |test.inputArgs|)
    requires src.CompileFailed? || SpecCheck.Checked(src.tree, |test.inputArgs|, functionName, level5).Err?
    ensures RunOne(variant, src, test, functionName, linked, level5, e1) == RunOne(variant, src, test, functionName, linked, level5, e2)
    ensures RunOne(variant, src, test, functionName, linked, level5, e1).Ok?
    ensures RunOne(variant, src, test, functionName, linked, level5, e1).value.SyntaxErrorResult?
  {
  }

  /** The probe only decides whether the test timed out: what it returned or
      raised, and what it did to its own copy of the arguments, plays no part. */
  lemma ProbeOnlyDecidesTimeout(variant: Variant, src: Source, test: Test, functionName: Option<string>,
                                linked: bool, level5: bool, call: CallOutcome, o1: CallOutcome, o2: CallOutcome)
    requires LengthsAgree(test) && CallFits(Execution(ProbeTimedOut, call), |test.inputArgs|)
    ensures RunOne(variant, src, test, functionName, linked, level5, Execution(ProbeDone(o1), call))
         == RunOne(variant, src, test, functionName, linked, level5, Execution(ProbeDone(o2), call))
  {
  }

  /** A probe that times out gives a timeout result, whatever the real call
      would have done. */
  lemma TimeoutWins(variant: Variant, src: Source, test: Test, functionName: Option<string>,
                    linked: bool, level5: bool, call: CallOutcome, resolved: (string, seq<string>))
    requires LengthsAgree(test) && CallFits(Execution(ProbeTimedOut, call), |test.inputArgs|)
    requires SpecPassed(src, test, functionName, level5, resolved)
    ensures RunOne(variant, src, test, functionName, linked, level5, Execution(ProbeTimedOut, call))
         == Ok(TimeoutResult(DiagnosticsFor(test, linked, resolved.0, resolved.1)))
  {
  }

  /** An exception in the real call is a runtime-error result whose message
      reads back as the exception's line and description. */
  lemma RaisedIsRuntimeError(variant: Variant, src: Source, test: Test, functionName: Option<string>,
                             linked: bool, level5: bool, o: CallOutcome, info: ExcInfo, resolved: (string, seq<string>))
    requires LengthsAgree(test) && SpecPassed(src, test, functionName, level5, resolved)
    ensures var r := RunOne(variant, src, test, functionName, linked, level5, Execution(ProbeDone(o), Raised(info)));
      && r.Ok? && r.value.RuntimeErrorResult?
      && r.value.diag == DiagnosticsFor(test, linked, resolved.0, resolved.1)
      && ParseErrorString(r.value.error) == Some(info)
  {
    ErrorStringRoundTrip(info);
  }

  /** A wrong return value fails the test before any output argument is looked at. */
  lemma ReturnMismatchFailsFirst(variant: Variant, src: Source, test: Test, functionName: Option<string>,
                                 linked: bool, level5: bool, o: CallOutcome, v: Value, after: seq<Value>,
                                 resolved: (string, seq<string>))
    requires LengthsAgree(test) && |after| == |test.inputArgs|
    requires SpecPassed(src, test, functionName, level5, resolved)
    requires Equal(EqualityOf(variant), v, test.output) == Ok(false)
    ensures RunOne(variant, src, test, functionName, linked, level5, Execution(ProbeDone(o), Returned(v, after)))
         == Ok(FailResult(DiagnosticsFor(test, linked, resolved.0, resolved.1), after, v))
  {
  }

  /** A test succeeds exactly when the specification check passes, the probe
      finishes, the call returns a value equal to the expected output, and
      every non-`None` expected output argument equals the argument after the call. */
  lemma SuccessIff(variant: Variant, src: Source, test: Test, functionName: Option<string>,
                   linked: bool, level5: bool, exec: Execution)
    requires LengthsAgree(test) && CallFits(exec, |test.inputArgs|)
    ensures RunOne(variant, src, test, functionName, linked, level5, exec) == Ok(SuccessResult) <==>
      && src.Parsed? && SpecCheck.Checked(src.tree, |test.inputArgs|, functionName, level5).Ok?
      && exec.probe.ProbeDone? && exec.call.Returned?
      && Equal(EqualityOf(variant), exec.call.value, test.output) == Ok(true)
      && var exp := ExpectedOutputArgs(test, linked);
         (exp.Some? ==> forall k :: 0 <= k < |exp.value| && !exp.value[k].VNone? ==>
                          Equal(EqualityOf(variant), exec.call.after[k], exp.value[k]) == Ok(true))
  {
    var exp := ExpectedOutputArgs(test, linked);
    if exp.Some? && exec.call.Returned? {
      MismatchMeaning(EqualityOf(variant), exec.call.after, exp.value, 0);
    }
  }

  /** A failing output-argument check names a position whose expected value is
      not `None` and differs from the argument after the call. */
  lemma OutputArgFailureNamesPosition(variant: Variant, src: Source, test: Test, functionName: Option<string>,
                                      linked: bool, level5: bool, o: CallOutcome, v: Value, after: seq<Value>)
    requires LengthsAgree(test) && |after| == |test.inputArgs|
    requires Equal(EqualityOf(variant), v, test.output) == Ok(true)
    requires RunOne(variant, src, test, functionName, linked, level5, Execution(ProbeDone(o), Returned(v, after))) != Ok(SuccessResult)
    requires RunOne(variant, src, test, functionName, linked, level5, Execution(ProbeDone(o), Returned(v, after))).Ok?
    requires src.Parsed? && SpecCheck.Checked(src.tree, |test.inputArgs|, functionName, level5).Ok?
    ensures var exp := ExpectedOutputArgs(test, linked).value;
      exists k :: 0 <= k < |exp| && !exp[k].VNone? && Equal(EqualityOf(variant), after[k], exp[k]) == Ok(false)
  {
    var exp := ExpectedOutputArgs(test, linked);
    if exp.Some? {
      MismatchMeaning(EqualityOf(variant), after, exp.value, 0);
    }
  }

  /** With the corrected cursor equality no test raises, and wherever the
      written version gives a result past the specification check, the
      corrected one gives the same. */
  lemma CorrectedNeverCrashes(src: Source, test: Test, functionName: Option<string>,
                              linked: bool, level5: bool, exec: Execution)
    requires LengthsAgree(test) && CallFits(exec, |test.inputArgs|)
    ensures RunOne(Corrected, src, test, functionName, linked, level5, exec).Ok?
    ensures (src.CompileFailed? || SpecCheck.Checked(src.tree, |test.inputArgs|, functionName, level5).Ok?) &&
            RunOne(AsWritten, src, test, functionName, linked, level5, exec).Ok? ==>
            RunOne(Corrected, src, test, functionName, linked, level5, exec) == RunOne(AsWritten, src, test, functionName, linked, level5, exec)
  {
    if src.Parsed? && exec.call.Returned? {
      var v, after := exec.call.value, exec.call.after;
      CorrectedEqualTotal(v, test.output);
      if Equal(Contents, v, test.output).Ok? {
        CorrectedAgrees(v, test.output);
      }
      var exp := ExpectedOutputArgs(test, linked);
      if exp.Some? {
        CorrectedMismatchTotal(after, exp.value, 0);
        if MismatchFrom(Contents, after, exp.value, 0).Ok? {
          CorrectedMismatchAgrees(after, exp.value, 0);
        }
      }
    }
  }

  lemma {:induction false} CorrectedMismatchTotal(after: seq<Value>, expected: seq<Value>, i: nat)
    requires i <= |expected| <= |after|
    ensures MismatchFrom(ContentsCorrected, after, expected, i).Ok?
    decreases |expected| - i
  {
    if i < |expected| {
      CorrectedEqualTotal(after[i], expected[i]);
      CorrectedMismatchTotal(after, expected, i + 1);
    }
  }

  lemma {:induction false} CorrectedMismatchAgrees(after: seq<Value>, expected: seq<Value>, i: nat)
    requires i <= |expected| <= |after|
    requires MismatchFrom(Contents, after, expected, i).Ok?
    ensures MismatchFrom(ContentsCorrected, after, expected, i) == MismatchFrom(Contents, after, expected, i)
    decreases |expected| - i
  {
    if i < |expected| {
      if !expected[i].VNone? {
        CorrectedAgrees(after[i], expected[i]);
      }
      if expected[i].VNone? || NotEqual(Contents, after[i], expected[i]) == Ok(false) {
        CorrectedMismatchAgrees(after, expected, i + 1);
      }
    }
  }

  /** As written, a function that returns its linked-list argument when the
      expected output is a plain list makes `!=` raise `AttributeError`, which
      no `try` catches. */
  lemma ReturnedCursorCrashes(o: CallOutcome)
    ensures var test := Test([VList([VInt(1)])], None, VList([VInt(1)]));
      var tree := Module([FunctionDef("f", ["lst"], [], 1)]);
      var exec := Execution(ProbeDone(o), Returned(VCursor([VInt(1)], 0), [VCursor([VInt(1)], 0)]));
      RunOne(AsWritten, Parsed(tree), test, None, true, false, exec) == Err(NoListAttribute)
  {
    var test := Test([VList([VInt(1)])], None, VList([VInt(1)]));
    var tree := Module([FunctionDef("f", ["lst"], [], 1)]);
    SpecCheck.FirstTopLevelDefIsTarget(tree, 1);
    SpecCheck.CheckedWithName(tree, 1, "f");
    assert SpecCheck.TopDefs(tree.body) == [Def("f", ["lst"], 1)];
    assert LastNamed(SpecCheck.TopDefs(tree.body), "f", 0);
    CursorAgainstNonCursorRaises(VCursor([VInt(1)], 0), VList([VInt(1)]));
  }

  /** As written, an expected output argument that is a list, at a position
      whose input is not, crashes the request in linked-list mode. */
  lemma OutputArgCursorCrashes(o: CallOutcome)
    ensures var test := Test([VInt(1)], Some([VList([])]), VNone);
      var tree := Module([FunctionDef("f", ["x"], [], 1)]);
      var exec := Execution(ProbeDone(o), Returned(VNone, [VInt(1)]));
      RunOne(AsWritten, Parsed(tree), test, None, true, false, exec) == Err(NoListAttribute)
  {
    var tree := Module([FunctionDef("f", ["x"], [], 1)]);
    SpecCheck.FirstTopLevelDefIsTarget(tree, 1);
    SpecCheck.CheckedWithName(tree, 1, "f");
    assert SpecCheck.TopDefs(tree.body) == [Def("f", ["x"], 1)];
    assert LastNamed(SpecCheck.TopDefs(tree.body), "f", 0);
    EqualReflexive(Contents, VNone);
    CursorAgainstNonCursorRaises(VInt(1), VCursor([], 0));
  }

  /** As written, a rejected `import` in level-5 mode is reported at line 42,
      the validator's own `raise`, not at the line of the `import`. */
  lemma SpecErrorLineAsWritten(test: Test, exec: Execution)
    requires |test.inputArgs| == 1 && LengthsAgree(test) && CallFits(exec, 1)
    ensures RunOne(AsWritten, Parsed(Module([Import(2), FunctionDef("when_run", ["a"], [], 3)])), test, None, false, true, exec)
         == Ok(SyntaxErrorResult("Line 42. " + SpecModule + "NoImportsAllowedError: " + ImportMessage))
  {
    var m := Module([Import(2), FunctionDef("when_run", ["a"], [], 3)]);
    SpecCheck.OuterImportBefore();
    var e := NoImportsAllowed(2, ImportMessage);
    assert SpecCheck.Checked(m, |test.inputArgs|, None, true) == Err(e);
    assert NatToString(42) == "42";
    assert ErrorString(SpecErrorInfo(AsWritten, e, true)) == "Line 42. " + SpecModule + "NoImportsAllowedError: " + ImportMessage;
  }

  /** Corrected, the message of a specification error carries the line of the
      offending statement. */
  lemma SpecErrorCarriesNodeLine(src: Source, test: Test, functionName: Option<string>,
                                 linked: bool, level5: bool, exec: Execution, e: SpecError)
    requires LengthsAgree(test) && CallFits(exec, |test.inputArgs|)
    requires src.Parsed? && SpecCheck.Checked(src.tree, |test.inputArgs|, functionName, level5) == Err(e)
    ensures var r := RunOne(Corrected, src, test, functionName, linked, level5, exec);
      && r.Ok? && r.value.SyntaxErrorResult?
      && ParseErrorString(r.value.error) == Some(ExcInfo(e.line, SpecModule + ErrorClassName(e) + ": " + e.msg))
  {
    ErrorStringRoundTrip(ExcInfo(e.line, SpecModule + ErrorClassName(e) + ": " + e.msg));
  }

  // ---------------------------------------------------------------------------
  // run_tests

  predicate Runnable(req: Request, execs: seq<Execution>) {
    |execs| == |req.tests| &&
    forall i :: 0 <= i < |req.tests| ==> LengthsAgree(req.tests[i]) && CallFits(execs[i], |req.tests[i].inputArgs|)
  }

  /** The outcome of the request's `i`-th test under its execution. */
  function ResultAt(variant: Variant, src: Source, req: Request, execs: seq<Execution>, i: nat): Result<TestResult, Crash>
    requires Runnable(req, execs) && i < |req.tests|
  {
    RunOne(variant, src, req.tests[i], req.functionName, req.isLinkedList, req.isLevel5, execs[i])
  }

  /** The outcome of each test of the request, in order. */
  function Results(variant: Variant, src: Source, req: Request, execs: seq<Execution>): (rs: seq<Result<TestResult, Crash>>)
    requires Runnable(req, execs)
    ensures |rs| == |req.tests| && forall i :: 0 <= i < |req.tests| ==> rs[i] == ResultAt(variant, src, req, execs, i)
  {
    seq(|req.tests|, i requires 0 <= i < |req.tests| => ResultAt(variant, src, req, execs, i))
  }

  /** `run_tests`: one result per test, in order; the first test that raises
      ends the request with its exception (`Wrappers.CollectMeaning`). */
  method RunTests(variant: Variant, src: Source, req: Request, execs: seq<Execution>) returns (r: Result<seq<TestResult>, Crash>)
    requires Runnable(req, execs)
    ensures r == Collect(Results(variant, src, req, execs))
  {
    ghost var rs := Results(variant, src, req, execs);
    var results: seq<TestResult> := [];
    assert rs[0..] == rs;
    PrefixedNothing(Collect(rs));
    for i := 0 to |req.tests|
      invariant Collect(rs) == Prefixed(results, Collect(rs[i..]))
    {
      var one := RunOne(variant, src, req.tests[i], req.functionName, req.isLinkedList, req.isLevel5, execs[i]);
      assert one == rs[i];
      if one.Err? {
        assert rs[i..][0] == rs[i];
        return Err(one.error);
      }
      CollectStep(rs, i, results);
      results := results + [one.value];
    }
    assert rs[|req.tests|..] == [];
    assert results + [] == results;
    return Ok(results);
  }

  /** With the corrected cursor equality every test of a request gives a
      result, so `run_tests` never raises. */
  lemma CorrectedRequestCompletes(src: Source, req: Request, execs: seq<Execution>)
    requires Runnable(req, execs)
    ensures forall i :: 0 <= i < |req.tests| ==> ResultAt(Corrected, src, req, execs, i).Ok?
    ensures Collect(Results(Corrected, src, req, execs)).Ok?
  {
    forall i | 0 <= i < |req.tests| ensures ResultAt(Corrected, src, req, execs, i).Ok? {
      CorrectedNeverCrashes(src, req.tests[i], req.functionName, req.isLinkedList, req.isLevel5, execs[i]);
    }
    CollectMeaning(Results(Corrected, src, req, execs));
  }
}
