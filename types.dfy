/** The request and result types of checkmate/types.py. */
module Types {
  import opened Wrappers
  import opened Values

  /** `ResultType`: the closed set of result tags. */
  datatype ResultType = SyntaxError | SpecificationError | RuntimeError | Timeout | Fail | Success

  const AllTags: seq<ResultType> := [SyntaxError, SpecificationError, RuntimeError, Timeout, Fail, Success]

  /** The string each tag serializes as. */
  function TagName(t: ResultType): string {
    match t
    case SyntaxError => "syntax_error"
    case SpecificationError => "specification_error"
    case RuntimeError => "runtime_error"
    case Timeout => "timeout"
    case Fail => "fail"
    case Success => "success"
  }

  /** Reading a tag back: a string outside the six names is no tag. */
  function TagFromName(s: string): (t: Option<ResultType>)
    ensures t.Some? ==> TagName(t.value) == s
  {
    if s == "syntax_error" then Some(SyntaxError)
    else if s == "specification_error" then Some(SpecificationError)
    else if s == "runtime_error" then Some(RuntimeError)
    else if s == "timeout" then Some(Timeout)
    else if s == "fail" then Some(Fail)
    else if s == "success" then Some(Success)
    else None
  }

  /** Every tag reads back as itself, so the six names are distinct. */
  lemma TagRoundTrip(t: ResultType)
    ensures TagFromName(TagName(t)) == Some(t)
    ensures t in AllTags
  {
  }

  lemma TagNamesInjective(t: ResultType, u: ResultType)
    requires TagName(t) == TagName(u)
    ensures t == u
  {
    TagRoundTrip(t);
    TagRoundTrip(u);
  }

  /** `BaseErrorResult`: what runtime, timeout and fail results report about
      the test.  `repr` rendering is not modelled: values stand for their
      renderings. */
  datatype Diagnostics = Diagnostics(
    argNames: seq<string>,
    inputArgs: seq<Value>,
    expectedOutputArgs: Option<seq<Value>>,
    expectedOutput: Value,
    functionName: string)

  /** The `Result` union, one constructor per result class. */
  datatype TestResult =
    | SyntaxErrorResult(error: string)
    | SpecificationErrorResult(error: string)
    | RuntimeErrorResult(diag: Diagnostics, error: string)
    | TimeoutResult(diag: Diagnostics)
    | FailResult(diag: Diagnostics, outputArgs: seq<Value>, output: Value)
    | SuccessResult

  /** The `type` discriminator of a result. */
  function Tag(r: TestResult): (t: ResultType)
    ensures t == Success <==> r == SuccessResult
    ensures t in {RuntimeError, Timeout, Fail} <==> r.RuntimeErrorResult? || r.TimeoutResult? || r.FailResult?
  {
    match r
    case SyntaxErrorResult(_) => SyntaxError
    case SpecificationErrorResult(_) => SpecificationError
    case RuntimeErrorResult(_, _) => RuntimeError
    case TimeoutResult(_) => Timeout
    case FailResult(_, _, _) => Fail
    case SuccessResult => Success
  }

  /** A result reads back from its tag and fields: the tag decides the
      constructor, so two results with the same tag and fields are equal. */
  lemma TagDecidesVariant(r: TestResult, s: TestResult)
    requires Tag(r) == Tag(s)
    ensures r.SyntaxErrorResult? <==> s.SyntaxErrorResult?
    ensures r.SpecificationErrorResult? <==> s.SpecificationErrorResult?
    ensures r.RuntimeErrorResult? <==> s.RuntimeErrorResult?
    ensures r.TimeoutResult? <==> s.TimeoutResult?
    ensures r.FailResult? <==> s.FailResult?
    ensures r.SuccessResult? <==> s.SuccessResult?
  {
  }

  /** `Test`.  The per-test function name is carried but no runner reads it. */
  datatype Test = Test(
    inputArgs: seq<Value>,
    outputArgs: Option<seq<Value>> := None,
    output: Value := VNone,
    functionName: Option<string> := None)

  const LengthMismatch: string := "The length of input_args and output_args are not equal"

  /** What the length validator demands. */
  predicate LengthsAgree(t: Test) {
    t.outputArgs.None? || |t.inputArgs| == |t.outputArgs.value|
  }

  /** `check_input_output_same_length`: a test is accepted unchanged, or
      rejected with `ValueError`. */
  function CheckTest(t: Test): (r: Result<Test, string>)
    ensures r.Ok? <==> LengthsAgree(t)
    ensures r.Ok? ==> r.value == t
    ensures r.Err? ==> r.error == LengthMismatch
  {
    if t.outputArgs.Some? && |t.inputArgs| != |t.outputArgs.value| then Err(LengthMismatch) else Ok(t)
  }

  /** A test without output arguments passes whatever its inputs. */
  lemma NoOutputArgsAccepted(inputArgs: seq<Value>, output: Value)
    ensures CheckTest(Test(inputArgs, None, output)).Ok?
  {
  }

  /** The rejected case of tests/test_main.py:164-172: two inputs, one output. */
  lemma UnequalLengthsRejected()
    ensures CheckTest(Test([VList([VInt(1)]), VList([VInt(2), VInt(3)])], Some([VList([VInt(1), VInt(2), VInt(3)])])))
         == Err(LengthMismatch)
  {
  }

  /** `Request`, with its defaults.  The source text stays unparsed here. */
  datatype Request = Request(
    source: string,
    tests: seq<Test>,
    functionName: Option<string> := None,
    isLinkedList: bool := false,
    isLevel5: bool := false,
    checkTimeout: bool := true)

  /** Validating a request validates each test; the first rejected one decides. */
  function CheckTests(ts: seq<Test>): (r: Result<seq<Test>, string>)
    ensures r.Ok? <==> forall i :: 0 <= i < |ts| ==> LengthsAgree(ts[i])
    ensures r.Ok? ==> r.value == ts
    ensures r.Err? ==> r.error == LengthMismatch
  {
    if |ts| == 0 then Ok([])
    else
      var t :- CheckTest(ts[0]);
      var rest :- CheckTests(ts[1..]);
      assert [t] + rest == ts;
      Ok([t] + rest)
  }

  function CheckRequest(r: Request): (v: Result<Request, string>)
    ensures v.Ok? <==> forall i :: 0 <= i < |r.tests| ==> LengthsAgree(r.tests[i])
    ensures v.Ok? ==> v.value == r
  {
    var tests :- CheckTests(r.tests);
    Ok(r.(tests := tests))
  }

  /** A request that gives only the source and the tests. */
  lemma RequestDefaults(source: string, tests: seq<Test>)
    ensures var r := Request(source, tests);
      r.functionName == None && !r.isLinkedList && !r.isLevel5 && r.checkTimeout
  {
  }
}
