/** The older single-file checker, index.py: the function name and parameter
    names are read off the source text with regular expressions, each test is a
    JSON object, the function runs in a worker process, and only the return
    value is compared.  Its `ListPtr` is `LinkedList.ListPtr` compared by
    identity (`Values.Identity`): it has no `__eq__`. */
module LegacyIndex {
  import opened Wrappers
  import opened Strings
  import opened Values
  import Runner

  /** The exceptions of index.py that no `try` catches: they end the request. */
  datatype LegacyCrash =
      /** `match.group(1)` on `None`: the source does not start with a `def`. */
    | NoFunctionHeader
      /** `match[0]` on an empty `findall` result. */
    | NoParameterList
      /** `test[key]` for a key the test object lacks. */
    | KeyError(key: string)
      /** Iterating over input arguments that are not a list or a string. */
    | NotIterable

  // ---------------------------------------------------------------------------
  // first_function_name: re.match(r'\s*def \s*(\w+)\s*\(([^)]*)\)', source)

  /** The pieces of a matched `\s*def \s*(\w+)\s*\(([^)]*)\)`. */
  datatype Header = Header(lead: string, gap: string, name: string, gap2: string, params: string) {
    predicate Valid() {
      AllSpace(lead) && AllSpace(gap) && |name| > 0 && AllWord(name) && AllSpace(gap2) && ')' !in params
    }

    /** The header's text followed by `rest`. */
    function RenderThen(rest: string): string {
      lead + ("def " + (gap + (name + (gap2 + ("(" + (params + (")" + rest)))))))
    }
  }

  /** The match at the start of `s`, and the text after it.  The character
      classes are deterministic here (`\w`, `\s` and `(` do not overlap), so the
      greedy runs are what the regular expression matches. */
  function ParseHeader(s: string): Option<(Header, string)> {
    var (lead, t0) := SplitSpace(s);
    if |t0| < 4 || t0[..4] != "def " then None
    else
      var (gap, t2) := SplitSpace(t0[4..]);
      var (name, t3) := SplitWord(t2);
      if |name| == 0 then None
      else
        var (gap2, t4) := SplitSpace(t3);
        if |t4| == 0 || t4[0] != '(' then None
        else
          match SplitAt(t4[1..], ')')
          case None => None
          case Some((params, rest)) => Some((Header(lead, gap, name, gap2, params), rest))
  }

  /** `first_function_name`. */
  function FirstFunctionName(source: string): Result<string, LegacyCrash> {
    match ParseHeader(source)
    case None => Err(NoFunctionHeader)
    case Some((h, _)) => Ok(h.name)
  }

  /** Every match is a valid header followed by the rest of the text. */
  lemma ParsedHeaderRenders(s: string)
    requires ParseHeader(s).Some?
    ensures var (h, rest) := ParseHeader(s).value;
      h.Valid() && h.RenderThen(rest) == s
  {
    var (lead, t0) := SplitSpace(s);
    var (gap, t2) := SplitSpace(t0[4..]);
    var (name, t3) := SplitWord(t2);
    var (gap2, t4) := SplitSpace(t3);
    var (params, rest) := SplitAt(t4[1..], ')').value;
    var h := Header(lead, gap, name, gap2, params);
    assert ParseHeader(s) == Some((h, rest));
    PiecesRender(h, s, t0, t2, t3, t4, rest);
  }

  lemma PiecesRender(h: Header, s: string, t0: string, t2: string, t3: string, t4: string, rest: string)
    requires s == h.lead + t0 && |t0| >= 4 && t0[..4] == "def " && t0[4..] == h.gap + t2
    requires t2 == h.name + t3 && t3 == h.gap2 + t4 && |t4| > 0 && t4[0] == '('
    requires t4[1..] == h.params + ([')'] + rest)
    ensures h.RenderThen(rest) == s
  {
    assert t4 == "(" + t4[1..];
    assert t0 == "def " + t0[4..];
  }

  /** A valid header followed by any text is matched, and yields its name. */
  lemma RenderedHeaderParses(h: Header, rest: string)
    requires h.Valid()
    ensures ParseHeader(h.RenderThen(rest)) == Some((h, rest))
    ensures FirstFunctionName(h.RenderThen(rest)) == Ok(h.name)
  {
    var t4 := "(" + (h.params + (")" + rest));
    var t3 := h.gap2 + t4;
    var t2 := h.name + t3;
    var t0 := "def " + (h.gap + t2);
    LeadSplits(h, t0, rest);
    DefSplits(h.gap + t2);
    GapSplits(h, t2, t3);
    NameSplits(h, t3, t4);
    Gap2Splits(h, t4);
    ParamsSplit(h, t4, rest);
    ParseFromPieces(h, h.RenderThen(rest), t0, t2, t3, t4, rest);
  }

  lemma LeadSplits(h: Header, t0: string, rest: string)
    requires h.Valid() && t0 == "def " + (h.gap + (h.name + (h.gap2 + ("(" + (h.params + (")" + rest))))))
    ensures SplitSpace(h.RenderThen(rest)) == (h.lead, t0)
  {
    assert h.RenderThen(rest) == h.lead + t0;
    SplitSpaceOf(h.lead, t0);
  }

  lemma DefSplits(t1: string)
    ensures |"def " + t1| >= 4 && ("def " + t1)[..4] == "def " && ("def " + t1)[4..] == t1
  {
  }

  lemma GapSplits(h: Header, t2: string, t3: string)
    requires h.Valid() && t2 == h.name + t3
    ensures SplitSpace(h.gap + t2) == (h.gap, t2)
  {
    assert t2[0] == h.name[0];
    SplitSpaceOf(h.gap, t2);
  }

  lemma NameSplits(h: Header, t3: string, t4: string)
    requires h.Valid() && t3 == h.gap2 + t4 && |t4| > 0 && t4[0] == '('
    ensures SplitWord(h.name + t3) == (h.name, t3)
  {
    assert t3[0] == if |h.gap2| > 0 then h.gap2[0] else t4[0];
    SplitWordOf(h.name, t3);
  }

  lemma Gap2Splits(h: Header, t4: string)
    requires h.Valid() && |t4| > 0 && t4[0] == '('
    ensures SplitSpace(h.gap2 + t4) == (h.gap2, t4)
  {
    SplitSpaceOf(h.gap2, t4);
  }

  lemma ParamsSplit(h: Header, t4: string, rest: string)
    requires h.Valid() && t4 == "(" + (h.params + (")" + rest))
    ensures |t4| > 0 && t4[0] == '(' && SplitAt(t4[1..], ')') == Some((h.params, rest))
  {
    assert t4[1..] == h.params + ([')'] + rest);
    SplitAtOf(h.params, ')', rest);
  }

  /** `ParseHeader` on text whose splits are known. */
  lemma ParseFromPieces(h: Header, s: string, t0: string, t2: string, t3: string, t4: string, rest: string)
    requires SplitSpace(s) == (h.lead, t0) && |t0| >= 4 && t0[..4] == "def "
    requires SplitSpace(t0[4..]) == (h.gap, t2) && SplitWord(t2) == (h.name, t3) && |h.name| > 0
    requires SplitSpace(t3) == (h.gap2, t4) && |t4| > 0 && t4[0] == '('
    requires SplitAt(t4[1..], ')') == Some((h.params, rest))
    ensures ParseHeader(s) == Some((h, rest))
  {
  }

  // ---------------------------------------------------------------------------
  // get_arg_names: re.findall(fr'def\s+{function_name}\s*\(([^)]*)\)', source)[0]

  /** The parameter text of a match at the start of `t`, with the name taken
      literally. */
  function ArgsAt(t: string, name: string): Option<string> {
    if |t| < 4 || t[..3] != "def" || !IsSpace(t[3]) then None
    else
      var (_, u1) := SplitSpace(t[3..]);
      if |u1| < |name| || u1[..|name|] != name then None
      else
        var (_, u3) := SplitSpace(u1[|name|..]);
        if |u3| == 0 || u3[0] != '(' then None
        else
          match SplitAt(u3[1..], ')')
          case None => None
          case Some((params, _)) => Some(params)
  }

  /** The leftmost match at or after `p`: the first element `findall` returns. */
  function FirstArgs(s: string, name: string, p: nat): Option<string>
    requires p <= |s|
    decreases |s| - p
  {
    if p == |s| then None
    else if ArgsAt(s[p..], name).Some? then ArgsAt(s[p..], name)
    else FirstArgs(s, name, p + 1)
  }

  /** The parameter names: the text split on commas, each piece stripped. */
  function ArgNamesOf(text: string): (names: seq<string>)
    ensures |names| == Count(text, ',') + 1
  {
    SplitJoin(text, ',');
    StripAll(Split(text, ','))
  }

  /** No name has whitespace at either end. */
  lemma ArgNamesStripped(text: string, k: int)
    requires 0 <= k < |ArgNamesOf(text)|
    ensures var n := ArgNamesOf(text)[k]; |n| == 0 || (!IsSpace(n[0]) && !IsSpace(n[|n| - 1]))
  {
    assert ArgNamesOf(text)[k] == Strip(Split(text, ',')[k]);
  }

  /** `get_arg_names`. */
  function GetArgNames(source: string, name: string): Result<seq<string>, LegacyCrash> {
    match FirstArgs(source, name, 0)
    case None => Err(NoParameterList)
    case Some(text) => Ok(ArgNamesOf(text))
  }

  lemma {:induction false} FirstArgsSkips(s: string, name: string, p: nat, q: nat)
    requires p <= q <= |s|
    requires forall k :: p <= k < q ==> ArgsAt(s[k..], name).None?
    ensures FirstArgs(s, name, p) == FirstArgs(s, name, q)
    decreases q - p
  {
    if p < q {
      FirstArgsSkips(s, name, p + 1, q);
    }
  }

  /** For a source that starts with a function header, `get_arg_names` with
      that header's name reads that header's parameter list. */
  lemma HeaderArgNames(h: Header, rest: string)
    requires h.Valid()
    ensures GetArgNames(h.RenderThen(rest), h.name) == Ok(ArgNamesOf(h.params))
  {
    var t5 := h.params + ([')'] + rest);
    var t4 := "(" + t5;
    var t3 := h.gap2 + t4;
    var t2 := h.name + t3;
    var t0 := "def " + (h.gap + t2);
    var s := h.lead + t0;
    assert s == h.RenderThen(rest);
    var a0 := |h.lead|;
    forall k | 0 <= k < a0 ensures ArgsAt(s[k..], h.name).None? {
      NoMatchAtSpace(s[k..], h.name);
    }
    FirstArgsSkips(s, h.name, 0, a0);
    assert s[a0..] == t0;
    HeaderArgsAt(h, t0, t2, t3, t4, t5, rest);
  }

  lemma NoMatchAtSpace(t: string, name: string)
    requires |t| > 0 && IsSpace(t[0])
    ensures ArgsAt(t, name).None?
  {
    assert |t| >= 3 ==> t[..3][0] == t[0];
  }

  lemma HeaderArgsAt(h: Header, t0: string, t2: string, t3: string, t4: string, t5: string, rest: string)
    requires h.Valid()
    requires t5 == h.params + ([')'] + rest) && t4 == "(" + t5 && t3 == h.gap2 + t4
    requires t2 == h.name + t3 && t0 == "def " + (h.gap + t2)
    ensures ArgsAt(t0, h.name) == Some(h.params)
  {
    assert t0[..3] == "def" && t0[3] == ' ';
    var u0 := t0[3..];
    assert u0 == (" " + h.gap) + t2;
    assert t2[0] == h.name[0];
    SplitSpaceOf(" " + h.gap, t2);
    assert t2[..|h.name|] == h.name && t2[|h.name|..] == t3;
    SplitSpaceOf(h.gap2, t4);
    assert t4[1..] == t5;
    SplitAtOf(h.params, ')', rest);
  }

  /** `def f():` has the parameter list `['']`. */
  lemma EmptyParameterList(rest: string)
    ensures GetArgNames("def f()" + rest, "f") == Ok([""])
  {
    var h := Header("", "", "f", "", "");
    assert h.Valid();
    assert h.RenderThen(rest) == "def f()" + rest;
    HeaderArgNames(h, rest);
    assert Split("", ',') == [""];
    assert Strip("") == "";
    assert ArgNamesOf("") == [""];
  }

  // ---------------------------------------------------------------------------
  // run_one and run_tests

  /** A test as decoded from JSON: an object from keys to values. */
  type LegacyTest = map<string, Value>

  function Lookup(test: LegacyTest, key: string): (r: Result<Value, LegacyCrash>)
    ensures r.Ok? <==> key in test
    ensures r.Ok? ==> r.value == test[key]
    ensures r.Err? ==> r.error == KeyError(key)
  {
    if key in test then Ok(test[key]) else Err(KeyError(key))
  }

  /** Iterating over the input arguments: a list gives its elements, a string
      its characters. */
  function Elements(v: Value): (r: Result<seq<Value>, LegacyCrash>)
    ensures r.Ok? <==> v.VList? || v.VStr?
    ensures v.VList? ==> r == Ok(v.items)
    ensures v.VStr? ==> r.Ok? && |r.value| == |v.s| && forall k :: 0 <= k < |v.s| ==> r.value[k] == VStr([v.s[k]])
  {
    match v
    case VList(items) => Ok(items)
    case VStr(s) => Ok(seq(|s|, k requires 0 <= k < |s| => VStr([s[k]])))
    case _ => Err(NotIterable)
  }

  /** `BaseErrorResult` of index.py. */
  datatype LegacyDiagnostics = LegacyDiagnostics(argNames: seq<string>, args: seq<Value>, expected: Value)

  datatype LegacyResult =
    | LegacySyntaxErrorResult(diag: LegacyDiagnostics, error: string)
    | LegacyRuntimeErrorResult(diag: LegacyDiagnostics, error: string)
    | LegacyTimeoutResult(diag: LegacyDiagnostics)
    | LegacyFailResult(diag: LegacyDiagnostics, result: Value)
    | LegacySuccessResult

  /** What the worker process did: returned a copy of the result, raised, or
      ran past the timeout. */
  datatype WorkerOutcome = WorkerReturned(value: Value) | WorkerRaised(info: Runner.ExcInfo) | WorkerTimedOut

  /** The line of `compile(...)` in index.py's `run_one`. */
  const CompileLine: nat := 165

  /** Comparison without `__eq__` never raises. */
  lemma {:induction false} IdentityTotal(a: Value, b: Value)
    ensures Equal(Identity, a, b).Ok?
    decreases a, 2
  {
    if !(a.VCursor? || b.VCursor?) && !(IsNumber(a) && IsNumber(b)) && a.VList? && b.VList? {
      IdentityListTotal(a.items, b.items);
    }
  }

  lemma {:induction false} IdentityListTotal(xs: seq<Value>, ys: seq<Value>)
    ensures ListEqual(Identity, xs, ys).Ok?
    decreases xs, 1
  {
    if |xs| == |ys| {
      IdentityElementsTotal(xs, ys);
    }
  }

  lemma {:induction false} IdentityElementsTotal(xs: seq<Value>, ys: seq<Value>)
    requires |xs| == |ys|
    ensures ElementsEqual(Identity, xs, ys).Ok?
    decreases xs, 0
  {
    if |xs| > 0 {
      IdentityTotal(xs[0], ys[0]);
      IdentityElementsTotal(xs[1..], ys[1..]);
    }
  }

  /** The test's values before anything runs: the input arguments as passed
      and the expected output; reading `outputArgs` only checks it is there. */
  function Prepare(test: LegacyTest, linked: bool): Result<(seq<Value>, Value), LegacyCrash> {
    var inputArgs :- Lookup(test, "inputArgs");
    var _ :- Lookup(test, "outputArgs");
    var expected :- Lookup(test, "output");
    var items :- Elements(inputArgs);
    Ok((Runner.WrapAll(items, linked), expected))
  }

  /** `run_one` of index.py.  The parameter names are read before the source is
      compiled, outside any `try`. */
  function LegacyRunOne(source: string, compileError: Option<string>, test: LegacyTest, name: string,
                        linked: bool, outcome: WorkerOutcome): Result<LegacyResult, LegacyCrash>
  {
    var prepared :- Prepare(test, linked);
    var (inputArgs, expected) := prepared;
    var argNames :- GetArgNames(source, name);
    var diag := LegacyDiagnostics(argNames, Runner.WrapAll(inputArgs, linked), expected);
    if compileError.Some? then
      Ok(LegacySyntaxErrorResult(diag, Runner.ErrorString(Runner.ExcInfo(CompileLine, compileError.value))))
    else
      match outcome
      case WorkerTimedOut => Ok(LegacyTimeoutResult(diag))
      case WorkerRaised(info) => Ok(LegacyRuntimeErrorResult(diag, Runner.ErrorString(info)))
      case WorkerReturned(v) =>
        IdentityTotal(v, expected);
        if !Equal(Identity, v, expected).value then Ok(LegacyFailResult(diag, v)) else Ok(LegacySuccessResult)
  }

  /** A test succeeds exactly when the test object is well formed, the
      parameter list is found, the source compiles, the worker returns, and its
      value equals the expected output; expected output arguments play no part. */
  lemma LegacySuccessIff(source: string, compileError: Option<string>, test: LegacyTest, name: string,
                         linked: bool, outcome: WorkerOutcome)
    ensures LegacyRunOne(source, compileError, test, name, linked, outcome) == Ok(LegacySuccessResult) <==>
      && Prepare(test, linked).Ok? && GetArgNames(source, name).Ok? && compileError.None?
      && outcome.WorkerReturned? && Equal(Identity, outcome.value, Prepare(test, linked).value.1) == Ok(true)
  {
    if outcome.WorkerReturned? && Prepare(test, linked).Ok? {
      IdentityTotal(outcome.value, Prepare(test, linked).value.1);
    }
  }

  /** The expected output arguments are read but never compared. */
  lemma OutputArgsIgnored(source: string, compileError: Option<string>, test: LegacyTest, name: string,
                          linked: bool, outcome: WorkerOutcome, other: Value)
    requires "outputArgs" in test
    ensures LegacyRunOne(source, compileError, test["outputArgs" := other], name, linked, outcome)
         == LegacyRunOne(source, compileError, test, name, linked, outcome)
  {
    var test' := test["outputArgs" := other];
    assert Lookup(test', "inputArgs") == Lookup(test, "inputArgs");
    assert Lookup(test', "output") == Lookup(test, "output");
  }

  /** A returned `ListPtr` is a copy from the worker and has no `__eq__`: it
      never equals the expected output, whatever its contents. */
  lemma ReturnedCursorFails(source: string, test: LegacyTest, name: string, linked: bool, xs: seq<Value>, i: int)
    requires Prepare(test, linked).Ok? && GetArgNames(source, name).Ok?
    ensures LegacyRunOne(source, None, test, name, linked, WorkerReturned(VCursor(xs, i))).Ok?
    ensures LegacyRunOne(source, None, test, name, linked, WorkerReturned(VCursor(xs, i))).value.LegacyFailResult?
  {
  }

  /** The second `transform_args` call wraps nothing new: lists were already
      wrapped, so the reported arguments are the ones passed. */
  lemma ReportedArgsArePassedArgs(source: string, compileError: Option<string>, test: LegacyTest, name: string,
                                  linked: bool, outcome: WorkerOutcome)
    requires LegacyRunOne(source, compileError, test, name, linked, outcome).Ok?
    requires !LegacyRunOne(source, compileError, test, name, linked, outcome).value.LegacySuccessResult?
    ensures LegacyRunOne(source, compileError, test, name, linked, outcome).value.diag.args == Prepare(test, linked).value.0
  {
    Runner.WrapIdempotent(Elements(test["inputArgs"]).value, linked);
  }

  /** A legacy request: the tests are already decoded from `testJSON`. */
  datatype LegacyRequest = LegacyRequest(
    source: string,
    tests: seq<LegacyTest>,
    functionName: Option<string> := None,
    isLinkedList: bool := false,
    isLevel5: bool := false)

  /** The function name, resolved once per request. */
  function ResolvedName(req: LegacyRequest): Result<string, LegacyCrash> {
    if req.functionName.None? then FirstFunctionName(req.source) else Ok(req.functionName.value)
  }

  /** The outcome of the request's `i`-th test, run under `name`. */
  function LegacyResultAt(req: LegacyRequest, compileError: Option<string>, outcomes: seq<WorkerOutcome>,
                          name: string, i: nat): Result<LegacyResult, LegacyCrash>
    requires |outcomes| == |req.tests| && i < |req.tests|
  {
    LegacyRunOne(req.source, compileError, req.tests[i], name, req.isLinkedList, outcomes[i])
  }

  /** The outcome of each test of the request, in order, under `name`. */
  function LegacyResults(req: LegacyRequest, compileError: Option<string>, outcomes: seq<WorkerOutcome>,
                         name: string): (rs: seq<Result<LegacyResult, LegacyCrash>>)
    requires |outcomes| == |req.tests|
    ensures |rs| == |req.tests| &&
            forall i :: 0 <= i < |req.tests| ==> rs[i] == LegacyResultAt(req, compileError, outcomes, name, i)
  {
    seq(|req.tests|, i requires 0 <= i < |req.tests| => LegacyResultAt(req, compileError, outcomes, name, i))
  }

  /** `run_tests`: resolve the name once, then run the tests. */
  method LegacyRunTests(req: LegacyRequest, compileError: Option<string>, outcomes: seq<WorkerOutcome>)
    returns (r: Result<seq<LegacyResult>, LegacyCrash>)
    requires |outcomes| == |req.tests|
    ensures ResolvedName(req).Err? ==> r == Err(ResolvedName(req).error)
    ensures ResolvedName(req).Ok? ==> r == Collect(LegacyResults(req, compileError, outcomes, ResolvedName(req).value))
  {
    var name: string;
    if req.functionName.None? {
      var found := FirstFunctionName(req.source);
      if found.Err? {
        return Err(found.error);
      }
      name := found.value;
    } else {
      name := req.functionName.value;
    }
    r := LegacyRunAll(req, compileError, outcomes, name);
  }

  /** The loop of `run_tests`: one result per test, in order; an exception
      ends the request (`Wrappers.CollectMeaning`). */
  method LegacyRunAll(req: LegacyRequest, compileError: Option<string>, outcomes: seq<WorkerOutcome>, name: string)
    returns (r: Result<seq<LegacyResult>, LegacyCrash>)
    requires |outcomes| == |req.tests|
    ensures r == Collect(LegacyResults(req, compileError, outcomes, name))
  {
    ghost var rs := LegacyResults(req, compileError, outcomes, name);
    var results: seq<LegacyResult> := [];
    assert rs[0..] == rs;
    PrefixedNothing(Collect(rs));
    for i := 0 to |req.tests|
      invariant Collect(rs) == Prefixed(results, Collect(rs[i..]))
    {
      var one := LegacyResultAt(req, compileError, outcomes, name, i);
      assert one == rs[i];
      if one.Err? {
        assert rs[i..][0] == rs[i];
        return Err(one.error);
      }
      CollectStep(rs, i, results);
      results := results + [one.value];
    }
    assert rs[|req.tests|..] == [];
    assert results + [] == results;
    return Ok(results);
  }

  /** A request without a name whose source does not start with a `def` fails
      before any test runs, even with no tests. */
  lemma UnnamedNeedsLeadingDef(source: string, tests: seq<LegacyTest>)
    requires ParseHeader(source).None?
    ensures ResolvedName(LegacyRequest(source, tests)) == Err(NoFunctionHeader)
  {
  }
}
