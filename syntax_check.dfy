/** The older specification validator of run_python_tests/syntax_check.py.
    Neither checkmate/index.py nor the legacy index.py calls it.  It never enters a `def`: every `def` outside a
    `def` (inside `if`, `class`, ... included) is a candidate, and imports in
    function bodies are never seen. */
module SyntaxCheck {
  import opened Wrappers
  import opened PyAst
  import opened DefSearch

  const Level5Name: string := "when_run"

  // ---------------------------------------------------------------------------
  // The traversal as functions.

  function LegacyWalkStmt(arity: nat, level5: bool, s: Stmt, st: VisitState): (r: Walk)
    ensures Consistent(st) && r.Continue? ==> Consistent(r.st)
    ensures st.name.Some? && r.Continue? ==> r.st.name == st.name
    decreases s
  {
    match s
    case Import(line) =>
      if level5 then Stopped(NoImportsAllowed(line, ImportMessage)) else Continue(st)
    case ImportFrom(_) => Continue(st)
    case Other(children) => LegacyWalkSeq(arity, level5, children, st)
    case FunctionDef(_, _, _, _) => MatchDef(Legacy, arity, DefOf(s), st)
  }

  function LegacyWalkSeq(arity: nat, level5: bool, ss: seq<Stmt>, st: VisitState): (r: Walk)
    ensures Consistent(st) && r.Continue? ==> Consistent(r.st)
    ensures st.name.Some? && r.Continue? ==> r.st.name == st.name
    decreases ss
  {
    if |ss| == 0 then Continue(st)
    else
      match LegacyWalkStmt(arity, level5, ss[0], st)
      case Stopped(e) => Stopped(e)
      case Continue(st') => LegacyWalkSeq(arity, level5, ss[1..], st')
  }

  /** `check_specification`.  The not-found message names the name the caller
      passed, not `when_run`. */
  function LegacyChecked(m: Module, arity: nat, functionName: Option<string>, level5: bool): Result<(string, seq<string>), SpecError> {
    var name := if level5 then Some(Level5Name) else functionName;
    match LegacyWalkSeq(arity, level5, m.body, VisitState(name, None, false))
    case Stopped(e) => Err(e)
    case Continue(st) =>
      if !st.found then Err(FunctionDefNotFound(0, NotFoundMessage(functionName)))
      else Ok((st.name.value, st.argNames.value))
  }

  // ---------------------------------------------------------------------------
  // The visitor object.

  class LegacySpecificationCheckVisitor {
    const inputArity: nat
    const isLevel5: bool
    var functionName: Option<string>
    var argNames: Option<seq<string>>
    var functionDefFound: bool

    function State(): VisitState
      reads this
    {
      VisitState(functionName, argNames, functionDefFound)
    }

    constructor (inputArity: nat, functionName: Option<string>, isLevel5: bool)
      ensures this.inputArity == inputArity && this.isLevel5 == isLevel5
      ensures State() == VisitState(if isLevel5 then Some(Level5Name) else functionName, None, false)
    {
      this.inputArity := inputArity;
      this.isLevel5 := isLevel5;
      this.functionName := functionName;
      if isLevel5 {
        this.functionName := Some(Level5Name);
      }
      argNames := None;
      functionDefFound := false;
    }

    /** `generic_visit`: the children in order. */
    method GenericVisit(children: seq<Stmt>) returns (err: Option<SpecError>)
      modifies this
      decreases children, 0
      ensures err.Some? ==> LegacyWalkSeq(inputArity, isLevel5, children, old(State())) == Stopped(err.value)
      ensures err.None? ==> LegacyWalkSeq(inputArity, isLevel5, children, old(State())) == Continue(State())
    {
      var i := 0;
      while i < |children|
        invariant 0 <= i <= |children|
        invariant LegacyWalkSeq(inputArity, isLevel5, children, old(State()))
               == LegacyWalkSeq(inputArity, isLevel5, children[i..], State())
      {
        assert children[i..][0] == children[i] && children[i..][1..] == children[i + 1..];
        err := Visit(children[i]);
        if err.Some? {
          return;
        }
        i := i + 1;
      }
      err := None;
    }

    method Visit(s: Stmt) returns (err: Option<SpecError>)
      modifies this
      decreases s, 1
      ensures err.Some? ==> LegacyWalkStmt(inputArity, isLevel5, s, old(State())) == Stopped(err.value)
      ensures err.None? ==> LegacyWalkStmt(inputArity, isLevel5, s, old(State())) == Continue(State())
    {
      match s
      case FunctionDef(_, _, _, _) => err := VisitFunctionDef(s);
      case Import(line) => err := VisitImport(line);
      case ImportFrom(_) => err := None;
      case Other(children) => err := GenericVisit(children);
    }

    method VisitImport(line: nat) returns (err: Option<SpecError>)
      ensures err.Some? <==> isLevel5
      ensures err.Some? ==> err.value == NoImportsAllowed(line, ImportMessage)
    {
      if isLevel5 {
        return Some(NoImportsAllowed(line, ImportMessage));
      }
      return None;
    }

    /** `visit_FunctionDef`: the body is not visited. */
    method VisitFunctionDef(s: Stmt) returns (err: Option<SpecError>)
      requires s.FunctionDef?
      modifies this
      ensures err.Some? ==> MatchDef(Legacy, inputArity, DefOf(s), old(State())) == Stopped(err.value)
      ensures err.None? ==> MatchDef(Legacy, inputArity, DefOf(s), old(State())) == Continue(State())
    {
      if functionName.None? {
        functionName := Some(s.name);
      }
      if s.name != functionName.value {
        return None;
      }
      functionDefFound := true;
      argNames := Some(s.params);
      if |s.params| != inputArity {
        return Some(WrongNumberOfArguments(s.line, ArityMessage(Legacy, functionName.value, inputArity, |s.params|)));
      }
      return None;
    }
  }

  method CheckSpecification(tree: Module, inputArity: nat, functionName: Option<string>, isLevel5: bool)
    returns (r: Result<(string, seq<string>), SpecError>)
    ensures r == LegacyChecked(tree, inputArity, functionName, isLevel5)
  {
    var visitor := new LegacySpecificationCheckVisitor(inputArity, functionName, isLevel5);
    var err := visitor.GenericVisit(tree.body);
    if err.Some? {
      return Err(err.value);
    }
    if !visitor.functionDefFound {
      return Err(FunctionDefNotFound(0, NotFoundMessage(functionName)));
    }
    return Ok((visitor.functionName.value, visitor.argNames.value));
  }

  // ---------------------------------------------------------------------------
  // Declarative views.

  /** The `def`s the visitor reaches, in source order: those not inside a `def`. */
  function ReachedDefs(s: Stmt): seq<Def>
    decreases s
  {
    match s
    case FunctionDef(_, _, _, _) => [DefOf(s)]
    case Other(children) => ReachedDefsIn(children)
    case _ => []
  }

  function ReachedDefsIn(ss: seq<Stmt>): seq<Def>
    decreases ss
  {
    if |ss| == 0 then [] else ReachedDefs(ss[0]) + ReachedDefsIn(ss[1..])
  }

  /** The lines of the `import`s outside every `def`, in source order. */
  function ImportsOutsideDefs(s: Stmt): seq<nat>
    decreases s
  {
    match s
    case Import(line) => [line]
    case Other(children) => ImportsOutsideDefsIn(children)
    case _ => []
  }

  function ImportsOutsideDefsIn(ss: seq<Stmt>): seq<nat>
    decreases ss
  {
    if |ss| == 0 then [] else ImportsOutsideDefs(ss[0]) + ImportsOutsideDefsIn(ss[1..])
  }

  // ---------------------------------------------------------------------------
  // Properties.

  /** Outside level-5 mode the walk is the selection scan over the reached `def`s. */
  lemma {:induction false} LegacyWalkIsScan(arity: nat, s: Stmt, st: VisitState)
    ensures LegacyWalkStmt(arity, false, s, st) == ScanDefs(Legacy, arity, ReachedDefs(s), st)
    decreases s
  {
    match s
    case FunctionDef(_, _, _, _) =>
      assert ReachedDefs(s)[1..] == [];
    case Other(children) => LegacyWalkIsScanIn(arity, children, st);
    case Import(_) =>
    case ImportFrom(_) =>
  }

  lemma {:induction false} LegacyWalkIsScanIn(arity: nat, ss: seq<Stmt>, st: VisitState)
    ensures LegacyWalkSeq(arity, false, ss, st) == ScanDefs(Legacy, arity, ReachedDefsIn(ss), st)
    decreases ss
  {
    if |ss| > 0 {
      LegacyWalkIsScan(arity, ss[0], st);
      ScanDefsAppend(Legacy, arity, ReachedDefs(ss[0]), ReachedDefsIn(ss[1..]), st);
      match LegacyWalkStmt(arity, false, ss[0], st)
      case Stopped(_) =>
      case Continue(st') => LegacyWalkIsScanIn(arity, ss[1..], st');
    }
  }

  /** Outside level-5 mode, with a requested name `t`: the first reached `def t`
      with a wrong parameter count raises; otherwise the result is the
      parameters of the last reached `def t`, or not found. */
  lemma LegacyCheckedWithName(m: Module, arity: nat, t: string)
    ensures var defs := ReachedDefsIn(m.body);
      && (forall k :: FirstWrongArity(defs, t, arity, k) ==>
            LegacyChecked(m, arity, Some(t), false) ==
            Err(WrongNumberOfArguments(defs[k].line, ArityMessage(Legacy, t, arity, |defs[k].params|))))
      && (ArityAgrees(defs, t, arity) && !HasNamed(defs, t) ==>
            LegacyChecked(m, arity, Some(t), false) == Err(FunctionDefNotFound(0, "Function '" + t + "' not found")))
      && (forall k :: ArityAgrees(defs, t, arity) && LastNamed(defs, t, k) ==>
            LegacyChecked(m, arity, Some(t), false) == Ok((t, defs[k].params)))
  {
    var defs := ReachedDefsIn(m.body);
    var st := VisitState(Some(t), None, false);
    LegacyWalkIsScanIn(arity, m.body, st);
    forall k | FirstWrongArity(defs, t, arity, k)
      ensures LegacyChecked(m, arity, Some(t), false) ==
              Err(WrongNumberOfArguments(defs[k].line, ArityMessage(Legacy, t, arity, |defs[k].params|)))
    {
      ScanFixedTargetFails(Legacy, arity, defs, st, k);
    }
    if ArityAgrees(defs, t, arity) {
      ScanFixedTargetSucceeds(Legacy, arity, defs, st);
    }
  }

  /** Replaces every function body by nothing. */
  function StripBodies(s: Stmt): (r: Stmt)
    ensures r.FunctionDef? <==> s.FunctionDef?
    decreases s
  {
    match s
    case FunctionDef(name, params, _, line) => FunctionDef(name, params, [], line)
    case Other(children) => Other(StripBodiesIn(children))
    case _ => s
  }

  function StripBodiesIn(ss: seq<Stmt>): (r: seq<Stmt>)
    ensures |r| == |ss|
    decreases ss
  {
    if |ss| == 0 then [] else [StripBodies(ss[0])] + StripBodiesIn(ss[1..])
  }

  /** Function bodies are never looked at, in either mode. */
  lemma {:induction false} BodiesIgnored(arity: nat, level5: bool, s: Stmt, st: VisitState)
    ensures LegacyWalkStmt(arity, level5, StripBodies(s), st) == LegacyWalkStmt(arity, level5, s, st)
    decreases s
  {
    match s
    case Other(children) => BodiesIgnoredIn(arity, level5, children, st);
    case FunctionDef(_, _, _, _) =>
    case Import(_) =>
    case ImportFrom(_) =>
  }

  lemma {:induction false} BodiesIgnoredIn(arity: nat, level5: bool, ss: seq<Stmt>, st: VisitState)
    ensures LegacyWalkSeq(arity, level5, StripBodiesIn(ss), st) == LegacyWalkSeq(arity, level5, ss, st)
    decreases ss
  {
    if |ss| > 0 {
      var ss' := StripBodiesIn(ss);
      assert ss'[0] == StripBodies(ss[0]) && ss'[1..] == StripBodiesIn(ss[1..]);
      BodiesIgnored(arity, level5, ss[0], st);
      match LegacyWalkStmt(arity, level5, ss[0], st)
      case Stopped(_) =>
      case Continue(st') => BodiesIgnoredIn(arity, level5, ss[1..], st');
    }
  }

  lemma LegacyBodiesIgnored(m: Module, arity: nat, functionName: Option<string>, level5: bool)
    ensures LegacyChecked(Module(StripBodiesIn(m.body)), arity, functionName, level5) == LegacyChecked(m, arity, functionName, level5)
  {
    var name := if level5 then Some(Level5Name) else functionName;
    BodiesIgnoredIn(arity, level5, m.body, VisitState(name, None, false));
  }

  /** What stops a level-5 visit, in the order the visitor meets it, with
      target `t`: every `import` outside a `def`, and every reached `def t` with
      a wrong parameter count. */
  function LegacyEvents(s: Stmt, t: string, arity: nat): seq<Level5Event>
    decreases s
  {
    match s
    case Import(line) => [ImportAt(line)]
    case ImportFrom(_) => []
    case Other(children) => LegacyEventsIn(children, t, arity)
    case FunctionDef(name, params, _, line) =>
      if name == t && |params| != arity then [BadArity(line, |params|)] else []
  }

  function LegacyEventsIn(ss: seq<Stmt>, t: string, arity: nat): seq<Level5Event>
    decreases ss
  {
    if |ss| == 0 then [] else LegacyEvents(ss[0], t, arity) + LegacyEventsIn(ss[1..], t, arity)
  }

  /** In level-5 mode the walk raises at the first event it meets; with no event
      it succeeds and is the walk without the import rule. */
  lemma {:induction false} LegacyLevel5(arity: nat, s: Stmt, st: VisitState)
    requires st.name.Some?
    ensures var ev := LegacyEvents(s, st.name.value, arity);
            if |ev| > 0 then LegacyWalkStmt(arity, true, s, st) == Stopped(EventError(Legacy, st.name.value, arity, ev[0]))
            else LegacyWalkStmt(arity, false, s, st).Continue? && LegacyWalkStmt(arity, true, s, st) == LegacyWalkStmt(arity, false, s, st)
    decreases s
  {
    match s
    case Other(children) => LegacyLevel5In(arity, children, st);
    case FunctionDef(_, _, _, _) =>
    case Import(_) =>
    case ImportFrom(_) =>
  }

  lemma {:induction false} LegacyLevel5In(arity: nat, ss: seq<Stmt>, st: VisitState)
    requires st.name.Some?
    ensures var ev := LegacyEventsIn(ss, st.name.value, arity);
            if |ev| > 0 then LegacyWalkSeq(arity, true, ss, st) == Stopped(EventError(Legacy, st.name.value, arity, ev[0]))
            else LegacyWalkSeq(arity, false, ss, st).Continue? && LegacyWalkSeq(arity, true, ss, st) == LegacyWalkSeq(arity, false, ss, st)
    decreases ss
  {
    if |ss| > 0 {
      var t := st.name.value;
      var head, tail := LegacyEvents(ss[0], t, arity), LegacyEventsIn(ss[1..], t, arity);
      LegacyLevel5(arity, ss[0], st);
      if |head| > 0 {
        assert (head + tail)[0] == head[0];
      } else {
        assert head + tail == tail;
        LegacyLevel5In(arity, ss[1..], LegacyWalkStmt(arity, false, ss[0], st).st);
      }
    }
  }

  /** Level-5 mode looks for `when_run`.  The check fails at the first event:
      an `import` outside a function raises `NoImportsAllowedError`, a reached
      `when_run` with a wrong parameter count raises `WrongNumberOfArgumentsError`.
      With no event it is the check of `when_run`, except that the not-found
      message still names the requested name. */
  lemma LegacyLevel5Checked(m: Module, arity: nat, functionName: Option<string>)
    ensures var ev := LegacyEventsIn(m.body, Level5Name, arity);
      |ev| > 0 ==> LegacyChecked(m, arity, functionName, true) == Err(EventError(Legacy, Level5Name, arity, ev[0]))
    ensures |LegacyEventsIn(m.body, Level5Name, arity)| == 0 ==>
      match LegacyChecked(m, arity, Some(Level5Name), false)
      case Err(FunctionDefNotFound(_, _)) =>
        LegacyChecked(m, arity, functionName, true) == Err(FunctionDefNotFound(0, NotFoundMessage(functionName)))
      case _ => LegacyChecked(m, arity, functionName, true) == LegacyChecked(m, arity, Some(Level5Name), false)
  {
    LegacyLevel5In(arity, m.body, VisitState(Some(Level5Name), None, false));
  }

  /** When every reached `def t` takes the right number of parameters, the
      events are exactly the imports outside every `def`. */
  lemma {:induction false} LegacyEventsAreImports(s: Stmt, t: string, arity: nat)
    requires ArityAgrees(ReachedDefs(s), t, arity)
    ensures LegacyEvents(s, t, arity) == ImportEvents(ImportsOutsideDefs(s))
    decreases s
  {
    match s
    case Other(children) => LegacyEventsAreImportsIn(children, t, arity);
    case FunctionDef(_, _, _, _) => assert ReachedDefs(s)[0] == DefOf(s);
    case Import(_) =>
    case ImportFrom(_) =>
  }

  lemma {:induction false} LegacyEventsAreImportsIn(ss: seq<Stmt>, t: string, arity: nat)
    requires ArityAgrees(ReachedDefsIn(ss), t, arity)
    ensures LegacyEventsIn(ss, t, arity) == ImportEvents(ImportsOutsideDefsIn(ss))
    decreases ss
  {
    if |ss| > 0 {
      var head, tail := ReachedDefs(ss[0]), ReachedDefsIn(ss[1..]);
      assert ReachedDefsIn(ss) == head + tail;
      assert ArityAgrees(head, t, arity) by {
        forall k | 0 <= k < |head| && head[k].name == t ensures |head[k].params| == arity {
          assert ReachedDefsIn(ss)[k] == head[k];
        }
      }
      assert ArityAgrees(tail, t, arity) by {
        forall k | 0 <= k < |tail| && tail[k].name == t ensures |tail[k].params| == arity {
          assert ReachedDefsIn(ss)[k + |head|] == tail[k];
        }
      }
      LegacyEventsAreImports(ss[0], t, arity);
      LegacyEventsAreImportsIn(ss[1..], t, arity);
      ImportEventsAppend(ImportsOutsideDefs(ss[0]), ImportsOutsideDefsIn(ss[1..]));
    }
  }

  /** With every reached `when_run` taking the right number of parameters, the
      first `import` outside a function is rejected. */
  lemma LegacyLevel5ImportsOnly(m: Module, arity: nat, functionName: Option<string>)
    requires ArityAgrees(ReachedDefsIn(m.body), Level5Name, arity)
    ensures var r := ImportsOutsideDefsIn(m.body);
      |r| > 0 ==> LegacyChecked(m, arity, functionName, true) == Err(NoImportsAllowed(r[0], ImportMessage))
    ensures |ImportsOutsideDefsIn(m.body)| == 0 ==> |LegacyEventsIn(m.body, Level5Name, arity)| == 0
  {
    LegacyLevel5Checked(m, arity, functionName);
    LegacyEventsAreImportsIn(m.body, Level5Name, arity);
  }

  /** `def when_run(a, b)` given one input, with an `import` after it: the
      arity error comes first. */
  lemma LegacyWrongArityBeforeImport()
    ensures LegacyChecked(Module([FunctionDef("when_run", ["a", "b"], [], 2), Import(4)]), 1, None, true)
         == Err(WrongNumberOfArguments(2, ArityMessage(Legacy, Level5Name, 1, 2)))
  {
    var m := Module([FunctionDef("when_run", ["a", "b"], [], 2), Import(4)]);
    LegacyLevel5Checked(m, 1, None);
  }

  /** `import os` inside `when_run` is not seen by this validator. */
  lemma InnerImportAccepted()
    ensures LegacyChecked(Module([FunctionDef("when_run", ["a"], [Import(3)], 2)]), 1, None, true)
         == Ok(("when_run", ["a"]))
  {
  }

  /** A level-5 module without `when_run`, with no name requested, is reported as
      "No function found in source". */
  lemma WhenRunMissingMessage()
    ensures LegacyChecked(Module([FunctionDef("f", ["a"], [], 2)]), 1, None, true)
         == Err(FunctionDefNotFound(0, "No function found in source"))
  {
  }

  /** A `def` inside an `if` is a candidate. */
  lemma NestedInBlockSelected()
    ensures LegacyChecked(Module([Other([FunctionDef("f", ["a", "b"], [], 3)])]), 2, None, false)
         == Ok(("f", ["a", "b"]))
  {
  }
}
