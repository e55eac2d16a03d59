/** The specification validator of checkmate/spec_check.py: a visitor over the
    syntax tree that keeps a stack of the nodes it is inside, so that only a
    `def` directly inside the module can be selected, while imports are found at
    any depth (level-5 mode forbids them). */
module SpecCheck {
  import opened Wrappers
  import opened PyAst
  import opened DefSearch

  /** The kinds of node the `parents` stack holds. */
  datatype Parent = ModuleNode | DefNode | OtherNode

  const Level5Name: string := "when_run"

  // ---------------------------------------------------------------------------
  // The traversal as functions: what visiting a statement (whose parent is the
  // module exactly when `top` holds) does to the visitor's state.

  function WalkStmt(arity: nat, level5: bool, s: Stmt, top: bool, st: VisitState): (r: Walk)
    ensures Consistent(st) && r.Continue? ==> Consistent(r.st)
    ensures st.name.Some? && r.Continue? ==> r.st.name == st.name
    decreases s
  {
    match s
    case Import(line) =>
      if level5 then Stopped(NoImportsAllowed(line, ImportMessage)) else Continue(st)
    case ImportFrom(_) => Continue(st)
    case Other(children) => WalkSeq(arity, level5, children, false, st)
    case FunctionDef(name, params, body, line) =>
      if !top then WalkSeq(arity, level5, body, false, st)
      else
        match MatchDef(Current, arity, DefOf(s), st)
        case Stopped(e) => Stopped(e)
        case Continue(st') =>
          if Selects(st, DefOf(s)) then WalkSeq(arity, level5, body, false, st') else Continue(st')
  }

  function WalkSeq(arity: nat, level5: bool, ss: seq<Stmt>, top: bool, st: VisitState): (r: Walk)
    ensures Consistent(st) && r.Continue? ==> Consistent(r.st)
    ensures st.name.Some? && r.Continue? ==> r.st.name == st.name
    decreases ss
  {
    if |ss| == 0 then Continue(st)
    else
      match WalkStmt(arity, level5, ss[0], top, st)
      case Stopped(e) => Stopped(e)
      case Continue(st') => WalkSeq(arity, level5, ss[1..], top, st')
  }

  /** `check_specification` on a parsed module: the resolved name and its
      parameter names, or the error raised. */
  function Checked(m: Module, arity: nat, functionName: Option<string>, level5: bool): Result<(string, seq<string>), SpecError> {
    var name := if level5 then Some(Level5Name) else functionName;
    match WalkSeq(arity, level5, m.body, true, VisitState(name, None, false))
    case Stopped(e) => Err(e)
    case Continue(st) =>
      if !st.found then Err(FunctionDefNotFound(0, NotFoundMessage(name)))
      else Ok((st.name.value, st.argNames.value))
  }

  // ---------------------------------------------------------------------------
  // The visitor object.

  class SpecificationCheckVisitor {
    const inputArity: nat
    const isLevel5: bool
    var functionName: Option<string>
    var argNames: Option<seq<string>>
    var functionDefFound: bool
    var parents: seq<Parent>

    function State(): VisitState
      reads this
    {
      VisitState(functionName, argNames, functionDefFound)
    }

    constructor (inputArity: nat, functionName: Option<string>, isLevel5: bool)
      ensures this.inputArity == inputArity && this.isLevel5 == isLevel5
      ensures State() == VisitState(functionName, None, false) && parents == []
    {
      this.inputArity := inputArity;
      this.isLevel5 := isLevel5;
      this.functionName := functionName;
      argNames := None;
      functionDefFound := false;
      parents := [];
    }

    predicate IsTopLevel()
      requires |parents| > 0
      reads this
    {
      parents[|parents| - 1] == ModuleNode
    }

    /** `visit(tree)` on the module: a module has no handler of its own. */
    method VisitModule(m: Module) returns (err: Option<SpecError>)
      modifies this
      ensures err.Some? ==> WalkSeq(inputArity, isLevel5, m.body, true, old(State())) == Stopped(err.value)
      ensures err.None? ==> WalkSeq(inputArity, isLevel5, m.body, true, old(State())) == Continue(State())
      ensures err.None? ==> parents == old(parents)
    {
      err := GenericVisit(ModuleNode, m.body);
    }

    /** `generic_visit`: push the node, visit its children in order, pop it.  An
        exception leaves the stack as it is. */
    method GenericVisit(kind: Parent, children: seq<Stmt>) returns (err: Option<SpecError>)
      modifies this
      decreases children, 0
      ensures err.Some? ==> WalkSeq(inputArity, isLevel5, children, kind == ModuleNode, old(State())) == Stopped(err.value)
      ensures err.None? ==> WalkSeq(inputArity, isLevel5, children, kind == ModuleNode, old(State())) == Continue(State())
      ensures err.None? ==> parents == old(parents)
    {
      var top := kind == ModuleNode;
      parents := parents + [kind];
      var i := 0;
      while i < |children|
        invariant 0 <= i <= |children|
        invariant parents == old(parents) + [kind]
        invariant WalkSeq(inputArity, isLevel5, children, top, old(State()))
               == WalkSeq(inputArity, isLevel5, children[i..], top, State())
      {
        assert children[i..][0] == children[i] && children[i..][1..] == children[i + 1..];
        err := Visit(children[i]);
        if err.Some? {
          return;
        }
        i := i + 1;
      }
      parents := parents[..|parents| - 1];
      err := None;
    }

    /** `visit(node)`: dispatch to the handler for the node's class, or to
        `generic_visit` when it has none. */
    method Visit(s: Stmt) returns (err: Option<SpecError>)
      requires |parents| > 0
      modifies this
      decreases s, 2
      ensures err.Some? ==> WalkStmt(inputArity, isLevel5, s, old(IsTopLevel()), old(State())) == Stopped(err.value)
      ensures err.None? ==> WalkStmt(inputArity, isLevel5, s, old(IsTopLevel()), old(State())) == Continue(State())
      ensures err.None? ==> parents == old(parents)
    {
      match s
      case FunctionDef(_, _, _, _) => err := VisitFunctionDef(s);
      case Import(line) => err := VisitImport(line);
      case ImportFrom(_) =>
        // `generic_visit` pushes and pops the node around its aliases, which
        // are not statements: nothing observable changes.
        err := None;
      case Other(children) => err := GenericVisit(OtherNode, children);
    }

    method VisitImport(line: nat) returns (err: Option<SpecError>)
      ensures err.Some? <==> isLevel5
      ensures err.Some? ==> err.value == NoImportsAllowed(line, ImportMessage)
    {
      if isLevel5 {
        return Some(NoImportsAllowed(line, ImportMessage));
      }
      return None;
    }

    method VisitFunctionDef(s: Stmt) returns (err: Option<SpecError>)
      requires s.FunctionDef? && |parents| > 0
      modifies this
      decreases s, 1
      ensures err.Some? ==> WalkStmt(inputArity, isLevel5, s, old(IsTopLevel()), old(State())) == Stopped(err.value)
      ensures err.None? ==> WalkStmt(inputArity, isLevel5, s, old(IsTopLevel()), old(State())) == Continue(State())
      ensures err.None? ==> parents == old(parents)
    {
      if !IsTopLevel() {
        err := GenericVisit(DefNode, s.body);
        return;
      }
      ghost var st0 := State();
      if functionName.None? {
        functionName := Some(s.name);
      }
      if s.name != functionName.value {
        return None;
      }
      functionDefFound := true;
      argNames := Some(s.params);
      if |s.params| != inputArity {
        return Some(WrongNumberOfArguments(s.line, ArityMessage(Current, functionName.value, inputArity, |s.params|)));
      }
      assert State() == MatchDef(Current, inputArity, DefOf(s), st0).st;
      err := GenericVisit(DefNode, s.body);
    }
  }

  /** `check_specification`: level-5 mode fixes the name to `when_run`; the
      module is visited, and a missing match raises `FunctionDefNotFoundError`. */
  method CheckSpecification(tree: Module, inputArity: nat, functionName: Option<string>, isLevel5: bool)
    returns (r: Result<(string, seq<string>), SpecError>)
    ensures r == Checked(tree, inputArity, functionName, isLevel5)
  {
    var name := functionName;
    if isLevel5 {
      name := Some(Level5Name);
    }
    var visitor := new SpecificationCheckVisitor(inputArity, name, isLevel5);
    var err := visitor.VisitModule(tree);
    if err.Some? {
      return Err(err.value);
    }
    if !visitor.functionDefFound {
      return Err(FunctionDefNotFound(0, NotFoundMessage(name)));
    }
    return Ok((visitor.functionName.value, visitor.argNames.value));
  }

  // ---------------------------------------------------------------------------
  // Declarative views of a module.

  /** The `def`s directly in a statement list: the only ones that can be selected. */
  function TopDefs(ss: seq<Stmt>): (defs: seq<Def>)
    ensures |defs| <= |ss|
  {
    if |ss| == 0 then []
    else (if ss[0].FunctionDef? then [DefOf(ss[0])] else []) + TopDefs(ss[1..])
  }

  /** The line of the first `import`, in source order, anywhere in a statement. */
  function FirstImport(s: Stmt): Option<nat>
    decreases s
  {
    match s
    case Import(line) => Some(line)
    case ImportFrom(_) => None
    case Other(children) => FirstImportIn(children)
    case FunctionDef(_, _, body, _) => FirstImportIn(body)
  }

  function FirstImportIn(ss: seq<Stmt>): Option<nat>
    decreases ss
  {
    if |ss| == 0 then None
    else if FirstImport(ss[0]).Some? then FirstImport(ss[0])
    else FirstImportIn(ss[1..])
  }

  /** The lines of the `import`s the visitor reaches, in order, once the target
      name is `t`: the body of a top-level `def` of another name is never
      entered. */
  function ReachedImports(s: Stmt, top: bool, t: string): seq<nat>
    decreases s
  {
    match s
    case Import(line) => [line]
    case ImportFrom(_) => []
    case Other(children) => ReachedImportsIn(children, false, t)
    case FunctionDef(name, _, body, _) =>
      if top && name != t then [] else ReachedImportsIn(body, false, t)
  }

  function ReachedImportsIn(ss: seq<Stmt>, top: bool, t: string): seq<nat>
    decreases ss
  {
    if |ss| == 0 then []
    else ReachedImports(ss[0], top, t) + ReachedImportsIn(ss[1..], top, t)
  }

  // ---------------------------------------------------------------------------
  // Properties of the traversal.

  /** Below the top level nothing is selected: the walk either changes nothing
      or (in level-5 mode) stops at the first `import`. */
  lemma {:induction false} NestedWalk(arity: nat, level5: bool, s: Stmt, st: VisitState)
    ensures WalkStmt(arity, level5, s, false, st) ==
            if level5 && FirstImport(s).Some? then Stopped(NoImportsAllowed(FirstImport(s).value, ImportMessage))
            else Continue(st)
    decreases s
  {
    match s
    case Import(_) =>
    case ImportFrom(_) =>
    case Other(children) => NestedWalkIn(arity, level5, children, st);
    case FunctionDef(_, _, body, _) => NestedWalkIn(arity, level5, body, st);
  }

  lemma {:induction false} NestedWalkIn(arity: nat, level5: bool, ss: seq<Stmt>, st: VisitState)
    ensures WalkSeq(arity, level5, ss, false, st) ==
            if level5 && FirstImportIn(ss).Some? then Stopped(NoImportsAllowed(FirstImportIn(ss).value, ImportMessage))
            else Continue(st)
    decreases ss
  {
    if |ss| > 0 {
      NestedWalk(arity, level5, ss[0], st);
      NestedWalkIn(arity, level5, ss[1..], st);
    }
  }

  /** Outside level-5 mode the walk is the selection scan over the top-level
      `def`s alone. */
  lemma {:induction false} TopWalkIsScan(arity: nat, ss: seq<Stmt>, st: VisitState)
    ensures WalkSeq(arity, false, ss, true, st) == ScanDefs(Current, arity, TopDefs(ss), st)
    decreases ss
  {
    if |ss| > 0 {
      var s := ss[0];
      match s
      case Import(_) =>
        assert TopDefs(ss) == TopDefs(ss[1..]);
        TopWalkIsScan(arity, ss[1..], st);
      case ImportFrom(_) =>
        assert TopDefs(ss) == TopDefs(ss[1..]);
        TopWalkIsScan(arity, ss[1..], st);
      case Other(children) =>
        assert TopDefs(ss) == TopDefs(ss[1..]);
        NestedWalkIn(arity, false, children, st);
        assert WalkStmt(arity, false, s, true, st) == Continue(st);
        TopWalkIsScan(arity, ss[1..], st);
      case FunctionDef(_, _, body, _) =>
        assert TopDefs(ss) == [DefOf(s)] + TopDefs(ss[1..]);
        ScanDefsAppend(Current, arity, [DefOf(s)], TopDefs(ss[1..]), st);
        match MatchDef(Current, arity, DefOf(s), st)
        case Stopped(_) =>
        case Continue(st') =>
          NestedWalkIn(arity, false, body, st');
          TopWalkIsScan(arity, ss[1..], st');
    }
  }

  /** Two modules with the same top-level `def`s check alike outside level-5
      mode: nested `def`s, other statements and imports play no part. */
  lemma NestedDefsIgnored(m1: Module, m2: Module, arity: nat, functionName: Option<string>)
    requires TopDefs(m1.body) == TopDefs(m2.body)
    ensures Checked(m1, arity, functionName, false) == Checked(m2, arity, functionName, false)
  {
    var st := VisitState(functionName, None, false);
    TopWalkIsScan(arity, m1.body, st);
    TopWalkIsScan(arity, m2.body, st);
  }

  lemma {:induction false} ScanKeepsFound(w: Wording, arity: nat, defs: seq<Def>, st: VisitState)
    requires st.found && ScanDefs(w, arity, defs, st).Continue?
    ensures ScanDefs(w, arity, defs, st).st.found
  {
    if |defs| > 0 {
      ScanKeepsFound(w, arity, defs[1..], MatchDef(w, arity, defs[0], st).st);
    }
  }

  /** Outside level-5 mode, with a requested name `t`: a top-level `def t`
      with the wrong parameter count raises at the first such `def`; otherwise
      the result is the parameters of the last top-level `def t`, or
      `FunctionDefNotFoundError` when there is none. */
  lemma CheckedWithName(m: Module, arity: nat, t: string)
    ensures var defs := TopDefs(m.body);
      && (forall k :: FirstWrongArity(defs, t, arity, k) ==>
            Checked(m, arity, Some(t), false) ==
            Err(WrongNumberOfArguments(defs[k].line, ArityMessage(Current, t, arity, |defs[k].params|))))
      && (ArityAgrees(defs, t, arity) && !HasNamed(defs, t) ==>
            Checked(m, arity, Some(t), false) == Err(FunctionDefNotFound(0, "Function '" + t + "' not found")))
      && (forall k :: ArityAgrees(defs, t, arity) && LastNamed(defs, t, k) ==>
            Checked(m, arity, Some(t), false) == Ok((t, defs[k].params)))
  {
    var defs := TopDefs(m.body);
    var st := VisitState(Some(t), None, false);
    TopWalkIsScan(arity, m.body, st);
    forall k | FirstWrongArity(defs, t, arity, k)
      ensures Checked(m, arity, Some(t), false) ==
              Err(WrongNumberOfArguments(defs[k].line, ArityMessage(Current, t, arity, |defs[k].params|)))
    {
      ScanFixedTargetFails(Current, arity, defs, st, k);
    }
    if ArityAgrees(defs, t, arity) {
      ScanFixedTargetSucceeds(Current, arity, defs, st);
    }
  }

  /** Outside level-5 mode with no requested name, the first top-level `def`
      is the target; a module without one has "No function found in source". */
  lemma FirstTopLevelDefIsTarget(m: Module, arity: nat)
    ensures |TopDefs(m.body)| == 0 ==> Checked(m, arity, None, false) == Err(FunctionDefNotFound(0, "No function found in source"))
    ensures |TopDefs(m.body)| > 0 ==> Checked(m, arity, None, false) == Checked(m, arity, Some(TopDefs(m.body)[0].name), false)
  {
    var defs := TopDefs(m.body);
    var st := VisitState(None, None, false);
    TopWalkIsScan(arity, m.body, st);
    if |defs| > 0 {
      var st1 := st.(name := Some(defs[0].name));
      TopWalkIsScan(arity, m.body, st1);
      ScanUnnamed(Current, arity, defs, st);
      match MatchDef(Current, arity, defs[0], st1)
      case Stopped(_) =>
      case Continue(st') =>
        if ScanDefs(Current, arity, defs[1..], st').Continue? {
          ScanKeepsFound(Current, arity, defs[1..], st');
        }
    }
  }

  /** What stops a level-5 visit of a statement (whose parent is the module
      exactly when `top` holds), in the order the visitor meets it, with target
      `t`: every reached `import`, and every top-level `def t` with a wrong
      parameter count, whose body is then not entered.  The body of a top-level
      `def` of another name is never entered. */
  function Level5Events(s: Stmt, top: bool, t: string, arity: nat): seq<Level5Event>
    decreases s
  {
    match s
    case Import(line) => [ImportAt(line)]
    case ImportFrom(_) => []
    case Other(children) => Level5EventsIn(children, false, t, arity)
    case FunctionDef(name, params, body, line) =>
      if top && name != t then []
      else if top && |params| != arity then [BadArity(line, |params|)]
      else Level5EventsIn(body, false, t, arity)
  }

  function Level5EventsIn(ss: seq<Stmt>, top: bool, t: string, arity: nat): seq<Level5Event>
    decreases ss
  {
    if |ss| == 0 then []
    else Level5Events(ss[0], top, t, arity) + Level5EventsIn(ss[1..], top, t, arity)
  }

  /** In level-5 mode the walk raises at the first event it meets; with no event
      it succeeds and is the walk without the import rule. */
  lemma {:induction false} Level5Stmt(arity: nat, s: Stmt, top: bool, st: VisitState)
    requires st.name.Some?
    ensures var ev := Level5Events(s, top, st.name.value, arity);
            if |ev| > 0 then WalkStmt(arity, true, s, top, st) == Stopped(EventError(Current, st.name.value, arity, ev[0]))
            else WalkStmt(arity, false, s, top, st).Continue? && WalkStmt(arity, true, s, top, st) == WalkStmt(arity, false, s, top, st)
    decreases s
  {
    match s
    case Import(_) =>
    case ImportFrom(_) =>
    case Other(children) => Level5Seq(arity, children, false, st);
    case FunctionDef(name, _, body, _) =>
      if !top {
        Level5Seq(arity, body, false, st);
      } else {
        match MatchDef(Current, arity, DefOf(s), st)
        case Stopped(_) =>
        case Continue(st') =>
          if Selects(st, DefOf(s)) {
            Level5Seq(arity, body, false, st');
          }
      }
  }

  lemma {:induction false} Level5Seq(arity: nat, ss: seq<Stmt>, top: bool, st: VisitState)
    requires st.name.Some?
    ensures var ev := Level5EventsIn(ss, top, st.name.value, arity);
            if |ev| > 0 then WalkSeq(arity, true, ss, top, st) == Stopped(EventError(Current, st.name.value, arity, ev[0]))
            else WalkSeq(arity, false, ss, top, st).Continue? && WalkSeq(arity, true, ss, top, st) == WalkSeq(arity, false, ss, top, st)
    decreases ss
  {
    if |ss| > 0 {
      var t := st.name.value;
      var head, tail := Level5Events(ss[0], top, t, arity), Level5EventsIn(ss[1..], top, t, arity);
      Level5Stmt(arity, ss[0], top, st);
      if |head| > 0 {
        assert (head + tail)[0] == head[0];
      } else {
        assert head + tail == tail;
        Level5Seq(arity, ss[1..], top, WalkStmt(arity, false, ss[0], top, st).st);
      }
    }
  }

  /** Level-5 mode fixes the target to `when_run`, whatever name was requested.
      The check fails at the first event the visitor meets: an `import` raises
      `NoImportsAllowedError` at its line, a top-level `when_run` with a wrong
      parameter count raises `WrongNumberOfArgumentsError` at its line.  With no
      event it is the ordinary check of `when_run`. */
  lemma Level5Checked(m: Module, arity: nat, functionName: Option<string>)
    ensures var ev := Level5EventsIn(m.body, true, Level5Name, arity);
      Checked(m, arity, functionName, true) ==
      if |ev| > 0 then Err(EventError(Current, Level5Name, arity, ev[0])) else Checked(m, arity, Some(Level5Name), false)
  {
    Level5Seq(arity, m.body, true, VisitState(Some(Level5Name), None, false));
  }

  /** When every top-level `def t` takes the right number of parameters, the
      events are exactly the reached imports. */
  lemma {:induction false} EventsAreImports(s: Stmt, top: bool, t: string, arity: nat)
    requires top && s.FunctionDef? && s.name == t ==> |s.params| == arity
    ensures Level5Events(s, top, t, arity) == ImportEvents(ReachedImports(s, top, t))
    decreases s
  {
    match s
    case Import(line) =>
    case ImportFrom(_) =>
    case Other(children) => EventsAreImportsIn(children, false, t, arity);
    case FunctionDef(_, _, body, _) => EventsAreImportsIn(body, false, t, arity);
  }

  lemma {:induction false} EventsAreImportsIn(ss: seq<Stmt>, top: bool, t: string, arity: nat)
    requires top ==> ArityAgrees(TopDefs(ss), t, arity)
    ensures Level5EventsIn(ss, top, t, arity) == ImportEvents(ReachedImportsIn(ss, top, t))
    decreases ss
  {
    if |ss| > 0 {
      var s := ss[0];
      if top {
        var defs := TopDefs(ss);
        var head := if s.FunctionDef? then [DefOf(s)] else [];
        assert defs == head + TopDefs(ss[1..]);
        assert ArityAgrees(TopDefs(ss[1..]), t, arity) by {
          forall k | 0 <= k < |TopDefs(ss[1..])| && TopDefs(ss[1..])[k].name == t
            ensures |TopDefs(ss[1..])[k].params| == arity
          {
            assert defs[k + |head|] == TopDefs(ss[1..])[k];
          }
        }
        if s.FunctionDef? {
          assert defs[0] == DefOf(s);
        }
      }
      EventsAreImports(s, top, t, arity);
      EventsAreImportsIn(ss[1..], top, t, arity);
      ImportEventsAppend(ReachedImports(s, top, t), ReachedImportsIn(ss[1..], top, t));
    }
  }

  /** With every top-level `when_run` taking the right number of parameters, the
      check fails with `NoImportsAllowedError` at the first `import` it reaches,
      and is otherwise the ordinary check of `when_run`. */
  lemma Level5ImportsOnly(m: Module, arity: nat, functionName: Option<string>)
    requires ArityAgrees(TopDefs(m.body), Level5Name, arity)
    ensures var r := ReachedImportsIn(m.body, true, Level5Name);
      Checked(m, arity, functionName, true) ==
      if |r| > 0 then Err(NoImportsAllowed(r[0], ImportMessage)) else Checked(m, arity, Some(Level5Name), false)
  {
    Level5Checked(m, arity, functionName);
    EventsAreImportsIn(m.body, true, Level5Name, arity);
  }

  /** Replaces the body of every top-level `def` not named `t` by nothing. */
  function StripUnselected(ss: seq<Stmt>, t: string): (r: seq<Stmt>)
    ensures |r| == |ss|
  {
    if |ss| == 0 then []
    else
      var s := ss[0];
      [if s.FunctionDef? && s.name != t then s.(body := []) else s] + StripUnselected(ss[1..], t)
  }

  /** The body of a top-level `def` other than the target is never visited:
      emptying it does not change the walk. */
  lemma {:induction false} UnselectedBodyNotVisited(arity: nat, level5: bool, ss: seq<Stmt>, st: VisitState)
    requires st.name.Some?
    ensures WalkSeq(arity, level5, StripUnselected(ss, st.name.value), true, st) == WalkSeq(arity, level5, ss, true, st)
    decreases ss
  {
    if |ss| > 0 {
      var s := ss[0];
      var ss' := StripUnselected(ss, st.name.value);
      assert ss'[1..] == StripUnselected(ss[1..], st.name.value);
      match WalkStmt(arity, level5, s, true, st)
      case Stopped(_) =>
      case Continue(st1) =>
        UnselectedBodyNotVisited(arity, level5, ss[1..], st1);
    }
  }

  // ---------------------------------------------------------------------------
  // Scenarios of tests/test_level5.py.

  /** `import os` before `def when_run(a)`. */
  lemma OuterImportBefore()
    ensures Checked(Module([Import(2), FunctionDef("when_run", ["a"], [], 3)]), 1, None, true)
         == Err(NoImportsAllowed(2, ImportMessage))
  {
    var m := Module([Import(2), FunctionDef("when_run", ["a"], [], 3)]);
    Level5Checked(m, 1, None);
  }

  /** `import numpy` after `def when_run(a)`. */
  lemma OuterImportAfter()
    ensures Checked(Module([FunctionDef("when_run", ["a"], [], 2), Import(6)]), 1, None, true)
         == Err(NoImportsAllowed(6, ImportMessage))
  {
    var m := Module([FunctionDef("when_run", ["a"], [], 2), Import(6)]);
    Level5Checked(m, 1, None);
  }

  /** `import os` inside `when_run`, after which a nested block imports again:
      the first one is reported. */
  lemma InnerImport()
    ensures Checked(Module([FunctionDef("when_run", ["a"], [Import(3), Other([Import(5)])], 2)]), 1, None, true)
         == Err(NoImportsAllowed(3, ImportMessage))
  {
    var m := Module([FunctionDef("when_run", ["a"], [Import(3), Other([Import(5)])], 2)]);
    Level5Checked(m, 1, None);
  }

  /** `def when_run(a, b)` containing `import os`, given one input: the arity
      error at the `def` comes first, and the body is not visited. */
  lemma WrongArityBeforeInnerImport()
    ensures Checked(Module([FunctionDef("when_run", ["a", "b"], [Import(3)], 2)]), 1, None, true)
         == Err(WrongNumberOfArguments(2, ArityMessage(Current, Level5Name, 1, 2)))
  {
    var m := Module([FunctionDef("when_run", ["a", "b"], [Import(3)], 2)]);
    Level5Checked(m, 1, None);
  }

  /** An `import` above that `when_run` is met first. */
  lemma ImportBeforeWrongArity()
    ensures Checked(Module([Import(1), FunctionDef("when_run", ["a", "b"], [], 2)]), 1, None, true)
         == Err(NoImportsAllowed(1, ImportMessage))
  {
    var m := Module([Import(1), FunctionDef("when_run", ["a", "b"], [], 2)]);
    Level5Checked(m, 1, None);
  }

  /** A module with only `def f(a)` has no `when_run`. */
  lemma WhenRunNotFound()
    ensures Checked(Module([FunctionDef("f", ["a"], [], 2)]), 1, None, true)
         == Err(FunctionDefNotFound(0, "Function '" + Level5Name + "' not found"))
  {
    var m := Module([FunctionDef("f", ["a"], [], 2)]);
    assert TopDefs(m.body) == [Def("f", ["a"], 2)];
    assert Level5EventsIn(m.body, true, Level5Name, 1) == [] by {
      assert Level5Events(m.body[0], true, Level5Name, 1) == [];
    }
    Level5Checked(m, 1, None);
    CheckedWithName(m, 1, Level5Name);
    assert !HasNamed(TopDefs(m.body), Level5Name);
  }
}
