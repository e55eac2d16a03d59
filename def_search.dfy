/** Selecting the target function among the `def`s a validator visits, as both
    validators do it: the first visited `def` fixes the name when none was
    requested, every visited `def` of that name records its parameter names, and
    a wrong parameter count raises at once.  State and errors are those of the
    visitor objects in checkmate/spec_check.py and run_python_tests/syntax_check.py. */
module DefSearch {
  import opened Wrappers
  import opened Strings
  import opened PyAst

  /** `NoImportsAllowedError`, `FunctionDefNotFoundError` and
      `WrongNumberOfArgumentsError`, each with its line and message. */
  datatype SpecError =
    | NoImportsAllowed(line: nat, msg: string)
    | FunctionDefNotFound(line: nat, msg: string)
    | WrongNumberOfArguments(line: nat, msg: string)

  /** The two wordings of the arity message. */
  datatype Wording = Current | Legacy

  const ImportMessage: string := "'import' statement not allowed"

  function ArgumentWord(n: nat): string {
    if n == 1 then "argument" else "arguments"
  }

  function ArityMessage(w: Wording, name: string, expected: nat, actual: nat): string {
    match w
    case Current =>
      "Function '" + name + "' accepts " + NatToString(expected) + " " + ArgumentWord(expected)
      + ", but was given " + NatToString(actual)
    case Legacy =>
      "Function '" + name + "' must accept " + NatToString(expected) + " " + ArgumentWord(expected)
      + ", but accepts " + NatToString(actual)
  }

  function NotFoundMessage(name: Option<string>): string {
    match name
    case None => "No function found in source"
    case Some(n) => "Function '" + n + "' not found"
  }

  /** The visitor's `function_name`, `arg_names` and `function_def_found`. */
  datatype VisitState = VisitState(name: Option<string>, argNames: Option<seq<string>>, found: bool)

  /** A visit either goes on with a new state or has raised. */
  datatype Walk = Continue(st: VisitState) | Stopped(err: SpecError)

  /** Once a `def` has been matched, its name and parameters are recorded. */
  predicate Consistent(st: VisitState) {
    st.found ==> st.name.Some? && st.argNames.Some?
  }

  /** Whether a visited `def` is the target, once an absent name has been fixed. */
  predicate Selects(st: VisitState, d: Def) {
    st.name.None? || st.name == Some(d.name)
  }

  /** One visited `def`: fix the name if there is none, skip a `def` of another
      name, otherwise record it and check its parameter count. */
  function MatchDef(w: Wording, arity: nat, d: Def, st: VisitState): (r: Walk)
    ensures Consistent(st) && r.Continue? ==> Consistent(r.st)
    ensures r.Continue? ==> r.st.name == Some(if st.name.None? then d.name else st.name.value)
    ensures r.Stopped? <==> Selects(st, d) && |d.params| != arity
    ensures r.Continue? && Selects(st, d) ==> r.st == VisitState(Some(d.name), Some(d.params), true)
    ensures r.Continue? && !Selects(st, d) ==> r.st == st
  {
    var name := if st.name.None? then d.name else st.name.value;
    if d.name != name then Continue(st.(name := Some(name)))
    else if |d.params| != arity then
      Stopped(WrongNumberOfArguments(d.line, ArityMessage(w, name, arity, |d.params|)))
    else Continue(VisitState(Some(name), Some(d.params), true))
  }

  /** What stops a level-5 visit: a reached `import`, or a reached target `def`
      with a wrong parameter count (its line and its count). */
  datatype Level5Event = ImportAt(line: nat) | BadArity(line: nat, count: nat)

  /** The error a level-5 event raises, for target `t`. */
  function EventError(w: Wording, t: string, arity: nat, e: Level5Event): SpecError {
    match e
    case ImportAt(line) => NoImportsAllowed(line, ImportMessage)
    case BadArity(line, n) => WrongNumberOfArguments(line, ArityMessage(w, t, arity, n))
  }

  /** Import lines as events. */
  function ImportEvents(lines: seq<nat>): seq<Level5Event> {
    seq(|lines|, i requires 0 <= i < |lines| => ImportAt(lines[i]))
  }

  lemma ImportEventsAppend(a: seq<nat>, b: seq<nat>)
    ensures ImportEvents(a + b) == ImportEvents(a) + ImportEvents(b)
  {
    assert forall i :: 0 <= i < |a + b| ==> ImportEvents(a + b)[i] == (ImportEvents(a) + ImportEvents(b))[i];
  }

  /** `MatchDef` over a sequence of visited `def`s, stopping at the first error. */
  function ScanDefs(w: Wording, arity: nat, defs: seq<Def>, st: VisitState): Walk {
    if |defs| == 0 then Continue(st)
    else
      match MatchDef(w, arity, defs[0], st)
      case Stopped(e) => Stopped(e)
      case Continue(st') => ScanDefs(w, arity, defs[1..], st')
  }

  lemma {:induction false} ScanDefsAppend(w: Wording, arity: nat, xs: seq<Def>, ys: seq<Def>, st: VisitState)
    ensures ScanDefs(w, arity, xs + ys, st) ==
            match ScanDefs(w, arity, xs, st)
            case Stopped(e) => Stopped(e)
            case Continue(st') => ScanDefs(w, arity, ys, st')
  {
    if |xs| > 0 {
      assert (xs + ys)[0] == xs[0] && (xs + ys)[1..] == xs[1..] + ys;
      match MatchDef(w, arity, xs[0], st)
      case Stopped(_) =>
      case Continue(st') => ScanDefsAppend(w, arity, xs[1..], ys, st');
    } else {
      assert xs + ys == ys;
    }
  }

  predicate HasNamed(defs: seq<Def>, t: string) {
    exists k :: 0 <= k < |defs| && defs[k].name == t
  }

  predicate ArityAgrees(defs: seq<Def>, t: string, arity: nat) {
    forall k :: 0 <= k < |defs| && defs[k].name == t ==> |defs[k].params| == arity
  }

  /** `defs[k]` is the first `def` named `t` with a wrong parameter count. */
  predicate FirstWrongArity(defs: seq<Def>, t: string, arity: nat, k: int) {
    0 <= k < |defs| && defs[k].name == t && |defs[k].params| != arity && ArityAgrees(defs[..k], t, arity)
  }

  /** `defs[k]` is the last `def` named `t`. */
  predicate LastNamed(defs: seq<Def>, t: string, k: int) {
    0 <= k < |defs| && defs[k].name == t && forall j :: k < j < |defs| ==> defs[j].name != t
  }

  /** With the target name fixed and every `def` of that name taking the right
      number of parameters, the scan succeeds: the match flag says whether such a
      `def` exists, and the recorded parameters are those of the last one. */
  lemma {:induction false} ScanFixedTargetSucceeds(w: Wording, arity: nat, defs: seq<Def>, st: VisitState)
    requires st.name.Some? && ArityAgrees(defs, st.name.value, arity)
    ensures var r := ScanDefs(w, arity, defs, st);
      && r.Continue?
      && r.st.name == st.name
      && r.st.found == (st.found || HasNamed(defs, st.name.value))
      && (!HasNamed(defs, st.name.value) ==> r.st.argNames == st.argNames)
      && (forall k :: LastNamed(defs, st.name.value, k) ==> r.st.argNames == Some(defs[k].params))
  {
    var t := st.name.value;
    if |defs| > 0 {
      var rest := defs[1..];
      assert ArityAgrees(rest, t, arity) by {
        forall k | 0 <= k < |rest| && rest[k].name == t ensures |rest[k].params| == arity {
          assert rest[k] == defs[k + 1];
        }
      }
      var st' := MatchDef(w, arity, defs[0], st).st;
      ScanFixedTargetSucceeds(w, arity, rest, st');
      var r := ScanDefs(w, arity, defs, st);
      assert r == ScanDefs(w, arity, rest, st');
      assert HasNamed(defs, t) <==> defs[0].name == t || HasNamed(rest, t) by {
        if HasNamed(rest, t) {
          var k :| 0 <= k < |rest| && rest[k].name == t;
          assert defs[k + 1].name == t;
        }
        if HasNamed(defs, t) && defs[0].name != t {
          var k :| 0 <= k < |defs| && defs[k].name == t;
          assert rest[k - 1].name == t;
        }
      }
      forall k | LastNamed(defs, t, k) ensures r.st.argNames == Some(defs[k].params) {
        if k > 0 {
          assert LastNamed(rest, t, k - 1);
        } else {
          assert forall j :: 0 <= j < |rest| ==> rest[j] == defs[j + 1];
          assert !HasNamed(rest, t);
        }
      }
    }
  }

  /** With the target name fixed, the first `def` of that name with a wrong
      parameter count raises `WrongNumberOfArgumentsError` at its line. */
  lemma {:induction false} ScanFixedTargetFails(w: Wording, arity: nat, defs: seq<Def>, st: VisitState, k: int)
    requires st.name.Some? && FirstWrongArity(defs, st.name.value, arity, k)
    ensures ScanDefs(w, arity, defs, st) ==
            Stopped(WrongNumberOfArguments(defs[k].line, ArityMessage(w, st.name.value, arity, |defs[k].params|)))
  {
    var t := st.name.value;
    if k > 0 {
      assert defs[..k][0] == defs[0];
      var rest := defs[1..];
      assert FirstWrongArity(rest, t, arity, k - 1) by {
        assert rest[k - 1] == defs[k];
        var pre, pre' := rest[..k - 1], defs[..k];
        forall j | 0 <= j < |pre| && pre[j].name == t ensures |pre[j].params| == arity {
          assert pre[j] == pre'[j + 1];
        }
      }
      var st' := MatchDef(w, arity, defs[0], st).st;
      ScanFixedTargetFails(w, arity, rest, st', k - 1);
    }
  }

  /** With no name requested, the first visited `def` fixes it. */
  lemma ScanUnnamed(w: Wording, arity: nat, defs: seq<Def>, st: VisitState)
    requires st.name.None? && |defs| > 0
    ensures ScanDefs(w, arity, defs, st) == ScanDefs(w, arity, defs, st.(name := Some(defs[0].name)))
  {
  }
}
