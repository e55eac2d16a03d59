/** The Python values that flow through the checker: JSON test data, the
    arguments handed to the submitted function, what it returns, and the
    `ListPtr` cursors that linked-list mode wraps list arguments in.  Equality is
    Python's `==` on these values, which can raise when a cursor is involved. */
module Values {
  import opened Wrappers

  datatype Value =
    | VNone
    | VBool(b: bool)
    | VInt(i: int)
    | VFloat(r: real)
    | VStr(s: string)
    | VList(items: seq<Value>)
      /** A `ListPtr`: its owned list and its position.  The position never takes
          part in equality. */
    | VCursor(items: seq<Value>, idx: int)

  /** How `==` treats a `ListPtr`. */
  datatype CursorEquality =
      /** `ListPtr.__eq__` as written (checkmate/linked_list.py): it reads
          `other._lst`, so comparing a cursor with anything that is not a cursor, in
          either order, raises `AttributeError`. */
    | Contents
      /** The evidently intended behaviour: contents on two cursors, unequal
          (without an exception) otherwise. */
    | ContentsCorrected
      /** The older `ListPtr` (index.py) has no `__eq__`: the default identity
          comparison, and every cursor value stands for a distinct object. */
    | Identity

  /** An exception that no `try` in the checker catches. */
  datatype Crash = AttributeError(msg: string)

  const NoListAttribute := AttributeError("object has no attribute '_lst'")

  /** `bool` is a subclass of `int` in Python, so booleans are numbers. */
  predicate IsNumber(v: Value) {
    v.VBool? || v.VInt? || v.VFloat?
  }

  function NumberValue(v: Value): real
    requires IsNumber(v)
  {
    match v
    case VBool(b) => if b then 1.0 else 0.0
    case VInt(i) => i as real
    case VFloat(r) => r
  }

  /** Python's `a == b`. */
  function Equal(mode: CursorEquality, a: Value, b: Value): Result<bool, Crash>
    decreases a, 2
  {
    if a.VCursor? || b.VCursor? then
      match mode
      case Identity => Ok(false)
      case Contents =>
        if a.VCursor? && b.VCursor? then ListEqual(mode, a.items, b.items) else Err(NoListAttribute)
      case ContentsCorrected =>
        if a.VCursor? && b.VCursor? then ListEqual(mode, a.items, b.items) else Ok(false)
    else if IsNumber(a) && IsNumber(b) then Ok(NumberValue(a) == NumberValue(b))
    else if a.VNone? && b.VNone? then Ok(true)
    else if a.VStr? && b.VStr? then Ok(a.s == b.s)
    else if a.VList? && b.VList? then ListEqual(mode, a.items, b.items)
    else Ok(false)
  }

  /** `list.__eq__`: lists of different lengths are unequal without looking at
      the elements; otherwise the elements are compared left to right and the
      first unequal pair decides. */
  function ListEqual(mode: CursorEquality, xs: seq<Value>, ys: seq<Value>): Result<bool, Crash>
    decreases xs, 1
  {
    if |xs| != |ys| then Ok(false) else ElementsEqual(mode, xs, ys)
  }

  function ElementsEqual(mode: CursorEquality, xs: seq<Value>, ys: seq<Value>): Result<bool, Crash>
    requires |xs| == |ys|
    decreases xs, 0
  {
    if |xs| == 0 then Ok(true)
    else
      var e :- Equal(mode, xs[0], ys[0]);
      if !e then Ok(false) else ElementsEqual(mode, xs[1..], ys[1..])
  }

  /** Python's `a != b`: for every value here the negation of `==`, raising when
      `==` raises. */
  function NotEqual(mode: CursorEquality, a: Value, b: Value): Result<bool, Crash> {
    var e :- Equal(mode, a, b);
    Ok(!e)
  }

  /** Every value equals itself when cursors compare by contents. */
  lemma {:induction false} EqualReflexive(mode: CursorEquality, a: Value)
    requires mode != Identity
    ensures Equal(mode, a, a) == Ok(true)
    decreases a, 2
  {
    if a.VCursor? || a.VList? {
      ListEqualReflexive(mode, a.items);
    }
  }

  lemma {:induction false} ListEqualReflexive(mode: CursorEquality, xs: seq<Value>)
    requires mode != Identity
    ensures ListEqual(mode, xs, xs) == Ok(true)
    decreases xs, 1
  {
    ElementsEqualReflexive(mode, xs);
  }

  lemma {:induction false} ElementsEqualReflexive(mode: CursorEquality, xs: seq<Value>)
    requires mode != Identity
    ensures ElementsEqual(mode, xs, xs) == Ok(true)
    decreases xs, 0
  {
    if |xs| > 0 {
      EqualReflexive(mode, xs[0]);
      ElementsEqualReflexive(mode, xs[1..]);
    }
  }

  /** Two cursors over equal lists are equal wherever they point. */
  lemma CursorPositionIgnored(mode: CursorEquality, xs: seq<Value>, i: int, j: int)
    requires mode != Identity
    ensures Equal(mode, VCursor(xs, i), VCursor(xs, j)) == Ok(true)
  {
    ListEqualReflexive(mode, xs);
  }

  /** As written, comparing a cursor with a value that is not a cursor raises,
      whichever side the cursor is on. */
  lemma CursorAgainstNonCursorRaises(a: Value, b: Value)
    requires a.VCursor? != b.VCursor?
    ensures Equal(Contents, a, b) == Err(NoListAttribute)
    ensures NotEqual(Contents, a, b) == Err(NoListAttribute)
  {
  }

  /** The corrected comparison never raises. */
  lemma {:induction false} CorrectedEqualTotal(a: Value, b: Value)
    ensures Equal(ContentsCorrected, a, b).Ok?
    decreases a, 2
  {
    if (a.VCursor? && b.VCursor?) || (a.VList? && b.VList?) {
      CorrectedListEqualTotal(a.items, b.items);
    }
  }

  lemma {:induction false} CorrectedListEqualTotal(xs: seq<Value>, ys: seq<Value>)
    ensures ListEqual(ContentsCorrected, xs, ys).Ok?
    decreases xs, 1
  {
    if |xs| == |ys| {
      CorrectedElementsEqualTotal(xs, ys);
    }
  }

  lemma {:induction false} CorrectedElementsEqualTotal(xs: seq<Value>, ys: seq<Value>)
    requires |xs| == |ys|
    ensures ElementsEqual(ContentsCorrected, xs, ys).Ok?
    decreases xs, 0
  {
    if |xs| > 0 {
      CorrectedEqualTotal(xs[0], ys[0]);
      CorrectedElementsEqualTotal(xs[1..], ys[1..]);
    }
  }

  /** The correction changes only the comparisons that raise as written. */
  lemma {:induction false} CorrectedAgrees(a: Value, b: Value)
    requires Equal(Contents, a, b).Ok?
    ensures Equal(ContentsCorrected, a, b) == Equal(Contents, a, b)
    decreases a, 2
  {
    if (a.VCursor? && b.VCursor?) || (a.VList? && b.VList?) {
      ListCorrectedAgrees(a.items, b.items);
    }
  }

  lemma {:induction false} ListCorrectedAgrees(xs: seq<Value>, ys: seq<Value>)
    requires ListEqual(Contents, xs, ys).Ok?
    ensures ListEqual(ContentsCorrected, xs, ys) == ListEqual(Contents, xs, ys)
    decreases xs, 1
  {
    if |xs| == |ys| {
      ElementsCorrectedAgrees(xs, ys);
    }
  }

  lemma {:induction false} ElementsCorrectedAgrees(xs: seq<Value>, ys: seq<Value>)
    requires |xs| == |ys|
    requires ElementsEqual(Contents, xs, ys).Ok?
    ensures ElementsEqual(ContentsCorrected, xs, ys) == ElementsEqual(Contents, xs, ys)
    decreases xs, 0
  {
    if |xs| > 0 {
      CorrectedAgrees(xs[0], ys[0]);
      if Equal(Contents, xs[0], ys[0]) == Ok(true) {
        ElementsCorrectedAgrees(xs[1..], ys[1..]);
      }
    }
  }
}
