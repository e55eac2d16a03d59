/** The `ListPtr` cursor of checkmate/linked_list.py: a position over an owned
    copy of a list, stepped forward and back under bounds checks, whose writes
    accept only integers in [-99, 99].  Where the source reads the caller's line
    number from the interpreter stack, the methods take it as a parameter. */
module LinkedList {
  import opened Wrappers
  import opened Strings
  import opened Values

  const MinValue: int := -99
  const MaxValue: int := 99

  /** `LinkedListError`, and the `IndexError` that Python's list indexing raises
      when the position lies outside the list (for instance on an empty list). */
  datatype CursorError = LinkedListError(msg: string) | IndexError(msg: string)

  function GoNextMessage(callerLine: nat): string {
    "Line " + NatToString(callerLine) + ": Cannot 'go_next' at the end of linked list"
  }

  function GoPrevMessage(callerLine: nat): string {
    "Line " + NatToString(callerLine) + ": Cannot 'go_prev' at the start of linked list"
  }

  function SetValueMessage(callerLine: nat): string {
    "Line " + NatToString(callerLine) + ": List values must be integers between -99 and 99"
  }

  /** `isinstance(v, int) and -99 <= v <= 99`; `True` and `False` are instances
      of `int` and lie in the range. */
  predicate Writable(v: Value) {
    (v.VInt? && MinValue <= v.i <= MaxValue) || v.VBool?
  }

  /** The element a Python index `i` denotes in a list of length `n`: negative
      indices count from the end. */
  function PyIndex(n: nat, i: int): (k: Option<nat>)
    ensures k.Some? ==> k.value < n
    ensures 0 <= i < n ==> k == Some(i)
    ensures i >= n || i < -(n as int) ==> k.None?
  {
    if 0 <= i < n then Some(i) else if -(n as int) <= i < 0 then Some(n + i) else None
  }

  class ListPtr {
    var lst: seq<Value>
    var idx: int

    /** The cursor invariant: the position is an element of the list, or 0 when
        the list is empty. */
    ghost predicate Valid()
      reads this
    {
      0 <= idx && (idx < |lst| || idx == 0)
    }

    /** `ListPtr(lst, start_idx=0)`: a copy of the list (a sequence is a value,
        so later writes never reach the caller's list) and the start position,
        which the source does not check. */
    constructor (items: seq<Value>, startIdx: int := 0)
      ensures lst == items && idx == startIdx
      ensures Valid() <==> 0 <= startIdx < |items| || startIdx == 0
    {
      lst := items;
      idx := startIdx;
    }

    /** The cursor as a value, as the checker compares it. */
    function View(): (v: Value)
      reads this
      ensures v.VCursor? && v.items == lst
    {
      VCursor(lst, idx)
    }

    /** `__eq__` against another cursor: the lists alone decide.  (Against a
        value that is not a cursor the source raises: `Values.Equal`.) */
    function Equals(other: ListPtr): (r: Result<bool, Crash>)
      reads this, other
      ensures r == Equal(Contents, View(), other.View())
      ensures lst == other.lst ==> r == Ok(true)
    {
      ListEqualReflexive(Contents, lst);
      ListEqual(Contents, lst, other.lst)
    }

    function HasNext(): (r: bool)
      reads this
      ensures Valid() ==> (r <==> |lst| > 0 && idx != |lst| - 1)
    {
      idx < |lst| - 1
    }

    function HasPrev(): (r: bool)
      reads this
      ensures Valid() ==> (r <==> |lst| > 0 && idx != 0)
    {
      idx > 0
    }

    /** `get_value`: the element at the position, or `IndexError`. */
    function GetValue(): (r: Result<Value, CursorError>)
      reads this
      ensures Valid() && |lst| > 0 ==> r == Ok(lst[idx])
      ensures |lst| == 0 ==> r.Err? && r.error.IndexError?
    {
      match PyIndex(|lst|, idx)
      case Some(k) => Ok(lst[k])
      case None => Err(IndexError("list index out of range"))
    }

    method GoNext(callerLine: nat) returns (err: Option<CursorError>)
      modifies this
      ensures lst == old(lst)
      ensures err.None? <==> old(HasNext())
      ensures err.None? ==> idx == old(idx) + 1
      ensures err.Some? ==> idx == old(idx) && err.value == LinkedListError(GoNextMessage(callerLine))
      ensures old(Valid()) ==> Valid()
    {
      if idx < |lst| - 1 {
        idx := idx + 1;
        err := None;
      } else {
        err := Some(LinkedListError(GoNextMessage(callerLine)));
      }
    }

    method GoPrev(callerLine: nat) returns (err: Option<CursorError>)
      modifies this
      ensures lst == old(lst)
      ensures err.None? <==> old(HasPrev())
      ensures err.None? ==> idx == old(idx) - 1
      ensures err.Some? ==> idx == old(idx) && err.value == LinkedListError(GoPrevMessage(callerLine))
      ensures old(Valid()) ==> Valid()
    {
      if idx > 0 {
        idx := idx - 1;
        err := None;
      } else {
        err := Some(LinkedListError(GoPrevMessage(callerLine)));
      }
    }

    /** `set_value`: the range check comes first, then the indexed store. */
    method SetValue(v: Value, callerLine: nat) returns (err: Option<CursorError>)
      modifies this
      ensures idx == old(idx) && |lst| == |old(lst)|
      ensures !Writable(v) ==> lst == old(lst) && err == Some(LinkedListError(SetValueMessage(callerLine)))
      ensures Writable(v) && PyIndex(|lst|, idx).Some? ==>
                err.None? && lst == old(lst)[PyIndex(|lst|, idx).value := v]
      ensures Writable(v) && PyIndex(|lst|, idx).None? ==>
                lst == old(lst) && err == Some(IndexError("list assignment index out of range"))
      ensures old(Valid()) ==> Valid()
    {
      if Writable(v) {
        match PyIndex(|lst|, idx)
        case Some(k) =>
          lst := lst[k := v];
          err := None;
        case None =>
          err := Some(IndexError("list assignment index out of range"));
      } else {
        err := Some(LinkedListError(SetValueMessage(callerLine)));
      }
    }
  }

  /** On a valid cursor a successful write changes exactly the current element. */
  lemma WriteOnValidCursor(before: seq<Value>, after: seq<Value>, idx: int, v: Value)
    requires |before| > 0 && 0 <= idx < |before|
    requires after == before[PyIndex(|before|, idx).value := v]
    ensures |after| == |before| && after[idx] == v
    ensures forall k :: 0 <= k < |before| && k != idx ==> after[k] == before[k]
  {
  }

  /** Two cursors over equal lists at different positions are equal. */
  lemma EqualityIgnoresPosition(a: ListPtr, b: ListPtr)
    requires a.lst == b.lst && a.idx != b.idx
    ensures a.Equals(b) == Ok(true)
  {
  }
}
