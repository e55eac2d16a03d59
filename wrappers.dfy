/** Option and Result: the failure-carrying return values used across the model
    wherever the source raises an exception or looks a value up that may be absent. */
module Wrappers {

  datatype Option<+T> = None | Some(value: T)

  datatype Result<+R, +E> = Ok(value: R) | Err(error: E) {
    predicate IsFailure() {
      Err?
    }

    function PropagateFailure<U>(): Result<U, E>
      requires Err?
    {
      Err(error)
    }

    function Extract(): R
      requires Ok?
    {
      value
    }
  }

  /** Running a list of steps in order, each of which may raise: the values of
      all of them, or the exception of the first one that raises. */
  function Collect<R, E>(rs: seq<Result<R, E>>): Result<seq<R>, E> {
    if |rs| == 0 then Ok([])
    else
      var x :- rs[0];
      var xs :- Collect(rs[1..]);
      Ok([x] + xs)
  }

  /** `xs` in front of the values of `r`, or the exception of `r`. */
  function Prefixed<R, E>(xs: seq<R>, r: Result<seq<R>, E>): Result<seq<R>, E> {
    if r.Ok? then Ok(xs + r.value) else r
  }

  lemma PrefixedNothing<R, E>(r: Result<seq<R>, E>)
    ensures Prefixed([], r) == r
  {
    if r.Ok? {
      assert [] + r.value == r.value;
    }
  }

  /** The values come back one per step and in order exactly when no step
      raises; otherwise the exception is that of a step every earlier one of
      which succeeded. */
  lemma {:induction false} CollectMeaning<R, E>(rs: seq<Result<R, E>>)
    ensures Collect(rs).Ok? <==> forall k :: 0 <= k < |rs| ==> rs[k].Ok?
    ensures Collect(rs).Ok? ==> |Collect(rs).value| == |rs| &&
                                forall k :: 0 <= k < |rs| ==> Collect(rs).value[k] == rs[k].value
    ensures Collect(rs).Err? ==> exists k :: && 0 <= k < |rs|
                                             && rs[k] == Err(Collect(rs).error)
                                             && forall j :: 0 <= j < k ==> rs[j].Ok?
  {
    if |rs| > 0 {
      var tail := rs[1..];
      CollectMeaning(tail);
      assert forall k :: 1 <= k < |rs| ==> rs[k] == tail[k - 1];
      if rs[0].Ok? && Collect(tail).Err? {
        var k :| && 0 <= k < |tail|
                 && tail[k] == Err(Collect(tail).error)
                 && forall j :: 0 <= j < k ==> tail[j].Ok?;
        assert rs[k + 1] == tail[k];
        assert forall j :: 1 <= j < k + 1 ==> rs[j] == tail[j - 1];
      }
      if Collect(rs).Ok? {
        assert forall k :: 1 <= k < |rs| ==> Collect(rs).value[k] == Collect(tail).value[k - 1];
      }
    }
  }

  /** One step of the loop that computes `Collect`. */
  lemma CollectStep<R, E>(rs: seq<Result<R, E>>, i: nat, xs: seq<R>)
    requires i < |rs| && rs[i].Ok?
    ensures Prefixed(xs, Collect(rs[i..])) == Prefixed(xs + [rs[i].value], Collect(rs[i + 1..]))
  {
    assert rs[i..][0] == rs[i] && rs[i..][1..] == rs[i + 1..];
    var tail := Collect(rs[i + 1..]);
    if tail.Ok? {
      assert xs + ([rs[i].value] + tail.value) == (xs + [rs[i].value]) + tail.value;
    }
  }
}
