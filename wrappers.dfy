/** Failure-carrying values shared by every module of the model. */
module Wrappers {

  /** A value that may be absent: JavaScript's `undefined`/`null`, Python's `None`. */
  datatype Option<+T> = None | Some(value: T) {
    function GetOr(default: T): T {
      match this
      case Some(v) => v
      case None => default
    }
  }

  /** The outcome of an operation that can fail with a message (a thrown error). */
  datatype Result<+T> = Ok(value: T) | Err(error: string) {
    predicate IsFailure() { Err? }
    function PropagateFailure<U>(): Result<U>
      requires Err?
    {
      Err(error)
    }
    function Extract(): T
      requires Ok?
    {
      value
    }
  }

  /**
   * Applying a failing step to every element in order, stopping at the first
   * failure: a loop that appends each result, or a list comprehension that
   * raises.
   */
  function MapAll<A, B>(xs: seq<A>, f: A -> Result<B>): (r: Result<seq<B>>)
    ensures r.Ok? ==> |r.value| == |xs|
  {
    if xs == [] then Ok([])
    else
      var init :- MapAll(xs[..|xs| - 1], f);
      var last :- f(xs[|xs| - 1]);
      Ok(init + [last])
  }

  /** `MapAll` succeeds exactly when every step does, and then holds the steps' results in order. */
  lemma {:induction false} MapAllPointwise<A, B>(xs: seq<A>, f: A -> Result<B>)
    ensures MapAll(xs, f).Ok? <==> forall k :: 0 <= k < |xs| ==> f(xs[k]).Ok?
    ensures MapAll(xs, f).Ok? ==> forall k :: 0 <= k < |xs| ==> MapAll(xs, f).value[k] == f(xs[k]).value
  {
    if xs != [] {
      var init := xs[..|xs| - 1];
      MapAllPointwise(init, f);
      assert forall k :: 0 <= k < |init| ==> init[k] == xs[k];
      if MapAll(init, f).Err? {
        var k :| 0 <= k < |init| && f(init[k]).Err?;
        assert xs[k] == init[k];
      }
    }
  }

  /** Extending a successful prefix by one successful step. */
  lemma MapAllSnoc<A, B>(xs: seq<A>, i: nat, f: A -> Result<B>)
    requires i < |xs| && MapAll(xs[..i], f).Ok? && f(xs[i]).Ok?
    ensures MapAll(xs[..i + 1], f) == Ok(MapAll(xs[..i], f).value + [f(xs[i]).value])
  {
    assert xs[..i + 1][..i] == xs[..i];
  }

  /** Once a prefix fails, the whole list fails. */
  lemma {:induction false} MapAllFailsFrom<A, B>(xs: seq<A>, n: nat, f: A -> Result<B>)
    requires n <= |xs| && MapAll(xs[..n], f).Err?
    ensures MapAll(xs, f).Err?
    decreases |xs| - n
  {
    if n < |xs| {
      assert xs[..n + 1][..n] == xs[..n];
      MapAllFailsFrom(xs, n + 1, f);
    } else {
      assert xs[..n] == xs;
    }
  }
}
