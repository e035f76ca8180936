/** Optional values and the outcome of an operation that may throw. */
module Wrappers {

  datatype Option<T> = None | Some(value: T)
  {
    function GetOr(default: T): T
    {
      if Some? then value else default
    }
  }

  /** The outcome of JavaScript code that either returns a value or throws
      (a TypeError on a property read of null/undefined, a RangeError from
      `Array(n)` with an invalid length).  Supports Dafny's `:-` operator. */
  datatype Try<T> = Ok(value: T) | Throws
  {
    predicate IsFailure()
    {
      Throws?
    }

    function PropagateFailure<U>(): Try<U>
      requires IsFailure()
    {
      Throws
    }

    function Extract(): T
      requires !IsFailure()
    {
      value
    }
  }

  // ---------------------------------------------------------------------------
  // Loops whose body may throw

  /** A loop over a sequence whose body may throw: each element updates the
      state in turn, and the first exception ends the loop. */
  function FoldTry<S, X>(acc: S, xs: seq<X>, step: (S, X) -> Try<S>): Try<S>
    decreases |xs|
  {
    if xs == [] then Ok(acc)
    else
      match step(acc, xs[0])
      case Throws => Throws
      case Ok(a) => FoldTry(a, xs[1..], step)
  }

  /** One turn of the loop. */
  lemma FoldTryStep<S, X>(acc: S, xs: seq<X>, i: nat, step: (S, X) -> Try<S>)
    requires i < |xs|
    ensures FoldTry(acc, xs[i..], step)
      == match step(acc, xs[i]) case Throws => Throws case Ok(a) => FoldTry(a, xs[i + 1..], step)
  {
    assert xs[i..][1..] == xs[i + 1..];
  }

  /** The loop over `a + b` is the loop over `a`, then over `b`. */
  lemma {:induction false} FoldTryAppend<S, X>(acc: S, a: seq<X>, b: seq<X>, step: (S, X) -> Try<S>)
    ensures FoldTry(acc, a + b, step)
      == match FoldTry(acc, a, step) case Throws => Throws case Ok(s) => FoldTry(s, b, step)
    decreases |a|
  {
    if a == [] {
      assert a + b == b;
    } else {
      assert (a + b)[0] == a[0];
      assert (a + b)[1..] == a[1..] + b;
      match step(acc, a[0])
      case Throws =>
      case Ok(s) => FoldTryAppend(s, a[1..], b, step);
    }
  }

  /** Elements the loop body ignores leave the state as it was. */
  lemma {:induction false} FoldTrySkips<S, X>(acc: S, xs: seq<X>, step: (S, X) -> Try<S>)
    requires forall i :: 0 <= i < |xs| ==> step(acc, xs[i]) == Ok(acc)
    ensures FoldTry(acc, xs, step) == Ok(acc)
    decreases |xs|
  {
    if xs != [] {
      assert step(acc, xs[0]) == Ok(acc);
      assert forall i :: 0 <= i < |xs[1..]| ==> xs[1..][i] == xs[i + 1];
      FoldTrySkips(acc, xs[1..], step);
    }
  }

  /** A loop whose body keeps an invariant of the state keeps it to the end. */
  lemma {:induction false} FoldTryKeeps<S, X>(acc: S, xs: seq<X>, step: (S, X) -> Try<S>, inv: S -> bool)
    requires inv(acc)
    requires forall s, x :: inv(s) && step(s, x).Ok? ==> inv(step(s, x).value)
    ensures FoldTry(acc, xs, step).Ok? ==> inv(FoldTry(acc, xs, step).value)
    decreases |xs|
  {
    if xs != [] {
      match step(acc, xs[0])
      case Throws =>
      case Ok(a) => FoldTryKeeps(a, xs[1..], step, inv);
    }
  }

  /** `x` is the first element of `s` that satisfies `key`. */
  ghost predicate FirstWith<T>(s: seq<T>, x: T, key: T -> bool)
  {
    exists i :: 0 <= i < |s| && s[i] == x && key(x) && forall j :: 0 <= j < i ==> !key(s[j])
  }

  /** The step of a `_.find`-style lookup: when the head does not match,
      the first match in the tail is the first match in the whole. */
  lemma FirstWithTail<T>(s: seq<T>, x: T, key: T -> bool)
    requires s != [] && !key(s[0]) && FirstWith(s[1..], x, key)
    ensures FirstWith(s, x, key)
  {
    var i :| 0 <= i < |s[1..]| && s[1..][i] == x && key(x) && forall j :: 0 <= j < i ==> !key(s[1..][j]);
    assert s[i + 1] == x;
    assert forall j :: 0 < j < i + 1 ==> s[j] == s[1..][j - 1];
  }
}
