/** Failure-compatible wrappers: `Option` for JSON fields read with `dict.get`,
    `Result` for reads that raise, and `MapAll` for a list comprehension whose
    element expression may raise. */
module Wrappers {

  datatype Option<+T> = None | Some(value: T)

  datatype Result<+R, +E> = Success(value: R) | Failure(error: E) {

    predicate IsFailure() {
      Failure?
    }

    function PropagateFailure<U>(): Result<U, E>
      requires Failure?
    {
      Failure(error)
    }

    function Extract(): R
      requires Success?
    {
      value
    }
  }

  /** `xs[i]` is the first element on which `f` fails, and it fails with `e`. */
  ghost predicate FirstFailureAt<A, B, E>(f: A -> Result<B, E>, xs: seq<A>, i: nat, e: E) {
    && i < |xs|
    && (forall j | 0 <= j < i :: f(xs[j]).Success?)
    && f(xs[i]) == Failure(e)
  }

  /** `[f(x) for x in xs]` where `f` may raise: the elements are built left to
      right and the first exception escapes, so there is either one result per
      element, in order, or the error of the first element that fails. */
  function MapAll<A, B, E>(f: A -> Result<B, E>, xs: seq<A>): (r: Result<seq<B>, E>)
    ensures r.Success? <==> forall i | 0 <= i < |xs| :: f(xs[i]).Success?
    ensures r.Success? ==>
      |r.value| == |xs| && forall i | 0 <= i < |xs| :: f(xs[i]) == Success(r.value[i])
    ensures r.Failure? ==> exists x | x in xs :: f(x) == Failure(r.error)
  {
    if xs == [] then Success([])
    else
      match f(xs[0])
      case Failure(e) => Failure(e)
      case Success(y) =>
        var rest :- MapAll(f, xs[1..]);
        Success([y] + rest)
  }

  /** A failed map reports the error of the first element that fails. */
  lemma {:induction false} MapAllFirstFailure<A, B, E>(f: A -> Result<B, E>, xs: seq<A>) returns (i: nat)
    requires MapAll(f, xs).Failure?
    ensures FirstFailureAt(f, xs, i, MapAll(f, xs).error)
  {
    if f(xs[0]).Failure? {
      i := 0;
    } else {
      var k := MapAllFirstFailure(f, xs[1..]);
      i := k + 1;
    }
  }

  /** Mapping a concatenation maps each part: the results keep the order of
      the inputs. */
  lemma MapAllAppend<A, B, E>(f: A -> Result<B, E>, xs: seq<A>, ys: seq<A>)
    requires MapAll(f, xs).Success? && MapAll(f, ys).Success?
    ensures MapAll(f, xs + ys) == Success(MapAll(f, xs).value + MapAll(f, ys).value)
  {
    var zs := xs + ys;
    var a, b := MapAll(f, xs).value, MapAll(f, ys).value;
    forall i | 0 <= i < |zs| ensures f(zs[i]) == Success((a + b)[i]) {
      if i < |xs| { assert zs[i] == xs[i]; } else { assert zs[i] == ys[i - |xs|]; }
    }
    assert forall i | 0 <= i < |zs| :: f(zs[i]).Success?;
    var c := MapAll(f, zs).value;
    assert forall i | 0 <= i < |zs| :: c[i] == (a + b)[i];
    assert c == a + b;
  }
}
