/** Option and Result, used for Python's `None` returns and raised exceptions. */
module Wrappers {

  datatype Option<+T> = None | Some(value: T) {
    function GetOr(default: T): T {
      match this
      case Some(v) => v
      case None => default
    }
  }

  datatype Result<+R, +E> = Success(value: R) | Failure(error: E)

  /** Applies `f` to every element in order; the first failure aborts and is the result. */
  function MapAll<A, B, E>(f: A -> Result<B, E>, xs: seq<A>): (r: Result<seq<B>, E>)
    ensures r.Success? <==> forall i | 0 <= i < |xs| :: f(xs[i]).Success?
    ensures r.Success? ==> |r.value| == |xs| && forall i | 0 <= i < |xs| :: f(xs[i]) == Success(r.value[i])
    ensures r.Failure? ==>
      exists i | 0 <= i < |xs| :: f(xs[i]) == Failure(r.error) && forall j | 0 <= j < i :: f(xs[j]).Success?
  {
    if xs == [] then Success([])
    else
      assert forall i | 1 <= i < |xs| :: xs[i] == xs[1..][i - 1];
      match f(xs[0])
      case Failure(e) => Failure(e)
      case Success(y) =>
        match MapAll(f, xs[1..])
        case Failure(e) =>
          ghost var i :| 0 <= i < |xs| - 1 && f(xs[1..][i]) == Failure(e) && forall j | 0 <= j < i :: f(xs[1..][j]).Success?;
          assert f(xs[i + 1]) == Failure(e);
          Failure(e)
        case Success(ys) => Success([y] + ys)
  }
}
