/** Optional values and results with an error, standing for Python's
    `None` returns and raised exceptions. */
module Wrappers {

  datatype Option<+T> = None | Some(value: T)

  datatype Result<+T, +E> = Ok(value: T) | Err(error: E)

  /** `[f(x) for x in xs[:n]]` where `f` may raise: the results in order, or
      the exception of the first element on which `f` raises. */
  function TryMap<A, B, E>(f: A -> Result<B, E>, xs: seq<A>, n: nat): Result<seq<B>, E>
    requires n <= |xs|
  {
    if n == 0 then Ok([])
    else
      match TryMap(f, xs, n - 1)
      case Err(e) => Err(e)
      case Ok(ys) =>
        match f(xs[n - 1])
        case Err(e) => Err(e)
        case Ok(y) => Ok(ys + [y])
  }

  /** The comprehension succeeds exactly when `f` succeeds on every element,
      and then holds one result per element, in order; otherwise it fails
      with the error of the first failing element. */
  lemma {:induction false} TryMapInOrder<A, B, E>(f: A -> Result<B, E>, xs: seq<A>, n: nat)
    requires n <= |xs|
    ensures TryMap(f, xs, n).Ok? <==> forall j :: 0 <= j < n ==> f(xs[j]).Ok?
    ensures TryMap(f, xs, n).Ok? ==>
      |TryMap(f, xs, n).value| == n &&
      forall j :: 0 <= j < n ==> f(xs[j]) == Ok(TryMap(f, xs, n).value[j])
    ensures TryMap(f, xs, n).Err? ==>
      exists k :: 0 <= k < n && f(xs[k]) == Err(TryMap(f, xs, n).error) &&
        forall j :: 0 <= j < k ==> f(xs[j]).Ok?
  {
    if n > 0 {
      TryMapInOrder(f, xs, n - 1);
    }
  }
}
