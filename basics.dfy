/** Option and Result, used where the linter returns None or raises, and two
    generic sequence builders that keep the predicate or function they are given
    out of the solver's sight. */
module Basics {

  datatype Option<+T> = None | Some(value: T)

  datatype Result<+T> = Ok(value: T) | Err(error: string)

  predicate Increasing(xs: seq<nat>) {
    forall a, b :: 0 <= a < b < |xs| ==> xs[a] < xs[b]
  }

  /** The indices in `[k, n)` at which `p` holds, in increasing order. */
  function IndicesWhere(p: nat -> bool, k: nat, n: nat): (r: seq<nat>)
    requires k <= n
    ensures forall m :: 0 <= m < |r| ==> k <= r[m] < n && p(r[m])
    ensures forall j :: k <= j < n && p(j) ==> j in r
    ensures Increasing(r)
    decreases n - k
  {
    if k == n then []
    else
      var rest := IndicesWhere(p, k + 1, n);
      if p(k) then [k] + rest else rest
  }

  /** `[f(k), f(k + 1), ..., f(n - 1)]` */
  function MapRange<T>(f: nat --> T, k: nat, n: nat): (r: seq<T>)
    requires k <= n
    requires forall i :: k <= i < n ==> f.requires(i)
    ensures |r| == n - k
    ensures forall q :: 0 <= q < |r| ==> r[q] == f(k + q)
    decreases n - k
  {
    if k == n then [] else [f(k)] + MapRange(f, k + 1, n)
  }

  /** The union of `f(0)`, ..., `f(n - 1)`. */
  function UnionBelow<T(!new)>(f: nat -> set<T>, n: nat): (r: set<T>)
    ensures forall x :: x in r <==> exists k :: 0 <= k < n && x in f(k)
  {
    if n == 0 then {} else UnionBelow(f, n - 1) + f(n - 1)
  }
}
