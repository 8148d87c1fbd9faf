/** Optional values (JavaScript's `undefined` and Python's `None` are both `None` here) and the smaller of two counts. */
module Wrappers {

  datatype Option<+T> = None | Some(value: T)

  /** The smaller of two counts: how many elements a `slice(0, n)` or a `head(n)` keeps. */
  function Min(a: nat, b: nat): (m: nat)
    ensures m <= a && m <= b && (m == a || m == b)
  {
    if a <= b then a else b
  }
}
