/** Element-wise mapping of a sequence, as `Array.prototype.map` does it. */
module Sequences {
  /** Applies `f` to every element, keeping the order. */
  function Map<T, U>(s: seq<T>, f: T -> U): (r: seq<U>)
    ensures |r| == |s|
    ensures forall k :: 0 <= k < |s| ==> r[k] == f(s[k])
  {
    if s == [] then [] else [f(s[0])] + Map(s[1..], f)
  }
}
