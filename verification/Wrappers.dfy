/** Optional values: Python's None, and the NaN of a pandas column. */
module Wrappers {
  datatype Option<+T> = None | Some(value: T) {
    function GetOr(default: T): T {
      match this
      case Some(v) => v
      case None => default
    }
  }

  /** Each value moved `n` positions later. */
  function Shift<T>(xs: seq<Option<T>>, n: nat): (r: seq<Option<T>>)
    ensures |r| == |xs|
    ensures forall i :: 0 <= i < |xs| ==> r[i] == if i < n then None else xs[i - n]
  {
    seq(|xs|, i requires 0 <= i < |xs| => if i < n then None else xs[i - n])
  }
}
