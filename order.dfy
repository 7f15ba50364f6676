/** Shared vocabulary of the logical-clock layer: the comparison outcomes a
    partial order reports, an optional value, and the `pairwise_max` helper. */
module Order {

  /** The three outcomes of a comparison (Rust's `std::cmp::Ordering`). */
  datatype Ordering = Less | Equal | Greater

  /** An optional value (Rust's `Option`). */
  datatype Option<T> = None | Some(value: T) {

    /** The wrapped value, or `default` when there is none (`unwrap_or`). */
    function UnwrapOr(default: T): (r: T)
      ensures Some? ==> r == value
      ensures None? ==> r == default
    {
      match this
      case Some(v) => v
      case None => default
    }
  }

  /** The larger of two counters (`Ord::max` on `usize`). */
  function Max(x: nat, y: nat): (r: nat)
    ensures x <= r && y <= r
    ensures r == x || r == y
  {
    if x <= y then y else x
  }

  /** `pairwise_max`: the two sequences walked together (`zip`) and the larger
      item of each pair kept; the walk stops at the end of the shorter one. */
  function PairwiseMax(a: seq<nat>, b: seq<nat>): (r: seq<nat>)
    ensures |r| == if |a| <= |b| then |a| else |b|
    ensures forall k :: 0 <= k < |r| ==> r[k] == Max(a[k], b[k])
  {
    if a == [] || b == [] then []
    else [Max(a[0], b[0])] + PairwiseMax(a[1..], b[1..])
  }
}
