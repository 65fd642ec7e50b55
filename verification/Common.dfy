/** Small value types and notions shared by the models. */
module Common {
  datatype Option<+T> = None | Some(value: T)

  /** The two do not hold the same value. */
  predicate Apart(x: Option<nat>, y: Option<nat>) {
    x.Some? ==> x != y
  }

  function Bit(b: bool): nat {
    if b then 1 else 0
  }

  ghost predicate Distinct(xs: seq<nat>) {
    forall i, j :: 0 <= i < j < |xs| ==> xs[i] != xs[j]
  }
}
