/**
 * Python's `round(x, 2)` on binary floats is not modelled bit for bit. Every
 * operation that rounds takes the rounding function as a parameter and asks
 * only for the two properties the proofs use.
 */
module Rounding {

  /** Larger inputs never round to smaller outputs. */
  ghost predicate Monotone(round2: real -> real)
  {
    forall x, y :: x <= y ==> round2(x) <= round2(y)
  }

  function Whole(n: int): real
  {
    n as real
  }

  /** Whole numbers are already rounded to two decimals. */
  ghost predicate FixesWholeNumbers(round2: real -> real)
  {
    forall n: int :: round2(Whole(n)) == Whole(n)
  }

  /** What the model assumes of `round(·, 2)`. */
  ghost predicate IsRounding2(round2: real -> real)
  {
    Monotone(round2) && FixesWholeNumbers(round2)
  }
}
