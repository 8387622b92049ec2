/** geometry/utilities/utils.py, and the Python integer and float
    conversions the rest of the model needs. */
module Utils {

  /** `sign(value)`: `(value > 0) - (value < 0)`, booleans subtracted as ints. */
  function Sign(v: real): (s: int)
    ensures s == 1 <==> v > 0.0
    ensures s == -1 <==> v < 0.0
    ensures s == 0 <==> v == 0.0
  {
    (if v > 0.0 then 1 else 0) - (if v < 0.0 then 1 else 0)
  }

  /** The sign of a negated value is the negated sign. */
  lemma SignNegate(v: real)
    ensures Sign(-v) == -Sign(v)
  {
  }

  /** Python's `//` on ints: rounds toward negative infinity. */
  function PyDiv(a: int, b: int): (q: int)
    requires b != 0
    ensures b > 0 ==> q * b <= a < q * b + b
    ensures b < 0 ==> q * b >= a > q * b + b
  {
    if b > 0 then a / b
    else if a % b == 0 then a / b
    else a / b - 1
  }

  /** Python's `%` on ints: the remainder takes the sign of the divisor. */
  function PyMod(a: int, b: int): (m: int)
    requires b != 0
    ensures a == PyDiv(a, b) * b + m
    ensures b > 0 ==> 0 <= m < b
    ensures b < 0 ==> b < m <= 0
  {
    a - PyDiv(a, b) * b
  }

  /** Python's `int(x)` on a float: truncation toward zero. */
  function Trunc(x: real): (n: int)
    ensures x >= 0.0 ==> n as real <= x < n as real + 1.0
    ensures x < 0.0 ==> n as real - 1.0 < x <= n as real
  {
    if x >= 0.0 then x.Floor else -((-x).Floor)
  }

  /** Truncation toward zero is monotone, so `int(a) <= int(b)` when `a <= b`. */
  lemma TruncMonotone(a: real, b: real)
    requires a <= b
    ensures Trunc(a) <= Trunc(b)
  {
  }

  function Max(a: int, b: int): int { if a >= b then a else b }
}

/** `random.randint` as an oracle: the value of the `k`-th draw from `[lo, hi]`. */
module Randomness {

  type RandInt = (nat, int, int) -> int

  /** What `random.randint(lo, hi)` promises when `lo <= hi`. */
  ghost predicate ValidRandom(rnd: RandInt)
  {
    forall k: nat, lo: int, hi: int :: lo <= hi ==> lo <= rnd(k, lo, hi) <= hi
  }
}
