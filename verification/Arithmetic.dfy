/** Division facts used by the slot and frame counters. */
module Arithmetic {

  /** Frame numbers are kept modulo MAX_FRAME_NUMBER (written `& 1023` in places). */
  const MAX_FRAMES: nat := 1024

  lemma {:induction false} MulAtLeast(a: int, d: int)
    requires a >= 1 && d >= 0
    ensures a * d >= d
  {}

  lemma {:induction false} Distribute(a: int, b: int, d: int)
    ensures (a - b) * d == a * d - b * d
    ensures (a + b) * d == a * d + b * d
  {}

  /** A quotient and a remainder below the divisor are the quotient and the remainder. */
  lemma {:induction false} DivUnique(x: int, d: int, q: int, r: int)
    requires d > 0 && 0 <= r < d && x == q * d + r
    ensures x / d == q && x % d == r
  {
    var q', r' := x / d, x % d;
    assert x == q' * d + r';
    Distribute(q, q', d);
    Distribute(q', q, d);
    if q > q' {
      MulAtLeast(q - q', d);
    } else if q < q' {
      MulAtLeast(q' - q, d);
    }
  }

  lemma {:induction false} DivRecompose(x: int, d: int)
    requires d > 0
    ensures x == x / d * d + x % d && 0 <= x % d < d
    ensures x >= 0 ==> x / d >= 0
  {}

  lemma {:induction false} MulNonNegative(a: int, b: int)
    requires a >= 0 && b >= 0
    ensures a * b >= 0
  {}

  /** Adding to a number adds to its remainder, with the carry going to the quotient. */
  lemma {:induction false} DivAdd(x: int, y: int, d: int)
    requires d > 0
    ensures (x + y) / d == x / d + (x % d + y) / d && (x + y) % d == (x % d + y) % d
  {
    DivRecompose(x, d);
    var sum := x % d + y;
    DivRecompose(sum, d);
    Distribute(x / d, sum / d, d);
    DivUnique(x + y, d, x / d + sum / d, sum % d);
  }
}
