/** Fixed-point arithmetic as the audio engine does it. An arithmetic right
    shift by n is division by 2^n rounding down, which is what `/` does here for
    a positive divisor; C++ division rounds toward zero and is TruncDiv. */
module Fixed {
  const WRAP32: int := 0x1_0000_0000

  /** x is representable as int32_t. */
  predicate Fits32(x: int) {
    -0x8000_0000 <= x < 0x8000_0000
  }

  /** x is representable as int64_t. */
  predicate Fits64(x: int) {
    -0x8000_0000_0000_0000 <= x < 0x8000_0000_0000_0000
  }

  function Abs(x: int): nat {
    if x < 0 then -x else x
  }

  function Clamp(x: int, limit: int): (r: int)
    requires 0 <= limit
    ensures -limit <= r <= limit
    ensures -limit <= x <= limit ==> r == x
  {
    if limit < x then limit else if x < -limit then -limit else x
  }

  function TruncDiv(a: int, b: int): int
    requires 0 < b
  {
    if 0 <= a then a / b else -((-a) / b)
  }

  lemma MulAtMost(a: int, b: int, c: int, d: int)
    requires 0 <= a <= c && 0 <= b <= d
    ensures 0 <= a * b <= c * d
  {
  }

  lemma MulAbs(a: int, b: int, c: nat, d: nat)
    requires Abs(a) <= c && Abs(b) <= d
    ensures Abs(a * b) <= c * d
  {
    MulAtMost(Abs(a), Abs(b), c, d);
    assert a * b == Abs(a) * Abs(b) || a * b == -(Abs(a) * Abs(b));
  }

  /** Rounding toward zero never overshoots. */
  lemma TruncDivTimes(a: int, b: int)
    requires 0 < b
    ensures 0 <= a ==> 0 <= b * TruncDiv(a, b) <= a
    ensures a <= 0 ==> a <= b * TruncDiv(a, b) <= 0
  {
    DivTimes(if 0 <= a then a else -a, b);
  }

  lemma DivTimes(a: nat, b: int)
    requires 0 < b
    ensures 0 <= b * (a / b) <= a && -(b * (a / b)) == b * -(a / b)
  {
    assert b * (a / b) == a - a % b;
  }
}
