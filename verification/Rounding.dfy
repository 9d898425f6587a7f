/** Exact integer forms of the rounding the Python code performs. */
module Rounding {
  /** Division rounded up. */
  function CeilDiv(num: int, den: int): (q: int)
    requires den > 0
    ensures (q - 1) * den < num <= q * den
  {
    -((-num) / den)
  }

  /** The integer nearest to `num / den`, and the even one of two equally near. */
  predicate Nearest(num: int, den: int, q: int) {
    var gap := 2 * (num - q * den);
    -den <= gap <= den && (gap == den || gap == -den ==> q % 2 == 0)
  }

  /** There is only one. */
  lemma NearestUnique(num: int, den: int, p: int, q: int)
    requires den > 0 && Nearest(num, den, p) && Nearest(num, den, q)
    ensures p == q
  {
    if p < q { NearestOrder(num, den, p, q); }
    if q < p { NearestOrder(num, den, q, p); }
  }

  lemma NearestOrder(num: int, den: int, p: int, q: int)
    requires den > 0 && Nearest(num, den, p) && Nearest(num, den, q)
    ensures q <= p
  {
    if q >= p + 2 { MulMonotone(p + 2, q, den); }
    assert (p + 1) * den == p * den + den;
  }

  /** Python's `round(num / den)`: nearest integer, ties to the even one. */
  function RoundHalfEven(num: int, den: int): (q: int)
    requires den > 0
    ensures Nearest(num, den, q)
  {
    var q, r := num / den, num % den;
    assert num - q * den == r;
    if 2 * r < den then q
    else if 2 * r > den then assert (q + 1) * den == q * den + den; q + 1
    else if q % 2 == 0 then q else assert (q + 1) * den == q * den + den; q + 1
  }

  /** Python's `round(x)` on a real offset. */
  function RoundReal(x: real): (q: int)
    ensures x - 0.5 <= q as real <= x + 0.5
    ensures q as real == x - 0.5 || q as real == x + 0.5 ==> q % 2 == 0
  {
    var f := x.Floor;
    var r := x - f as real;
    if r < 0.5 then f
    else if r > 0.5 then f + 1
    else if f % 2 == 0 then f else f + 1
  }

  lemma RoundHalfEvenMonotone(a: int, b: int, den: int)
    requires den > 0 && a <= b
    ensures RoundHalfEven(a, den) <= RoundHalfEven(b, den)
  {
    DivMonotone(a, b, den);
  }

  lemma DivMonotone(a: int, b: int, den: int)
    requires den > 0 && a <= b
    ensures a / den <= b / den
    ensures a / den == b / den ==> a % den <= b % den
  {
    var p, q := a / den, b / den;
    assert a == p * den + a % den && b == q * den + b % den;
    if q + 1 <= p { MulMonotone(q + 1, p, den); }
  }

  lemma DivBelow(a: int, den: int, k: int)
    requires den > 0 && a < k * den
    ensures a / den < k
  {
    if k <= a / den { MulMonotone(k, a / den, den); }
  }

  lemma MulMonotone(p: int, q: int, den: int)
    requires p <= q && den >= 0
    ensures p * den <= q * den
  {}

  /** A multiple of the denominator on either side bounds the rounded quotient. */
  lemma RoundHalfEvenBounds(num: int, den: int, k: int)
    requires den > 0
    ensures k * den <= num ==> k <= RoundHalfEven(num, den)
    ensures num <= k * den ==> RoundHalfEven(num, den) <= k
  {
    RoundHalfEvenExact(k, den);
    if k * den <= num { RoundHalfEvenMonotone(k * den, num, den); }
    if num <= k * den { RoundHalfEvenMonotone(num, k * den, den); }
  }

  lemma RoundHalfEvenExact(k: int, den: int)
    requires den > 0
    ensures RoundHalfEven(k * den, den) == k
  {}

  lemma RoundRealMonotone(x: real, y: real)
    requires x <= y
    ensures RoundReal(x) <= RoundReal(y)
  {}
}
