/** Facts about multiplication and Euclidean division used by the
    schedule grid and the calendar. */
module Arith {
  lemma MulMonotone(a: nat, b: nat, c: nat)
    requires a <= b
    ensures a * c <= b * c
  {
    assert b * c == a * c + (b - a) * c;
  }

  lemma MulAtLeast(d: int, step: int)
    requires d >= 1 && step > 0
    ensures d * step >= step
  {
    assert d * step == (d - 1) * step + step;
  }

  /** Euclidean division is determined by quotient and remainder. */
  lemma DivModUnique(a: int, step: int, q: int, r: int)
    requires step > 0 && 0 <= r < step && a == q * step + r
    ensures a % step == r && a / step == q
  {
    var q', r' := a / step, a % step;
    assert a == q' * step + r';
    if q' > q {
      assert q' * step - q * step == (q' - q) * step;
      MulAtLeast(q' - q, step);
    } else if q' < q {
      assert q * step - q' * step == (q - q') * step;
      MulAtLeast(q - q', step);
    }
  }
}
