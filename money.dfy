/**
 * Money arithmetic of the invoice service. Amounts are exact reals; the
 * service rounds them to cents with `math.Round(x*100) / 100`, where Go's
 * `math.Round` rounds to the nearest integer and half-way cases away from zero.
 */
module Money {

  /** `math.Round(x)`: the nearest integer, half-way cases away from zero. */
  function Round(x: real): (n: int)
    ensures x - 0.5 <= n as real <= x + 0.5
  {
    if x >= 0.0 then (x + 0.5).Floor else -((-x + 0.5).Floor)
  }

  /**
   * `Round` picks the nearest integer: any integer closer than a half is it,
   * and on a tie it moves away from zero.
   */
  lemma RoundNearest(x: real, m: int)
    ensures x - 0.5 < m as real < x + 0.5 ==> Round(x) == m
    ensures x >= 0.0 && m as real == x + 0.5 ==> Round(x) == m
    ensures x < 0.0 && m as real == x - 0.5 ==> Round(x) == m
  {
    if x >= 0.0 {
      assert (x + 0.5).Floor as real <= x + 0.5 < (x + 0.5).Floor as real + 1.0;
    } else {
      assert (-x + 0.5).Floor as real <= -x + 0.5 < (-x + 0.5).Floor as real + 1.0;
    }
  }

  /** Rounding is symmetric about zero. */
  lemma RoundOdd(x: real)
    ensures Round(-x) == -Round(x)
  {
    if x == 0.0 {
      assert -x == 0.0;
    }
  }

  /** Shifting a non-negative amount by a whole number shifts its rounding by the same. */
  lemma RoundShift(n: nat, y: real)
    requires y >= 0.0
    ensures Round(n as real + y) == n + Round(y)
  {
    var f := (y + 0.5).Floor;
    assert f as real <= y + 0.5 < f as real + 1.0;
    RoundNearest(n as real + y, n + f);
    if (n + f) as real == n as real + y + 0.5 {
      assert Round(n as real + y) == n + f;
    }
  }

  /** `math.Round(x*100) / 100`: rounds to whole cents. */
  function Round2(x: real): (r: real)
    ensures x - 0.005 <= r <= x + 0.005
  {
    Round(x * 100.0) as real / 100.0
  }

  /** An amount in whole cents is left as it is. */
  lemma Round2WholeCents(n: int)
    ensures Round2(n as real / 100.0) == n as real / 100.0
  {
    assert n as real / 100.0 * 100.0 == n as real;
    RoundNearest(n as real, n);
  }

  /** Rounding to cents a second time changes nothing. */
  lemma Round2Idempotent(x: real)
    ensures Round2(Round2(x)) == Round2(x)
  {
    Round2WholeCents(Round(x * 100.0));
  }
}
