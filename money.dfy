/**
 * Money as exact decimals. Python's `round(x, d)` rounds the exact value to the
 * nearest multiple of 10^-d and breaks ties towards the even neighbour.
 */
module Money {
  import opened Text

  /** The nearest integer to `y`; a tie goes to the even one. */
  function RoundHalfEven(y: real): (n: int)
    ensures y - 0.5 <= n as real <= y + 0.5
    ensures (n as real - y == 0.5 || y - n as real == 0.5) ==> n % 2 == 0
  {
    var f := y.Floor;
    var frac := y - f as real;
    if frac < 0.5 then f
    else if frac > 0.5 then f + 1
    else if f % 2 == 0 then f
    else f + 1
  }

  /** An integer is its own nearest integer. */
  lemma RoundHalfEvenOfInt(k: int)
    ensures RoundHalfEven(k as real) == k
  {
  }

  /** `x` scaled up by `10^d`. */
  function Scale(x: real, d: nat): real
  {
    x * Pow10(d) as real
  }

  /**
   * `round(x, d)` for a non-negative number of decimals `d`: scaled up by
   * `10^d` it is a whole number, the one nearest `x` scaled up, and on a tie
   * the even one.
   */
  function Round(x: real, d: nat): (r: real)
    ensures Scale(r, d) == RoundHalfEven(Scale(x, d)) as real
    ensures -0.5 <= Scale(r - x, d) <= 0.5
    ensures (Scale(r - x, d) == 0.5 || Scale(r - x, d) == -0.5) ==> RoundHalfEven(Scale(x, d)) % 2 == 0
  {
    var n := RoundHalfEven(Scale(x, d));
    var r := n as real / Pow10(d) as real;
    ScaleBack(n as real, Pow10(d) as real, r);
    ScaleSub(r, x, d);
    r
  }

  /** Scaling distributes over a difference. */
  lemma ScaleSub(a: real, b: real, d: nat)
    ensures Scale(a - b, d) == Scale(a, d) - Scale(b, d)
  {
  }

  /** `n` scaled down by `p` is `n` again when scaled back up. */
  lemma ScaleBack(n: real, p: real, r: real)
    requires p > 0.0 && r == n / p
    ensures r * p == n
  {
    assert (n / p) * p == n;
  }

  /** A whole number of cents. */
  predicate IsCents(x: real)
  {
    (x * 100.0).Floor as real == x * 100.0
  }

  /** `round(x, 2)`. */
  function Round2(x: real): (r: real)
    ensures IsCents(r)
    ensures -0.005 <= r - x <= 0.005
  {
    assert Pow10(2) == 100 by { assert Pow10(1) == 10; }
    var r := Round(x, 2);
    var n := RoundHalfEven(x * 100.0);
    assert r == n as real / 100.0;
    assert r * 100.0 == n as real;
    WholeIsCents(r, n);
    r
  }

  /** Rounding an amount that is already in whole cents changes nothing. */
  lemma Round2OfCents(x: real)
    requires IsCents(x)
    ensures Round2(x) == x
  {
    var n := (x * 100.0).Floor;
    RoundHalfEvenOfInt(n);
    assert x * 100.0 == n as real;
    assert Round(x, 2) == n as real / 100.0 by {
      assert Pow10(2) == 100 by { assert Pow10(1) == 10; }
    }
  }

  /** Whole cents are closed under addition and subtraction. */
  lemma CentsArith(a: real, b: real)
    requires IsCents(a) && IsCents(b)
    ensures IsCents(a + b) && IsCents(a - b)
  {
    var m, n := (a * 100.0).Floor, (b * 100.0).Floor;
    assert a * 100.0 == m as real && b * 100.0 == n as real;
    assert (a + b) * 100.0 == a * 100.0 + b * 100.0;
    assert (a - b) * 100.0 == a * 100.0 - b * 100.0;
    WholeIsCents(a + b, m + n);
    WholeIsCents(a - b, m - n);
  }

  /** An amount that is a whole number of hundredths is in whole cents. */
  lemma WholeIsCents(x: real, k: int)
    requires x * 100.0 == k as real
    ensures IsCents(x)
  {
  }
}
