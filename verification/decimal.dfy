/**
 Two-decimal rounding as JavaScript writes it, `Math.round(x * 100) / 100`,
 on exact reals: `Math.round` rounds half-way cases up (towards +infinity).
 */
module Decimal {

  /** `x` is a whole number of hundredths. */
  predicate IsCents(x: real) {
    (x * 100.0).Floor as real == x * 100.0
  }

  /** Rounding half-up to hundredths: the unique multiple of 0.01 in `(x - 0.005, x + 0.005]`. */
  function Round2(x: real): (r: real)
    ensures IsCents(r)
    ensures x - 0.005 < r <= x + 0.005
  {
    var n := (x * 100.0 + 0.5).Floor;
    assert (n as real / 100.0) * 100.0 == n as real;
    n as real / 100.0
  }

  /** Rounding leaves a value that already has at most two decimals unchanged. */
  lemma Round2OfCents(x: real)
    requires IsCents(x)
    ensures Round2(x) == x
  {
    var m := (x * 100.0).Floor;
    assert (x * 100.0 + 0.5).Floor == m;
  }

  /** Any two cent values within the rounding window of `x` coincide: the window pins the result. */
  lemma {:induction false} CentsWindowUnique(x: real, a: real, b: real)
    requires IsCents(a) && IsCents(b)
    requires x - 0.005 < a <= x + 0.005 && x - 0.005 < b <= x + 0.005
    ensures a == b
  {
    var p := (a * 100.0).Floor;
    var q := (b * 100.0).Floor;
    assert -1 < p - q < 1;
  }
}
