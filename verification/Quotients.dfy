/** Division of reals and order. */
module Quotients {
  lemma QuotientBounds(n: real, d: real, lo: real, hi: real)
    requires d > 0.0 && lo * d <= n <= hi * d
    ensures lo <= n / d <= hi
  {
    var q := n / d;
    assert q * d == n;
    assert q < lo ==> q * d < lo * d;
    assert q > hi ==> q * d > hi * d;
  }
}
