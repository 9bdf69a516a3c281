/** The zero-guarded percentage every page computes: `den > 0 ? (num / den) * 100 : 0`. */
module Metrics {

  /** The percentage `num` is of `den`; 0 when `den` is not positive, so it is never NaN or Infinity. */
  function Percent(num: real, den: real): (p: real)
    ensures den > 0.0 ==> p * den == num * 100.0
    ensures den <= 0.0 ==> p == 0.0
    ensures num >= 0.0 ==> p >= 0.0
  {
    if den > 0.0 then num / den * 100.0 else 0.0
  }

  /** With a positive denominator, a percentage threshold is a comparison of the two amounts. */
  lemma PercentAtLeast(num: real, den: real, t: real)
    requires den > 0.0
    ensures Percent(num, den) >= t <==> num * 100.0 >= t * den
  {
    var p := Percent(num, den);
    assert p * den == num * 100.0;
    if p >= t {
      assert p * den >= t * den;
    } else {
      assert p * den < t * den;
    }
  }

  /** `num / den < 0.8`, the form the alert filter uses, is "below 80 percent". */
  lemma RatioBelowIsPercentBelow(num: real, den: real)
    requires den > 0.0
    ensures num / den < 0.8 <==> Percent(num, den) < 80.0
  {
    PercentAtLeast(num, den, 80.0);
    assert (num / den) * den == num;
    if num / den < 0.8 {
      assert (num / den) * den < 0.8 * den;
    } else {
      assert (num / den) * den >= 0.8 * den;
    }
  }

  /** Shares of one positive total add up to 100 percent. */
  lemma PercentsOfTotal(a: real, b: real, c: real)
    requires a + b + c > 0.0
    ensures Percent(a, a + b + c) + Percent(b, a + b + c) + Percent(c, a + b + c) == 100.0
  {
    var total := a + b + c;
    var pa, pb, pc := Percent(a, total), Percent(b, total), Percent(c, total);
    assert (pa + pb + pc) * total == pa * total + pb * total + pc * total;
    assert (pa + pb + pc - 100.0) * total == 0.0;
  }
}
