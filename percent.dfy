/** The percentage `(part / whole) * 100` that budgets and goals display, and
    its form capped with `Math.min(…, 100)`.  The source divides without a
    guard; a positive whole is required here. */
module Percent {

  function Percentage(part: real, whole: real): (p: real)
    requires whole > 0.0
    ensures p * whole == 100.0 * part
    ensures p >= 100.0 <==> part >= whole
    ensures p >= 0.0 <==> part >= 0.0
  {
    (part / whole) * 100.0
  }

  /** Comparing the percentage with a threshold `k` is comparing `100 * part`
      with `k * whole`. */
  lemma PercentageAtLeast(part: real, whole: real, k: real)
    requires whole > 0.0
    ensures Percentage(part, whole) >= k <==> 100.0 * part >= k * whole
  {
    var p := Percentage(part, whole);
    if p >= k {
      assert p * whole >= k * whole;
    } else {
      assert p * whole < k * whole;
    }
  }

  /** `Math.min((part / whole) * 100, 100)`. */
  function CappedPercentage(part: real, whole: real): (p: real)
    requires whole > 0.0
    ensures p <= 100.0
    ensures p == 100.0 <==> part >= whole
    ensures part < whole ==> p == Percentage(part, whole)
    ensures part >= 0.0 ==> p >= 0.0
  {
    var raw := Percentage(part, whole);
    if raw < 100.0 then raw else 100.0
  }
}
