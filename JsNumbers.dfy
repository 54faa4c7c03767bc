/**
 * The part of JavaScript number semantics that the percentages and the
 * comparison insights depend on: a division by zero gives NaN or Infinity
 * instead of failing, and `>` is false whenever NaN is involved.
 */
module JsNumbers {

  datatype JsNumber = Finite(value: real) | NaN | Infinity

  /** `(count / total) * 100` in JavaScript, with no guard against a zero total, over exact reals (doubles round). */
  function Percentage(count: nat, total: nat): (r: JsNumber)
    ensures r.Finite? <==> total > 0
    ensures r.Finite? ==> r.value * (total as real) == 100.0 * (count as real)
    ensures r.Finite? && count <= total ==> 0.0 <= r.value <= 100.0
    ensures r == NaN <==> total == 0 && count == 0
  {
    if total > 0 then
      var v := (count as real / total as real) * 100.0;
      assert v * (total as real) == 100.0 * (count as real);
      Finite(v)
    else if count == 0 then NaN
    else Infinity
  }

  /** Three percentages of one total whose counts add up to that total add up to 100, in exact arithmetic. */
  lemma PercentagesSumTo100(a: nat, b: nat, c: nat, total: nat)
    requires total > 0 && a + b + c == total
    ensures Percentage(a, total).value + Percentage(b, total).value + Percentage(c, total).value == 100.0
  {
    var pa, pb, pc := Percentage(a, total).value, Percentage(b, total).value, Percentage(c, total).value;
    var t := total as real;
    calc {
      (pa + pb + pc - 100.0) * t;
      pa * t + pb * t + pc * t - 100.0 * t;
      100.0 * (a as real) + 100.0 * (b as real) + 100.0 * (c as real) - 100.0 * t;
      0.0;
    }
    ZeroProduct(pa + pb + pc - 100.0, t);
  }

  lemma ZeroProduct(x: real, t: real)
    requires t > 0.0 && x * t == 0.0
    ensures x == 0.0
  {
    assert x == (x * t) / t;
  }

  /** The JavaScript `>` operator. */
  predicate Greater(x: JsNumber, y: JsNumber) {
    match (x, y)
    case (Finite(a), Finite(b)) => a > b
    case (Infinity, Finite(_)) => true
    case _ => false
  }

  /** `>` is irreflexive and asymmetric, so it never favours both sides of a comparison. */
  lemma GreaterAsymmetric(x: JsNumber, y: JsNumber)
    ensures Greater(x, y) ==> !Greater(y, x)
    ensures !Greater(x, x)
  {
  }
}
