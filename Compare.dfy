/**
 * The comparison screen's insights (frontend/src/pages/Results.jsx): the
 * model name of each side, the difference in confirmed counts and its
 * colour, the model with the higher confirmed percentage, and the coverage.
 */
module Compare {
  import opened Wrappers
  import opened JsNumbers
  import opened Payload

  const Batch1Color: string := "#ff6b6b"
  const Batch2Color: string := "#4ecdc4"

  datatype Insights = Insights(
    name1: string,
    name2: string,
    confirmedDifference: nat,
    differenceColor: string,
    higherConfidenceModel: string,
    coverage: nat)

  /** `Math.abs(a - b)` on counts. */
  function Distance(a: nat, b: nat): (d: nat)
    ensures a >= b ==> d == a - b
    ensures a <= b ==> d == b - a
  {
    if a >= b then a - b else b - a
  }

  /**
   * The insights for two results and the models picked for them; a side's
   * name is the picked model, or the result's own model when none was picked.
   * Ties, and NaN percentages, favour the second side.
   */
  function ComparisonInsights(r1: ResultRecord, r2: ResultRecord, model1: Option<string>, model2: Option<string>)
    : (ins: Insights)
    ensures ins.name1 == OrElse(model1, r1.modelUsed) && ins.name2 == OrElse(model2, r2.modelUsed)
    ensures ins.confirmedDifference + r2.statistics.confirmedCount == r1.statistics.confirmedCount
            || ins.confirmedDifference + r1.statistics.confirmedCount == r2.statistics.confirmedCount
    ensures ins.differenceColor == Batch1Color
            <==> r1.statistics.confirmedCount > r2.statistics.confirmedCount
    ensures ins.differenceColor in {Batch1Color, Batch2Color}
    ensures ins.higherConfidenceModel
            == if Greater(r1.statistics.confirmedPct, r2.statistics.confirmedPct) then ins.name1 else ins.name2
    ensures ins.coverage == r1.statistics.total + r2.statistics.total
  {
    var s1, s2 := r1.statistics, r2.statistics;
    var n1, n2 := OrElse(model1, r1.modelUsed), OrElse(model2, r2.modelUsed);
    Insights(
      n1, n2,
      Distance(s1.confirmedCount, s2.confirmedCount),
      if s1.confirmedCount > s2.confirmedCount then Batch1Color else Batch2Color,
      if Greater(s1.confirmedPct, s2.confirmedPct) then n1 else n2,
      s1.total + s2.total)
  }

  /**
   * Swapping the sides keeps the difference and the coverage; the colour
   * changes sides unless the counts tie; the higher model stays the same
   * unless the percentages tie or are not comparable.
   */
  lemma SwappedSides(r1: ResultRecord, r2: ResultRecord, model1: Option<string>, model2: Option<string>)
    ensures var a := ComparisonInsights(r1, r2, model1, model2);
            var b := ComparisonInsights(r2, r1, model2, model1);
      && a.confirmedDifference == b.confirmedDifference
      && a.coverage == b.coverage
      && (r1.statistics.confirmedCount != r2.statistics.confirmedCount
          ==> (a.differenceColor == Batch1Color <==> b.differenceColor == Batch2Color))
      && (Greater(r1.statistics.confirmedPct, r2.statistics.confirmedPct)
          || Greater(r2.statistics.confirmedPct, r1.statistics.confirmedPct)
          ==> a.higherConfidenceModel == b.higherConfidenceModel)
  {
    GreaterAsymmetric(r1.statistics.confirmedPct, r2.statistics.confirmedPct);
  }

  /** Two empty results (percentages NaN) and equal percentages both name the second model. */
  lemma TiesNameSecondModel(r1: ResultRecord, r2: ResultRecord, model1: Option<string>, model2: Option<string>)
    requires r1.statistics.confirmedPct == r2.statistics.confirmedPct
             || r1.statistics.confirmedPct == NaN || r2.statistics.confirmedPct == NaN
    ensures ComparisonInsights(r1, r2, model1, model2).higherConfidenceModel == OrElse(model2, r2.modelUsed)
  {
    GreaterAsymmetric(r1.statistics.confirmedPct, r2.statistics.confirmedPct);
  }

  lemma ScaleStrict(a: real, b: real, t: real)
    requires t > 0.0
    ensures a > b <==> a * t > b * t
  {
    if a > b {
      assert (a - b) * t > 0.0;
    } else {
      assert (b - a) * t >= 0.0;
    }
  }

  /** Over the same number of rows, the higher confirmed percentage is the higher confirmed count. */
  lemma HigherPercentageSameTotal(c1: nat, c2: nat, total: nat)
    requires total > 0
    ensures Greater(Percentage(c1, total), Percentage(c2, total)) <==> c1 > c2
  {
    var v1, v2, t := Percentage(c1, total).value, Percentage(c2, total).value, total as real;
    ScaleStrict(v1, v2, t);
    assert v1 * t == 100.0 * (c1 as real) && v2 * t == 100.0 * (c2 as real);
    assert c1 > c2 <==> 100.0 * (c1 as real) > 100.0 * (c2 as real);
  }
}
