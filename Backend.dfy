/**
 * The back end's decoding of class codes into labelled rows and its
 * per-class statistics (`decode_predictions` and `calculate_statistics` in
 * backend/app.py). The classifier itself is outside the model: its class
 * codes and per-row class probabilities are inputs.
 */
module Backend {
  import opened Wrappers
  import opened Seqs
  import opened JsNumbers
  import opened Payload

  datatype ClassInfo = ClassInfo(name: string, emoji: string, color: string)

  /** `class_mapping.get(code, unknown)`. */
  function ClassInfoOf(code: int): (info: ClassInfo)
    ensures info.name == "UNKNOWN" <==> !(0 <= code <= 2)
    ensures |info.emoji| == 1
  {
    if code == 0 then ClassInfo("FALSE POSITIVE", "\U{274C}", "#ff4444")
    else if code == 1 then ClassInfo("CANDIDATE", "\U{1F50D}", "#ffa500")
    else if code == 2 then ClassInfo("CONFIRMED", "\U{1F30D}", "#44ff44")
    else ClassInfo("UNKNOWN", "\U{2753}", "#888888")
  }

  /** The display label `f"{emoji} {label}"`. */
  function LabelOf(code: int): (text: string)
    ensures |text| >= 3 && text[1] == ' ' && text[2..] == ClassInfoOf(code).name
  {
    var info := ClassInfoOf(code);
    info.emoji + " " + info.name
  }

  /** The four labels the back end can produce. */
  lemma LabelsByCode(c: int)
    ensures c == 0 ==> LabelOf(c) == "\U{274C} FALSE POSITIVE"
    ensures c == 1 ==> LabelOf(c) == "\U{1F50D} CANDIDATE"
    ensures c == 2 ==> LabelOf(c) == "\U{1F30D} CONFIRMED"
    ensures c !in {0, 1, 2} ==> LabelOf(c) == "\U{2753} UNKNOWN"
  {
    if c == 0 {
      assert "\U{274C}" + " " + "FALSE POSITIVE" == "\U{274C} FALSE POSITIVE";
    } else if c == 1 {
      assert "\U{1F50D}" + " " + "CANDIDATE" == "\U{1F50D} CANDIDATE";
    } else if c == 2 {
      assert "\U{1F30D}" + " " + "CONFIRMED" == "\U{1F30D} CONFIRMED";
    } else {
      assert "\U{2753}" + " " + "UNKNOWN" == "\U{2753} UNKNOWN";
    }
  }

  /** `np.max`: the largest of a non-empty row of probabilities. */
  function MaxOf(s: seq<real>): (m: real)
    requires |s| > 0
    ensures m in s
    ensures forall x :: x in s ==> x <= m
  {
    if |s| == 1 then s[0]
    else
      var m := MaxOf(s[1..]);
      assert forall x :: x in s ==> x == s[0] || x in s[1..];
      if s[0] > m then s[0] else m
  }

  /** Row `i` gets probabilities: they were supplied and `i < len(probabilities)`. */
  predicate HasProbabilities(probabilities: Option<seq<seq<real>>>, i: nat) {
    probabilities.Some? && i < |probabilities.value|
  }

  /**
   * Row `i` has probabilities but too few of them: `np.max` of an empty row
   * raises ValueError, and `prob_array[1]` or `[2]` of a shorter one raises IndexError.
   */
  predicate ShortRow(probabilities: Option<seq<seq<real>>>, i: nat) {
    HasProbabilities(probabilities, i) && |probabilities.value[i]| < 3
  }

  datatype DecodeError = ValueError(row: nat) | IndexError(row: nat)

  /** What entry `i` of the decoded list holds for class code `code`. */
  ghost predicate DecodedEntry(d: Prediction, i: nat, code: int, probabilities: Option<seq<seq<real>>>) {
    && d.row == RowNum(i + 1)
    && d.prediction == LabelOf(code)
    && d.code == code
    && d.color == ClassInfoOf(code).color
    && d.originalRow == None && d.sourceFile == None
    && (d.confidence.Some? <==> HasProbabilities(probabilities, i))
    && (d.probabilities.Some? <==> HasProbabilities(probabilities, i))
    && (HasProbabilities(probabilities, i) && !ShortRow(probabilities, i) ==>
          var p := probabilities.value[i];
          && d.confidence.value in p
          && (forall x :: x in p ==> x <= d.confidence.value)
          && d.probabilities.value == Probabilities(p[0], p[1], p[2]))
  }

  /**
   * `decode_predictions`: one entry per class code, in order, numbered from 1.
   * Fails exactly when some row that gets probabilities has fewer than three,
   * and then reports the first such row: ValueError when it is empty, IndexError otherwise.
   */
  method DecodePredictions(codes: seq<int>, probabilities: Option<seq<seq<real>>>)
    returns (r: Result<seq<Prediction>, DecodeError>)
    ensures r.Err? <==> exists i :: 0 <= i < |codes| && ShortRow(probabilities, i)
    ensures r.Err? ==>
      && r.error.row < |codes| && ShortRow(probabilities, r.error.row)
      && forall j :: 0 <= j < r.error.row ==> !ShortRow(probabilities, j)
    ensures r.Err? ==> (r.error.ValueError? <==> |probabilities.value[r.error.row]| == 0)
    ensures r.Ok? ==>
      && |r.value| == |codes|
      && forall i :: 0 <= i < |codes| ==> DecodedEntry(r.value[i], i, codes[i], probabilities)
  {
    var decoded: seq<Prediction> := [];
    for i := 0 to |codes|
      invariant |decoded| == i
      invariant forall j :: 0 <= j < i ==> DecodedEntry(decoded[j], j, codes[j], probabilities)
      invariant forall j :: 0 <= j < i ==> !ShortRow(probabilities, j)
    {
      var info := ClassInfoOf(codes[i]);
      var entry := Prediction(RowNum(i + 1), info.emoji + " " + info.name, codes[i], info.color,
                              None, None, None, None);
      if probabilities.Some? && i < |probabilities.value| {
        var probArray := probabilities.value[i];
        if |probArray| == 0 {
          assert ShortRow(probabilities, i);
          return Err(ValueError(i));
        }
        if |probArray| < 3 {
          assert ShortRow(probabilities, i);
          return Err(IndexError(i));
        }
        entry := entry.(confidence := Some(MaxOf(probArray)),
                        probabilities := Some(Probabilities(probArray[0], probArray[1], probArray[2])));
      }
      decoded := decoded + [entry];
    }
    return Ok(decoded);
  }

  /** The rows whose class code is `c`. */
  function HasCode(c: int): Prediction -> bool {
    (p: Prediction) => p.code == c
  }

  /** The rows whose class code is none of the three known ones. */
  function HasUnknownCode(): Prediction -> bool {
    (p: Prediction) => p.code !in {0, 1, 2}
  }

  datatype StatisticsError = ZeroDivisionError

  /**
   * `calculate_statistics`: the number of rows, the number with each of the
   * codes 0, 1 and 2, each as a percentage of all rows, and the same three
   * counts again as the breakdown. An empty list divides by zero.
   */
  function CalculateStatistics(predictions: seq<Prediction>): (r: Result<Statistics, StatisticsError>)
    ensures r.Err? <==> |predictions| == 0
    ensures r.Ok? ==>
      var st := r.value;
      && st.total == |predictions|
      && st.falsePositiveCount == Count(predictions, HasCode(0))
      && st.candidateCount == Count(predictions, HasCode(1))
      && st.confirmedCount == Count(predictions, HasCode(2))
      && st.falsePositivePct == Percentage(st.falsePositiveCount, st.total)
      && st.candidatePct == Percentage(st.candidateCount, st.total)
      && st.confirmedPct == Percentage(st.confirmedCount, st.total)
      && st.breakdown == Some(Counts(st.falsePositiveCount, st.candidateCount, st.confirmedCount))
  {
    var falsePositive := Count(predictions, HasCode(0));
    var candidate := Count(predictions, HasCode(1));
    var confirmed := Count(predictions, HasCode(2));
    var total := |predictions|;
    if total == 0 then Err(ZeroDivisionError)
    else
      Ok(Statistics(total, falsePositive, candidate, confirmed,
                    Percentage(falsePositive, total), Percentage(candidate, total), Percentage(confirmed, total),
                    Some(Counts(falsePositive, candidate, confirmed))))
  }

  /** Every row has code 0, 1, 2 or another one, so the four counts add up to the length. */
  lemma {:induction false} CountsPartition(ps: seq<Prediction>)
    ensures Count(ps, HasCode(0)) + Count(ps, HasCode(1)) + Count(ps, HasCode(2))
            + Count(ps, HasUnknownCode()) == |ps|
    decreases |ps|
  {
    if |ps| > 0 {
      CountsPartition(ps[1..]);
    }
  }

  /** The three counts add up to `total_predictions` exactly when no row has an unknown code. */
  lemma CountsSumToTotalIff(ps: seq<Prediction>)
    requires |ps| > 0
    ensures var st := CalculateStatistics(ps).value;
      st.falsePositiveCount + st.candidateCount + st.confirmedCount == st.total
      <==> forall p :: p in ps ==> p.code in {0, 1, 2}
  {
    CountsPartition(ps);
    if Count(ps, HasUnknownCode()) == 0 {
      forall p | p in ps ensures p.code in {0, 1, 2} {
        assert p !in Filter(ps, HasUnknownCode());
      }
    }
    if forall p :: p in ps ==> p.code in {0, 1, 2} {
      FilterKeepsNone(ps, HasUnknownCode());
    }
  }

  /** Without unknown codes the three percentages add up to 100. */
  lemma PercentagesSumTo100WhenKnown(ps: seq<Prediction>)
    requires |ps| > 0
    requires forall p :: p in ps ==> p.code in {0, 1, 2}
    ensures var st := CalculateStatistics(ps).value;
      st.falsePositivePct.value + st.candidatePct.value + st.confirmedPct.value == 100.0
  {
    CountsSumToTotalIff(ps);
    var st := CalculateStatistics(ps).value;
    PercentagesSumTo100(st.falsePositiveCount, st.candidateCount, st.confirmedCount, st.total);
  }
}
