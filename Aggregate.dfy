/**
 * Batch aggregation on the results page (`aggregateBatchResults` and
 * `getCurrentData` in frontend/src/pages/Results.jsx): N back-end payloads
 * become one, counts are summed, percentages recomputed from the sums, and
 * every row is re-indexed as `"{file}-{row}"`.
 */
module Aggregate {
  import opened Wrappers
  import opened JsNumbers
  import opened Payload
  import JsText

  /** `{...pred, originalRow: pred.row, row: `${batchNo}-${pred.row}`, sourceFile: filename}`. */
  function Reindexed(p: Prediction, batchNo: nat, filename: string): (q: Prediction)
    ensures q.originalRow == Some(p.row) && q.row == BatchRow(batchNo, p.row) && q.sourceFile == Some(filename)
    ensures q.prediction == p.prediction && q.code == p.code && q.color == p.color
    ensures q.confidence == p.confidence && q.probabilities == p.probabilities
  {
    p.(originalRow := Some(p.row), row := BatchRow(batchNo, p.row), sourceFile := Some(filename))
  }

  /** The rows of one input, re-indexed as input number `batchNo`. */
  function ReindexedRows(r: ResultRecord, batchNo: nat): seq<Prediction> {
    seq(|r.predictions|, k requires 0 <= k < |r.predictions| =>
      Reindexed(r.predictions[k], batchNo, r.fileInfo.filename))
  }

  /** The `flatMap` over the inputs, the first of which is input number `first`. */
  function FlatRows(batch: seq<ResultRecord>, first: nat): seq<Prediction>
    decreases |batch|
  {
    if |batch| == 0 then [] else ReindexedRows(batch[0], first) + FlatRows(batch[1..], first + 1)
  }

  /** `batch.reduce((sum, r) => sum + field(r), 0)`. */
  function SumOf(batch: seq<ResultRecord>, field: ResultRecord -> nat): nat
    decreases |batch|
  {
    if |batch| == 0 then 0 else field(batch[0]) + SumOf(batch[1..], field)
  }

  function RowsProcessed(): ResultRecord -> nat { (r: ResultRecord) => r.fileInfo.rowsProcessed }
  function TotalPredictions(): ResultRecord -> nat { (r: ResultRecord) => r.statistics.total }
  function ConfirmedCount(): ResultRecord -> nat { (r: ResultRecord) => r.statistics.confirmedCount }
  function CandidateCount(): ResultRecord -> nat { (r: ResultRecord) => r.statistics.candidateCount }
  function FalsePositiveCount(): ResultRecord -> nat { (r: ResultRecord) => r.statistics.falsePositiveCount }
  function RowCount(): ResultRecord -> nat { (r: ResultRecord) => |r.predictions| }

  /** The number of rows the inputs before input `i` contribute: where input `i`'s rows start. */
  function RowsBefore(batch: seq<ResultRecord>, i: nat): nat
    requires i <= |batch|
  {
    SumOf(batch[..i], RowCount())
  }

  lemma {:induction false} SumOfSplit(a: seq<ResultRecord>, b: seq<ResultRecord>, field: ResultRecord -> nat)
    ensures SumOf(a + b, field) == SumOf(a, field) + SumOf(b, field)
    decreases |a|
  {
    if |a| == 0 {
      assert a + b == b;
    } else {
      assert (a + b)[0] == a[0];
      assert (a + b)[1..] == a[1..] + b;
      SumOfSplit(a[1..], b, field);
    }
  }

  /** The concatenated rows are as many as all inputs' rows together. */
  lemma {:induction false} FlatRowsLength(batch: seq<ResultRecord>, first: nat)
    ensures |FlatRows(batch, first)| == SumOf(batch, RowCount())
    decreases |batch|
  {
    if |batch| > 0 {
      FlatRowsLength(batch[1..], first + 1);
    }
  }

  /** Row `k` of input `i` sits at `RowsBefore(i) + k`, re-indexed as input number `first + i`. */
  lemma {:induction false} FlatRowAt(batch: seq<ResultRecord>, first: nat, i: nat, k: nat)
    requires i < |batch| && k < |batch[i].predictions|
    ensures RowsBefore(batch, i) + k < |FlatRows(batch, first)|
    ensures FlatRows(batch, first)[RowsBefore(batch, i) + k]
         == Reindexed(batch[i].predictions[k], first + i, batch[i].fileInfo.filename)
    decreases i
  {
    FlatRowsLength(batch, first);
    SumOfSplit(batch[..i], batch[i..], RowCount());
    assert batch[..i] + batch[i..] == batch;
    assert SumOf(batch[i..], RowCount()) == |batch[i].predictions| + SumOf(batch[i + 1..], RowCount()) by {
      assert batch[i..][1..] == batch[i + 1..];
    }
    if i > 0 {
      FlatRowAt(batch[1..], first + 1, i - 1, k);
      assert batch[1..][..i - 1] == batch[..i][1..];
      assert batch[..i][0] == batch[0];
    }
  }

  /** Row `k` of input `i` appears in `rows` at `RowsBefore(i) + k`, re-indexed as input number `i + 1`. */
  ghost predicate RowPlaced(batch: seq<ResultRecord>, rows: seq<Prediction>, i: nat, k: nat)
    requires i < |batch| && k < |batch[i].predictions|
  {
    && RowsBefore(batch, i) + k < |rows|
    && rows[RowsBefore(batch, i) + k] == Reindexed(batch[i].predictions[k], i + 1, batch[i].fileInfo.filename)
  }

  lemma FlatRowsLayout(batch: seq<ResultRecord>)
    ensures |FlatRows(batch, 1)| == SumOf(batch, RowCount())
    ensures forall i: nat, k: nat :: i < |batch| && k < |batch[i].predictions| ==>
      RowPlaced(batch, FlatRows(batch, 1), i, k)
  {
    FlatRowsLength(batch, 1);
    forall i: nat, k: nat | i < |batch| && k < |batch[i].predictions|
      ensures RowPlaced(batch, FlatRows(batch, 1), i, k)
    {
      FlatRowAt(batch, 1, i, k);
    }
  }

  /**
   * `aggregateBatchResults(batchResults)` with the page's `modelUsed`:
   * null for an absent or empty batch; otherwise sums over all inputs,
   * metadata of the first input, and the inputs' rows concatenated in order
   * and re-indexed. Percentages are computed from the summed counts, with no
   * guard against a zero total.
   */
  function AggregateBatchResults(batchResults: Option<seq<ResultRecord>>, modelUsed: Option<string>)
    : (r: Option<ResultRecord>)
    ensures r.None? <==> batchResults.None? || |batchResults.value| == 0
    ensures r.Some? ==>
      var batch, a := batchResults.value, r.value;
      && a.modelUsed == (if Truthy(modelUsed) then modelUsed.value else batch[0].modelUsed)
      && a.fileInfo.filename == JsText.NatText(|batch|) + " files"
      && a.fileInfo.rowsProcessed == SumOf(batch, RowsProcessed())
      && a.fileInfo.featuresUsed == batch[0].fileInfo.featuresUsed
      && a.visualizations == batch[0].visualizations
      && a.statistics.total == SumOf(batch, TotalPredictions())
      && a.statistics.confirmedCount == SumOf(batch, ConfirmedCount())
      && a.statistics.candidateCount == SumOf(batch, CandidateCount())
      && a.statistics.falsePositiveCount == SumOf(batch, FalsePositiveCount())
      && a.statistics.confirmedPct == Percentage(a.statistics.confirmedCount, a.statistics.total)
      && a.statistics.candidatePct == Percentage(a.statistics.candidateCount, a.statistics.total)
      && a.statistics.falsePositivePct == Percentage(a.statistics.falsePositiveCount, a.statistics.total)
      && a.statistics.breakdown == None
      && |a.predictions| == SumOf(batch, RowCount())
      && forall i: nat, k: nat :: i < |batch| && k < |batch[i].predictions| ==>
           RowPlaced(batch, a.predictions, i, k)
  {
    if batchResults.None? || |batchResults.value| == 0 then None
    else
      var batch := batchResults.value;
      FlatRowsLayout(batch);
      var total := SumOf(batch, TotalPredictions());
      var confirmed := SumOf(batch, ConfirmedCount());
      var candidate := SumOf(batch, CandidateCount());
      var falsePositive := SumOf(batch, FalsePositiveCount());
      Some(ResultRecord(
        OrElse(modelUsed, batch[0].modelUsed),
        FileInfo(JsText.NatText(|batch|) + " files", SumOf(batch, RowsProcessed()), batch[0].fileInfo.featuresUsed),
        // the percentage fields assigned onto the fresh object after it is built
        Statistics(total, falsePositive, candidate, confirmed,
                   Percentage(falsePositive, total), Percentage(candidate, total), Percentage(confirmed, total),
                   None),
        FlatRows(batch, 1),
        batch[0].visualizations))
  }

  /** The counts of a payload add up to its total. */
  predicate CountsAddUp(r: ResultRecord) {
    r.statistics.confirmedCount + r.statistics.candidateCount + r.statistics.falsePositiveCount
      == r.statistics.total
  }

  lemma {:induction false} SumsAddUp(batch: seq<ResultRecord>)
    requires forall j :: 0 <= j < |batch| ==> CountsAddUp(batch[j])
    ensures SumOf(batch, ConfirmedCount()) + SumOf(batch, CandidateCount()) + SumOf(batch, FalsePositiveCount())
         == SumOf(batch, TotalPredictions())
    decreases |batch|
  {
    if |batch| > 0 {
      assert CountsAddUp(batch[0]);
      SumsAddUp(batch[1..]);
    }
  }

  /** If every input's counts add up to its total, so do the aggregate's, and its percentages add up to 100. */
  lemma AggregateKeepsCountsConsistent(batch: seq<ResultRecord>, modelUsed: Option<string>)
    requires |batch| > 0
    requires forall j :: 0 <= j < |batch| ==> CountsAddUp(batch[j])
    ensures CountsAddUp(AggregateBatchResults(Some(batch), modelUsed).value)
    ensures var st := AggregateBatchResults(Some(batch), modelUsed).value.statistics;
      st.total > 0 ==>
        st.confirmedPct.value + st.candidatePct.value + st.falsePositivePct.value == 100.0
  {
    SumsAddUp(batch);
    var st := AggregateBatchResults(Some(batch), modelUsed).value.statistics;
    if st.total > 0 {
      PercentagesSumTo100(st.confirmedCount, st.candidateCount, st.falsePositiveCount, st.total);
    }
  }

  /** With an empty total, the aggregate's percentages are NaN (or Infinity if counts were positive). */
  lemma ZeroTotalPercentages(batch: seq<ResultRecord>, modelUsed: Option<string>)
    requires |batch| > 0
    requires forall j :: 0 <= j < |batch| ==> batch[j].statistics.total == 0 && CountsAddUp(batch[j])
    ensures var st := AggregateBatchResults(Some(batch), modelUsed).value.statistics;
      st.confirmedPct == NaN && st.candidatePct == NaN && st.falsePositivePct == NaN
  {
    SumsAddUp(batch);
    ZeroTotals(batch);
  }

  lemma {:induction false} ZeroTotals(batch: seq<ResultRecord>)
    requires forall j :: 0 <= j < |batch| ==> batch[j].statistics.total == 0
    ensures SumOf(batch, TotalPredictions()) == 0
    decreases |batch|
  {
    if |batch| > 0 {
      ZeroTotals(batch[1..]);
    }
  }

  lemma SumOfSingleton(r: ResultRecord, field: ResultRecord -> nat)
    ensures SumOf([r], field) == field(r)
  {
    assert [r][1..] == [];
  }

  /**
   * A batch of one keeps the total, counts, rows processed, features and
   * visualisations of its input. It does not return the input unchanged: the
   * model is the override when that is truthy, the filename becomes "1 files",
   * the percentages are recomputed, the breakdown is dropped and every row is
   * relabelled with its source file.
   */
  lemma SingleInputAggregate(r: ResultRecord, modelUsed: Option<string>)
    ensures var a := AggregateBatchResults(Some([r]), modelUsed).value;
      && a.modelUsed == (if Truthy(modelUsed) then modelUsed.value else r.modelUsed)
      && a.fileInfo.featuresUsed == r.fileInfo.featuresUsed
      && a.visualizations == r.visualizations
      && a.statistics.confirmedPct == Percentage(r.statistics.confirmedCount, r.statistics.total)
      && a.statistics.candidatePct == Percentage(r.statistics.candidateCount, r.statistics.total)
      && a.statistics.falsePositivePct == Percentage(r.statistics.falsePositiveCount, r.statistics.total)
      && a.statistics.breakdown == None
      && a.statistics.total == r.statistics.total
      && a.statistics.confirmedCount == r.statistics.confirmedCount
      && a.statistics.candidateCount == r.statistics.candidateCount
      && a.statistics.falsePositiveCount == r.statistics.falsePositiveCount
      && a.fileInfo.rowsProcessed == r.fileInfo.rowsProcessed
      && a.fileInfo.filename == "1 files"
      && |a.predictions| == |r.predictions|
      && forall k :: 0 <= k < |r.predictions| ==>
           a.predictions[k] == Reindexed(r.predictions[k], 1, r.fileInfo.filename)
  {
    var a := AggregateBatchResults(Some([r]), modelUsed).value;
    SumOfSingleton(r, TotalPredictions());
    SumOfSingleton(r, ConfirmedCount());
    SumOfSingleton(r, CandidateCount());
    SumOfSingleton(r, FalsePositiveCount());
    SumOfSingleton(r, RowsProcessed());
    SumOfSingleton(r, RowCount());
    assert [r][..0] == [];
    assert RowsBefore([r], 0) == 0;
    forall k: nat | k < |r.predictions|
      ensures a.predictions[k] == Reindexed(r.predictions[k], 1, r.fileInfo.filename)
    {
      assert RowPlaced([r], a.predictions, 0, k);
    }
  }

  /** A row with `row` 3 in the second input is shown as `"2-3"` and keeps 3 as its original row. */
  lemma SecondFileRowLabel(p: Prediction, filename: string)
    requires p.row == RowNum(3)
    ensures RowText(Reindexed(p, 2, filename).row) == "2-3"
    ensures Reindexed(p, 2, filename).originalRow == Some(RowNum(3))
    ensures Reindexed(p, 2, filename).sourceFile == Some(filename)
  {
  }

  /**
   * `getCurrentData`: the aggregate for a batch analysis, nothing for a
   * comparison, and the single payload for 'single' or any other type.
   */
  function CurrentData(analysisType: string, results: Option<ResultRecord>,
                       batchResults: Option<seq<ResultRecord>>, modelUsed: Option<string>): (r: Option<ResultRecord>)
    ensures analysisType == "batch" ==> r == AggregateBatchResults(batchResults, modelUsed)
    ensures analysisType == "comparison" ==> r == None
    ensures analysisType !in {"batch", "comparison"} ==> r == results
  {
    match analysisType
    case "batch" => AggregateBatchResults(batchResults, modelUsed)
    case "comparison" => None
    case _ => results
  }

  /** What the results page shows. */
  datatype Screen = ComparisonScreen(results1: ResultRecord, results2: ResultRecord)
                  | NoResultsScreen
                  | ResultsScreen(data: ResultRecord)
                  | RenderFailure  // properties of a null payload are read: a TypeError

  /**
   * The page's rendering decision: a comparison needs both payloads; a batch
   * needs a non-empty list; otherwise a missing payload shows the empty view,
   * except for a comparison missing a side, which reaches the main view with
   * no data.
   */
  function ChooseScreen(analysisType: string, results: Option<ResultRecord>,
                        batchResults: Option<seq<ResultRecord>>, modelUsed: Option<string>,
                        results1: Option<ResultRecord>, results2: Option<ResultRecord>): (s: Screen)
    ensures s.ComparisonScreen? <==> analysisType == "comparison" && results1.Some? && results2.Some?
    ensures s.ResultsScreen? ==> Some(s.data) == CurrentData(analysisType, results, batchResults, modelUsed)
    ensures s == NoResultsScreen <==>
      analysisType != "comparison" && CurrentData(analysisType, results, batchResults, modelUsed).None?
    ensures s == RenderFailure <==> analysisType == "comparison" && (results1.None? || results2.None?)
  {
    var current := CurrentData(analysisType, results, batchResults, modelUsed);
    if analysisType == "comparison" && results1.Some? && results2.Some? then
      ComparisonScreen(results1.value, results2.value)
    else if analysisType == "batch" && (batchResults.None? || |batchResults.value| == 0) then NoResultsScreen
    else if current.None? && analysisType != "comparison" then NoResultsScreen
    else if current.None? then RenderFailure
    else ResultsScreen(current.value)
  }
}
