/**
 * The shape of one inference-result payload, as the back end returns it and
 * as the results page reads it.
 */
module Payload {
  import opened Wrappers
  import opened JsNumbers
  import JsText

  /**
   * The `row` field: a number from the back end (1-based), or the string
   * `"{batch}-{row}"` that batch aggregation writes over it.
   */
  datatype RowId = RowNum(n: int) | BatchRow(batch: nat, inner: RowId)

  /** The text a template literal or `Array.prototype.join` writes for a row value. */
  function RowText(r: RowId): string {
    match r
    case RowNum(n) => JsText.IntText(n)
    case BatchRow(b, inner) => JsText.NatText(b) + "-" + RowText(inner)
  }

  datatype Probabilities = Probabilities(falsePositive: real, candidate: real, confirmed: real)

  /** One decoded row; `prediction` is the display label, `originalRow` and `sourceFile` exist only after batch aggregation. */
  datatype Prediction = Prediction(
    row: RowId,
    prediction: string,
    code: int,
    color: string,
    confidence: Option<real>,
    probabilities: Option<Probabilities>,
    originalRow: Option<RowId>,
    sourceFile: Option<string>)

  /** The back end's `prediction_breakdown` dictionary. */
  datatype Counts = Counts(falsePositive: nat, candidate: nat, confirmed: nat)

  datatype Statistics = Statistics(
    total: nat,
    falsePositiveCount: nat,
    candidateCount: nat,
    confirmedCount: nat,
    falsePositivePct: JsNumber,
    candidatePct: JsNumber,
    confirmedPct: JsNumber,
    breakdown: Option<Counts>)

  datatype FileInfo = FileInfo(filename: string, rowsProcessed: nat, featuresUsed: nat)

  /** One result payload. Visualisations map a plot name to an opaque image reference. */
  datatype ResultRecord = ResultRecord(
    modelUsed: string,
    fileInfo: FileInfo,
    statistics: Statistics,
    predictions: seq<Prediction>,
    visualizations: map<string, string>)

  /** JavaScript truthiness of an optional string: present and not empty. */
  predicate Truthy(s: Option<string>) {
    s.Some? && s.value != ""
  }

  /** `a || b` for an optional string and a fallback. */
  function OrElse(a: Option<string>, b: string): (r: string)
    ensures Truthy(a) ==> r == a.value
    ensures !Truthy(a) ==> r == b
  {
    if Truthy(a) then a.value else b
  }
}
