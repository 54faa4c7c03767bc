/**
 * The detailed analysis report of one row and the CSV download of the
 * results page (frontend/src/pages/Results.jsx).
 *
 * `Number.prototype.toFixed(1)` is the parameter `fixed1`, the text of a
 * finite number with one decimal; `toFixed` of NaN is "NaN".
 */
module Export {
  import opened Wrappers
  import opened Seqs
  import opened Payload
  import JsText
  import Backend
  import View
  import Labels

  // --------------------------------------------------------------- report

  const ConfirmedTitle: string := "\U{1F30D} CONFIRMED EXOPLANET DETECTION"
  const CandidateTitle: string := "\U{1F50D} POTENTIAL EXOPLANET CANDIDATE"
  const FalsePositiveTitle: string := "\U{274C} LIKELY FALSE POSITIVE"

  datatype Report = Report(
    title: string,
    confidence: string,
    reasoning: seq<string>,
    recommendations: seq<string>,
    color: string)

  /** `(x * 100).toFixed(1)`, where an absent `x` is `undefined` and the product NaN. */
  function PercentText(fixed1: real -> string, x: Option<real>): string {
    if x.None? then "NaN" else fixed1(x.value * 100.0)
  }

  const ConfirmedReport: Report := Report(
    ConfirmedTitle, "",
    ["Strong periodic transit signal detected with high signal-to-noise ratio",
     "Transit depth and duration consistent with planetary characteristics",
     "Multiple validation checks passed including centroid motion analysis",
     "Statistical significance exceeds 5-sigma threshold",
     "Light curve shows clear ingress and egress patterns"],
    ["Schedule follow-up observations with larger telescopes",
     "Perform radial velocity measurements for mass determination",
     "Submit for official confirmation to exoplanet archives",
     "Monitor for additional transits to refine orbital parameters"],
    "#4CAF50")

  const CandidateReport: Report := Report(
    CandidateTitle, "",
    ["Promising transit-like signal detected but requires verification",
     "Moderate signal-to-noise ratio with some background noise",
     "Orbital period shows consistency with known exoplanet distributions",
     "Secondary eclipse not detected (supports planetary hypothesis)",
     "Further observations needed to rule out false positives"],
    ["Conduct additional photometric observations",
     "Perform speckle imaging to check for nearby contaminants",
     "Analyze centroid shifts to verify source location",
     "Compare with known variable star catalogs"],
    "#FF9800")

  const FalsePositiveReport: Report := Report(
    FalsePositiveTitle, "",
    ["Signal characteristics inconsistent with planetary transits",
     "High probability of instrumental artifacts or systematic errors",
     "Light curve shows irregular patterns suggesting stellar variability",
     "Depth-to-duration ratio outside expected planetary ranges",
     "No corresponding signal in other validation pipelines"],
    ["Review raw data for instrumental issues",
     "Check for nearby bright stars causing contamination",
     "Analyze different quarters for consistency",
     "Compare with known eclipsing binary patterns"],
    "#f44336")

  /** The report title: CONFIRMED is looked for first, then CANDIDATE; every other label reads as a false positive. */
  function TitleOf(text: string): (title: string)
    ensures title == ConfirmedTitle <==> JsText.Includes(text, "CONFIRMED")
    ensures title == CandidateTitle <==> !JsText.Includes(text, "CONFIRMED") && JsText.Includes(text, "CANDIDATE")
    ensures title == FalsePositiveTitle
            <==> !JsText.Includes(text, "CONFIRMED") && !JsText.Includes(text, "CANDIDATE")
  {
    if JsText.Includes(text, "CONFIRMED") then ConfirmedTitle
    else if JsText.Includes(text, "CANDIDATE") then CandidateTitle
    else FalsePositiveTitle
  }

  /** The report template that goes with a title. */
  function TemplateFor(title: string): (r: Report)
    ensures r.title == (if title == ConfirmedTitle || title == CandidateTitle then title else FalsePositiveTitle)
    ensures r.confidence == ""
  {
    if title == ConfirmedTitle then ConfirmedReport
    else if title == CandidateTitle then CandidateReport
    else FalsePositiveReport
  }

  /**
   * `generateDetailedReport`: the template chosen by the label text, with
   * the row's confidence in percent.
   */
  function DetailedReport(p: Prediction, fixed1: real -> string): (r: Report)
    ensures r.title == TitleOf(p.prediction)
    ensures r.confidence == PercentText(fixed1, p.confidence)
    ensures r.(confidence := "") == TemplateFor(r.title)
  {
    TemplateFor(TitleOf(p.prediction)).(confidence := PercentText(fixed1, p.confidence))
  }

  /** For a back-end label the template follows the code; UNKNOWN rows get the false-positive report. */
  lemma ReportFollowsCode(p: Prediction, fixed1: real -> string)
    requires p.prediction == Backend.LabelOf(p.code)
    ensures var r := DetailedReport(p, fixed1);
      && (p.code == 2 ==> r.title == ConfirmedTitle && r.color == "#4CAF50")
      && (p.code == 1 ==> r.title == CandidateTitle && r.color == "#FF9800")
      && (p.code != 1 && p.code != 2 ==> r.title == FalsePositiveTitle && r.color == "#f44336")
  {
    Labels.LabelNames(p.code);
  }

  // ------------------------------------------------------------------ CSV

  const Header: seq<string> :=
    ["Row", "Prediction", "Confidence", "Confirmed_Prob", "Candidate_Prob", "FalsePositive_Prob",
     "Analysis", "SourceFile"]

  /** The three glyphs the export's character class removes. */
  predicate IsGlyph(c: char) {
    c == '\U{1F30D}' || c == '\U{1F50D}' || c == '\U{274C}'
  }

  function NotGlyph(): char -> bool {
    (c: char) => !IsGlyph(c)
  }

  /** `replace(/[🌍🔍❌]/g, '').trim()`. */
  function PredictionCell(text: string): (cell: string)
    ensures forall c :: c in cell ==> c in text && !IsGlyph(c)
    ensures cell == [] || (!JsText.IsJsWhitespace(cell[0]) && !JsText.IsJsWhitespace(cell[|cell| - 1]))
  {
    GlyphFreeCell(text);
    JsText.Trim(Filter(text, NotGlyph()))
  }

  /** The characters left after removing the glyphs and trimming come from the label and are not glyphs. */
  lemma GlyphFreeCell(text: string)
    ensures forall c :: c in JsText.Trim(Filter(text, NotGlyph())) ==> c in text && !IsGlyph(c)
  {
    var stripped := Filter(text, NotGlyph());
    JsText.TrimKeepsChars(stripped);
    forall c | c in stripped
      ensures c in text && !IsGlyph(c)
    {
      assert NotGlyph()(c);
    }
  }

  /** `pred.originalRow || pred.row`: an original row is used unless absent or the number 0. */
  function RowCell(p: Prediction): string {
    if p.originalRow.Some? && p.originalRow.value != RowNum(0) then RowText(p.originalRow.value)
    else RowText(p.row)
  }

  /** `${(x * 100).toFixed(1)}%`. */
  function PercentCell(fixed1: real -> string, x: Option<real>): (cell: string)
    ensures |cell| >= 1 && cell[|cell| - 1] == '%'
    ensures x.None? ==> cell == "NaN%"
  {
    PercentText(fixed1, x) + "%"
  }

  /**
   * The eight cells of one row, or None where reading `pred.probabilities`'
   * fields throws because the row has no probabilities.
   */
  function CsvRow(p: Prediction, filename: string, fixed1: real -> string): (cells: Option<seq<string>>)
    ensures cells.Some? <==> p.probabilities.Some?
    ensures cells.Some? ==> |cells.value| == |Header|
  {
    match p.probabilities
    case None => None
    case Some(probs) =>
      Some(Cells8(
        RowCell(p),
        PredictionCell(p.prediction),
        PercentCell(fixed1, p.confidence),
        PercentCell(fixed1, Some(probs.confirmed)),
        PercentCell(fixed1, Some(probs.candidate)),
        PercentCell(fixed1, Some(probs.falsePositive)),
        TitleOf(p.prediction),
        OrElse(p.sourceFile, filename)))
  }

  /** The eight cells of a row, in the order of `Header`. */
  function Cells8(c0: string, c1: string, c2: string, c3: string, c4: string, c5: string, c6: string, c7: string)
    : (cells: seq<string>)
    ensures |cells| == 8
    ensures cells[0] == c0 && cells[1] == c1 && cells[2] == c2 && cells[3] == c3
    ensures cells[4] == c4 && cells[5] == c5 && cells[6] == c6 && cells[7] == c7
  {
    [c0, c1, c2, c3, c4, c5, c6, c7]
  }

  /** The rows of every prediction; the first row that throws aborts the whole download. */
  function CsvRows(preds: seq<Prediction>, filename: string, fixed1: real -> string): (rows: Option<seq<seq<string>>>)
    ensures rows.Some? <==> forall k :: 0 <= k < |preds| ==> preds[k].probabilities.Some?
    ensures rows.Some? ==> |rows.value| == |preds|
    ensures rows.Some? ==> forall k :: 0 <= k < |preds| ==> rows.value[k] == CsvRow(preds[k], filename, fixed1).value
    decreases |preds|
  {
    if |preds| == 0 then Some([])
    else if preds[0].probabilities.None? then None
    else
      var rest := CsvRows(preds[1..], filename, fixed1);
      if rest.None? then
        assert exists k :: 0 <= k < |preds[1..]| && preds[1..][k].probabilities.None?;
        None
      else
        Some([CsvRow(preds[0], filename, fixed1).value] + rest.value)
  }

  function JoinCells(): seq<string> -> string {
    (row: seq<string>) => JsText.Join(row, ",")
  }

  /** `[headers, ...csvData].map(row => row.join(',')).join('\n')`. */
  function CsvContent(data: ResultRecord, fixed1: real -> string): (text: Option<string>)
    ensures text.Some? <==> forall k :: 0 <= k < |data.predictions| ==> data.predictions[k].probabilities.Some?
  {
    match CsvRows(data.predictions, data.fileInfo.filename, fixed1)
    case None => None
    case Some(rows) => Some(JsText.Join(CsvLines(rows), "\n"))
  }

  function CsvLines(rows: seq<seq<string>>): (lines: seq<string>)
    ensures |lines| == |rows| + 1
    ensures lines[0] == JsText.Join(Header, ",")
    ensures forall k :: 0 <= k < |rows| ==> lines[k + 1] == JsText.Join(rows[k], ",")
  {
    [JsText.Join(Header, ",")] + seq(|rows|, k requires 0 <= k < |rows| => JsText.Join(rows[k], ","))
  }

  /** `spaceex_${analysisType}_results_${model_used}_${date}.csv`, the date cut at the 'T' of an ISO timestamp. */
  function ExportFileName(analysisType: string, modelUsed: string, isoTimestamp: string): (name: string)
    ensures "spaceex_" <= name
    ensures JsText.EndsWith(name, ".csv")
  {
    "spaceex_" + analysisType + "_results_" + modelUsed + "_" + JsText.Split(isoTimestamp, 'T')[0] + ".csv"
  }

  lemma ExportFileNameDate(analysisType: string, modelUsed: string, date: string, time: string)
    requires 'T' !in date
    ensures ExportFileName(analysisType, modelUsed, date + "T" + time)
         == "spaceex_" + analysisType + "_results_" + modelUsed + "_" + date + ".csv"
  {
    JsText.SplitAtSep(date, time, 'T');
  }

  // ----------------------------------------------------- export properties

  /** A cell that neither the ',' nor the '\n' of the CSV text can occur in. */
  predicate Clean(s: string) {
    ',' !in s && '\n' !in s
  }

  lemma NatTextClean(n: nat)
    ensures Clean(JsText.NatText(n))
  {
    var t := JsText.NatText(n);
    assert forall c :: c in t ==> JsText.IsDigit(c);
  }

  lemma {:induction false} RowTextClean(r: RowId)
    ensures Clean(RowText(r))
  {
    match r
    case RowNum(n) =>
      NatTextClean(if n < 0 then -n else n);
    case BatchRow(b, inner) =>
      RowTextClean(inner);
      NatTextClean(b);
  }

  lemma ConfirmedTitleClean()
    ensures Clean(ConfirmedTitle)
  {
  }

  lemma CandidateTitleClean()
    ensures Clean(CandidateTitle)
  {
  }

  lemma FalsePositiveTitleClean()
    ensures Clean(FalsePositiveTitle)
  {
  }

  lemma TitleClean(text: string)
    ensures Clean(TitleOf(text))
  {
    var t := TitleOf(text);
    if t == ConfirmedTitle {
      ConfirmedTitleClean();
    } else if t == CandidateTitle {
      CandidateTitleClean();
    } else {
      FalsePositiveTitleClean();
    }
  }

  lemma RowCellClean(p: Prediction)
    ensures Clean(RowCell(p))
  {
    RowTextClean(p.row);
    if p.originalRow.Some? {
      RowTextClean(p.originalRow.value);
    }
  }

  lemma PercentCellClean(fixed1: real -> string, x: Option<real>)
    requires forall v :: Clean(fixed1(v))
    ensures Clean(PercentCell(fixed1, x))
  {
    if x.Some? {
      assert Clean(fixed1(x.value * 100.0));
    }
  }

  lemma PredictionCellClean(text: string)
    requires Clean(text)
    ensures Clean(PredictionCell(text))
  {
    var stripped := Filter(text, NotGlyph());
    var t := JsText.TrimStart(stripped);
    assert JsText.Trim(stripped) == JsText.TrimEnd(t);
    assert forall c :: c in JsText.TrimEnd(t) ==> c in t;
    assert forall c :: c in t ==> c in stripped;
  }

  /** The inputs a download needs for its text to read back as the rows it wrote. */
  ghost predicate Exportable(data: ResultRecord, fixed1: real -> string) {
    && (forall x :: Clean(fixed1(x)))
    && forall p :: p in data.predictions ==>
         Clean(p.prediction) && Clean(OrElse(p.sourceFile, data.fileInfo.filename))
  }

  lemma HeaderClean()
    ensures forall k :: 0 <= k < |Header| ==> Clean(Header[k])
  {
    forall k | 0 <= k < |Header| ensures Clean(Header[k]) {
      if k == 0 {} else if k == 1 {} else if k == 2 {} else if k == 3 {}
      else if k == 4 {} else if k == 5 {} else if k == 6 {} else {}
    }
  }

  /** The cells of a row with probabilities, column by column. */
  lemma CsvRowCells(p: Prediction, filename: string, fixed1: real -> string)
    requires p.probabilities.Some?
    ensures var cells, probs := CsvRow(p, filename, fixed1).value, p.probabilities.value;
      && cells[0] == RowCell(p)
      && cells[1] == PredictionCell(p.prediction)
      && cells[2] == PercentCell(fixed1, p.confidence)
      && cells[3] == PercentCell(fixed1, Some(probs.confirmed))
      && cells[4] == PercentCell(fixed1, Some(probs.candidate))
      && cells[5] == PercentCell(fixed1, Some(probs.falsePositive))
      && cells[6] == TitleOf(p.prediction)
      && cells[7] == OrElse(p.sourceFile, filename)
  {
  }

  /** The seven cells before the file name are clean whatever the file name is. */
  lemma LeadingCellsClean(p: Prediction, filename: string, fixed1: real -> string)
    requires p.probabilities.Some?
    requires forall x :: Clean(fixed1(x))
    requires Clean(p.prediction)
    ensures forall k :: 0 <= k < 7 ==> Clean(CsvRow(p, filename, fixed1).value[k])
    ensures CsvRow(p, filename, fixed1).value[7] == OrElse(p.sourceFile, filename)
  {
    var probs := p.probabilities.value;
    var cells := CsvRow(p, filename, fixed1).value;
    CsvRowCells(p, filename, fixed1);
    RowCellClean(p);
    PredictionCellClean(p.prediction);
    PercentCellClean(fixed1, p.confidence);
    PercentCellClean(fixed1, Some(probs.confirmed));
    PercentCellClean(fixed1, Some(probs.candidate));
    PercentCellClean(fixed1, Some(probs.falsePositive));
    TitleClean(p.prediction);
    forall k | 0 <= k < 7 ensures Clean(cells[k]) {
      if k == 0 {} else if k == 1 {} else if k == 2 {} else if k == 3 {}
      else if k == 4 {} else if k == 5 {} else {}
    }
  }

  lemma CsvRowClean(p: Prediction, filename: string, fixed1: real -> string)
    requires p.probabilities.Some?
    requires forall x :: Clean(fixed1(x))
    requires Clean(p.prediction) && Clean(OrElse(p.sourceFile, filename))
    ensures forall k :: 0 <= k < |Header| ==> Clean(CsvRow(p, filename, fixed1).value[k])
  {
    LeadingCellsClean(p, filename, fixed1);
  }

  lemma {:induction false} JoinAvoids(parts: seq<string>, sep: string, c: char)
    requires c !in sep
    requires forall k :: 0 <= k < |parts| ==> c !in parts[k]
    ensures c !in JsText.Join(parts, sep)
    decreases |parts|
  {
    if |parts| > 1 {
      JoinAvoids(parts[1..], sep, c);
    }
  }

  /** A line of clean cells holds no '\n' and splits back into its cells. */
  lemma LineReadsBack(cells: seq<string>)
    requires |cells| >= 1
    requires forall k :: 0 <= k < |cells| ==> Clean(cells[k])
    ensures '\n' !in JsText.Join(cells, ",")
    ensures JsText.Split(JsText.Join(cells, ","), ',') == cells
  {
    JsText.SplitJoin(cells, ',');
    JoinAvoids(cells, ",", '\n');
  }

  /**
   * Re-reading the download: when no cell holds ',' or '\n', splitting the
   * text at '\n' gives the header line and one line per prediction, and
   * splitting each line at ',' gives back exactly the cells written for it.
   */
  lemma CsvReadsBack(data: ResultRecord, fixed1: real -> string)
    requires forall k :: 0 <= k < |data.predictions| ==> data.predictions[k].probabilities.Some?
    requires Exportable(data, fixed1)
    ensures var lines := JsText.Split(CsvContent(data, fixed1).value, '\n');
      && |lines| == |data.predictions| + 1
      && JsText.Split(lines[0], ',') == Header
      && forall k :: 0 <= k < |data.predictions| ==>
           JsText.Split(lines[k + 1], ',')
           == CsvRow(data.predictions[k], data.fileInfo.filename, fixed1).value
  {
    var rows := CsvRows(data.predictions, data.fileInfo.filename, fixed1).value;
    var lines := CsvLines(rows);
    RowsReadBack(data.predictions, data.fileInfo.filename, fixed1, rows);
    HeaderClean();
    LineReadsBack(Header);
    forall k | 0 <= k < |lines| ensures '\n' !in lines[k] {
      if k > 0 {
        assert lines[k] == JsText.Join(rows[k - 1], ",");
      }
    }
    LinesReadBack(lines);
  }

  lemma RowsReadBack(preds: seq<Prediction>, filename: string, fixed1: real -> string, rows: seq<seq<string>>)
    requires CsvRows(preds, filename, fixed1) == Some(rows)
    requires forall x :: Clean(fixed1(x))
    requires forall p :: p in preds ==> Clean(p.prediction) && Clean(OrElse(p.sourceFile, filename))
    ensures forall k :: 0 <= k < |rows| ==>
      '\n' !in JsText.Join(rows[k], ",") && JsText.Split(JsText.Join(rows[k], ","), ',') == rows[k]
  {
    forall k | 0 <= k < |rows|
      ensures '\n' !in JsText.Join(rows[k], ",") && JsText.Split(JsText.Join(rows[k], ","), ',') == rows[k]
    {
      assert preds[k] in preds;
      CsvRowClean(preds[k], filename, fixed1);
      LineReadsBack(rows[k]);
    }
  }

  lemma LinesReadBack(lines: seq<string>)
    requires |lines| >= 1
    requires forall k :: 0 <= k < |lines| ==> '\n' !in lines[k]
    ensures JsText.Split(JsText.Join(lines, "\n"), '\n') == lines
  {
    JsText.SplitJoin(lines, '\n');
  }

  lemma {:induction false} JoinMergeLast(parts: seq<string>, x: string, y: string, sep: string)
    requires |parts| >= 1
    ensures JsText.Join(parts + [x, y], sep) == JsText.Join(parts + [x + sep + y], sep)
    decreases |parts|
  {
    if |parts| == 1 {
      var z := x + sep + y;
      assert parts + [x, y] == [parts[0], x, y];
      assert parts + [z] == [parts[0], z];
      assert [parts[0], x, y][1..] == [x, y];
      assert [x, y][1..] == [y];
      assert [parts[0], z][1..] == [z];
      assert JsText.Join([x, y], sep) == z;
      assert JsText.Join([parts[0], x, y], sep) == parts[0] + sep + z;
    } else {
      JoinMergeLast(parts[1..], x, y, sep);
      assert (parts + [x, y])[1..] == parts[1..] + [x, y];
      assert (parts + [x + sep + y])[1..] == parts[1..] + [x + sep + y];
    }
  }

  /**
   * The export does not quote cells: a file name with a comma in it reads
   * back as nine fields, its two halves in the last two columns.
   */
  lemma CommaInSourceFileAddsColumn(p: Prediction, filename: string, fixed1: real -> string, x: string, y: string)
    requires p.probabilities.Some?
    requires forall v :: Clean(fixed1(v))
    requires Clean(p.prediction) && Clean(x) && Clean(y)
    requires OrElse(p.sourceFile, filename) == x + "," + y
    ensures var cells := CsvRow(p, filename, fixed1).value;
      JsText.Split(JsText.Join(cells, ","), ',') == cells[..7] + [x, y]
  {
    var cells := CsvRow(p, filename, fixed1).value;
    var lead := cells[..7];
    assert cells == lead + [x + "," + y] && forall k :: 0 <= k < |lead| ==> ',' !in lead[k] by {
      LeadingCellsClean(p, filename, fixed1);
    }
    SplitMergedLast(lead, x, y);
  }

  /** Clean cells followed by one cell "x,y": splitting the line gives x and y as two cells. */
  lemma SplitMergedLast(lead: seq<string>, x: string, y: string)
    requires |lead| >= 1
    requires forall k :: 0 <= k < |lead| ==> ',' !in lead[k]
    requires ',' !in x && ',' !in y
    ensures JsText.Split(JsText.Join(lead + [x + "," + y], ","), ',') == lead + [x, y]
  {
    var all := lead + [x, y];
    JoinMergeLast(lead, x, y, ",");
    CommaFreeAppend(lead, x, y);
    JsText.SplitJoin(all, ',');
  }

  lemma CommaFreeAppend(lead: seq<string>, x: string, y: string)
    requires forall k :: 0 <= k < |lead| ==> ',' !in lead[k]
    requires ',' !in x && ',' !in y
    ensures forall k :: 0 <= k < |lead + [x, y]| ==> ',' !in (lead + [x, y])[k]
  {
  }

  /** A glyph, a space and a glyph-free name: the Prediction column holds the name. */
  lemma StripGlyphLabel(glyph: char, name: string)
    requires IsGlyph(glyph) && |name| > 0
    requires forall c :: c in name ==> !IsGlyph(c)
    requires !JsText.IsJsWhitespace(name[0]) && !JsText.IsJsWhitespace(name[|name| - 1])
    ensures PredictionCell([glyph] + " " + name) == name
  {
    var text, tail := [glyph] + " " + name, " " + name;
    assert text == [glyph] + tail;
    assert Filter(text, NotGlyph()) == tail by {
      assert forall c :: c in tail ==> c == ' ' || c in name;
      FilterKeepsNone([glyph], NotGlyph());
      FilterKeepsAll(tail, NotGlyph());
      FilterConcat([glyph], tail, NotGlyph());
    }
    StripLeadingSpace(name);
  }

  lemma NoGlyphInName(name: string)
    requires forall k :: 0 <= k < |name| ==> 'A' <= name[k] <= 'Z' || name[k] == ' '
    ensures forall c :: c in name ==> !IsGlyph(c)
  {
  }

  lemma FalsePositiveCell()
    ensures PredictionCell("\U{274C} FALSE POSITIVE") == "FALSE POSITIVE"
  {
    var name := "FALSE POSITIVE";
    NoGlyphInName(name);
    assert "\U{274C} FALSE POSITIVE" == ['\U{274C}'] + " " + name;
    StripGlyphLabel('\U{274C}', name);
  }

  lemma CandidateCell()
    ensures PredictionCell("\U{1F50D} CANDIDATE") == "CANDIDATE"
  {
    var name := "CANDIDATE";
    NoGlyphInName(name);
    assert "\U{1F50D} CANDIDATE" == ['\U{1F50D}'] + " " + name;
    StripGlyphLabel('\U{1F50D}', name);
  }

  lemma ConfirmedCell()
    ensures PredictionCell("\U{1F30D} CONFIRMED") == "CONFIRMED"
  {
    var name := "CONFIRMED";
    NoGlyphInName(name);
    assert "\U{1F30D} CONFIRMED" == ['\U{1F30D}'] + " " + name;
    StripGlyphLabel('\U{1F30D}', name);
  }

  lemma KeepGlyphLabel(glyph: char, name: string)
    requires !IsGlyph(glyph) && !JsText.IsJsWhitespace(glyph) && |name| > 0
    requires forall c :: c in name ==> !IsGlyph(c)
    requires !JsText.IsJsWhitespace(name[|name| - 1])
    ensures PredictionCell([glyph] + " " + name) == [glyph] + " " + name
  {
    var text := [glyph] + " " + name;
    assert forall c :: c in text ==> c == glyph || c == ' ' || c in name;
    FilterKeepsAll(text, NotGlyph());
    assert text[|text| - 1] == name[|name| - 1];
    JsText.TrimOfTrimmed(text);
  }

  /** The export's character class does not hold the question-mark glyph, so UNKNOWN keeps it. */
  lemma UnknownCell()
    ensures PredictionCell("\U{2753} UNKNOWN") == "\U{2753} UNKNOWN"
  {
    var name := "UNKNOWN";
    NoGlyphInName(name);
    assert "\U{2753} UNKNOWN" == ['\U{2753}'] + " " + name;
    KeepGlyphLabel('\U{2753}', name);
  }

  /** A back-end label loses its glyph: the Prediction column holds the bare class name. */
  lemma PredictionCellOfLabel(c: int)
    ensures c == 0 ==> PredictionCell(Backend.LabelOf(c)) == "FALSE POSITIVE"
    ensures c == 1 ==> PredictionCell(Backend.LabelOf(c)) == "CANDIDATE"
    ensures c == 2 ==> PredictionCell(Backend.LabelOf(c)) == "CONFIRMED"
    ensures c !in {0, 1, 2} ==> PredictionCell(Backend.LabelOf(c)) == "\U{2753} UNKNOWN"
  {
    Backend.LabelsByCode(c);
    if c == 0 {
      FalsePositiveCell();
    } else if c == 1 {
      CandidateCell();
    } else if c == 2 {
      ConfirmedCell();
    } else {
      UnknownCell();
    }
  }

  lemma StripLeadingSpace(s: string)
    requires |s| > 0 && !JsText.IsJsWhitespace(s[0]) && !JsText.IsJsWhitespace(s[|s| - 1])
    ensures JsText.Trim(" " + s) == s
  {
    assert (" " + s)[1..] == s;
    JsText.TrimOfTrimmed(s);
  }
}
