/**
 * The upload page (frontend/src/pages/Predict.jsx): validation of a CSV
 * file's header line and its preview rows, and the page state that holds
 * the selected files, their previews and the error message.
 */
module Predict {
  import opened Wrappers
  import opened Seqs
  import JsText

  /** The feature columns every uploaded CSV must have. */
  const RequiredColumns: seq<string> := [
    "period", "planet_radius", "depth", "equilibrium_temp", "insolation",
    "impact", "duration", "star_radius", "star_mass", "star_teff", "kepmag",
    "planet_density_ratio", "log_period", "stellar_flux", "temp_ratio"]

  /** A selected file: its name and the text a FileReader reads from it. */
  datatype File = File(name: string, text: string)

  /** What a successful validation resolves with. */
  datatype CsvPreview = CsvPreview(
    headers: seq<string>,
    preview: seq<map<string, string>>,
    totalRows: nat,
    fileName: string)

  // ------------------------------------------------------- validateCSV

  function Lines(text: string): seq<string> {
    JsText.Split(text, '\n')
  }

  /** `h.trim().toLowerCase()`. */
  function NormaliseHeader(h: string): string {
    JsText.ToLower(JsText.Trim(h))
  }

  /** The first line split at ',' with every name normalised. */
  function Headers(text: string): (headers: seq<string>)
    ensures |headers| >= 1
    ensures forall k :: 0 <= k < |headers| ==> JsText.HasNoUpper(headers[k])
  {
    var parts := JsText.Split(Lines(text)[0], ',');
    forall k | 0 <= k < |parts| {
      JsText.ToLowerIdempotent(JsText.Trim(parts[k]));
    }
    seq(|parts|, k requires 0 <= k < |parts| => NormaliseHeader(parts[k]))
  }

  function IsMissing(headers: seq<string>): string -> bool {
    (col: string) => JsText.ToLower(col) !in headers
  }

  /** The required columns that the headers lack, in the required list's order. */
  function Missing(headers: seq<string>, required: seq<string>): (missing: seq<string>)
    ensures |missing| <= |required|
    ensures forall c :: c in missing ==> c in required
    decreases |required|
  {
    if |required| == 0 then []
    else (if JsText.ToLower(required[0]) !in headers then [required[0]] else []) + Missing(headers, required[1..])
  }

  /** `requiredColumns.filter(...)`. */
  lemma {:induction false} MissingIsFilter(headers: seq<string>, required: seq<string>)
    ensures Missing(headers, required) == Filter(required, IsMissing(headers))
    decreases |required|
  {
    if |required| > 0 {
      MissingIsFilter(headers, required[1..]);
    }
  }

  function MissingMessage(missing: seq<string>): string {
    "Missing required columns: " + JsText.Join(missing, ", ")
  }

  function NotBlank(): string -> bool {
    (line: string) => JsText.Trim(line) != ""
  }

  /** The lines whose trim is not empty, in order. */
  function NonBlank(lines: seq<string>): seq<string>
    decreases |lines|
  {
    if |lines| == 0 then []
    else (if JsText.Trim(lines[0]) != "" then [lines[0]] else []) + NonBlank(lines[1..])
  }

  /** `.filter(line => line.trim())`. */
  lemma {:induction false} NonBlankIsFilter(lines: seq<string>)
    ensures NonBlank(lines) == Filter(lines, NotBlank())
    decreases |lines|
  {
    if |lines| > 0 {
      NonBlankIsFilter(lines[1..]);
    }
  }

  /** `lines.slice(1, 6).filter(line => line.trim())`. */
  function PreviewLines(lines: seq<string>): (preview: seq<string>)
    requires |lines| >= 1
    ensures |preview| <= 5
    ensures forall l :: l in preview ==> JsText.Trim(l) != "" && l in lines[1..]
  {
    NonBlankIsFilter(lines[1..if |lines| < 6 then |lines| else 6]);
    NonBlank(lines[1..if |lines| < 6 then |lines| else 6])
  }

  /** `values[index]?.trim() || ''`. */
  function CellAt(values: seq<string>, j: nat): string {
    if j < |values| then JsText.Trim(values[j]) else ""
  }

  /**
   * The object the `forEach` over the headers fills in: a later duplicate
   * header overwrites an earlier one. Every header becomes a key, including
   * `__proto__`, which a plain JavaScript object would not store.
   */
  function RowMap(headers: seq<string>, values: seq<string>): (row: map<string, string>)
    ensures forall h :: h in row ==> h in headers
    decreases |headers|
  {
    if |headers| == 0 then map[]
    else RowMap(headers[..|headers| - 1], values)[headers[|headers| - 1] := CellAt(values, |headers| - 1)]
  }

  function PreviewOf(headers: seq<string>, lines: seq<string>): seq<map<string, string>> {
    seq(|lines|, k requires 0 <= k < |lines| => RowMap(headers, JsText.Split(lines[k], ',')))
  }

  lemma PreviewOfSnoc(headers: seq<string>, lines: seq<string>, k: nat)
    requires k < |lines|
    ensures PreviewOf(headers, lines[..k + 1])
         == PreviewOf(headers, lines[..k]) + [RowMap(headers, JsText.Split(lines[k], ','))]
  {
    var longer := PreviewOf(headers, lines[..k + 1]);
    var shorter := PreviewOf(headers, lines[..k]);
    forall i | 0 <= i < k
      ensures longer[i] == shorter[i]
    {
      assert lines[..k + 1][i] == lines[..k][i];
    }
    assert longer[k] == RowMap(headers, JsText.Split(lines[k], ','));
  }

  /** What `validateCSV` resolves or rejects with for a file's text, given the required columns. */
  function Validation(file: File, required: seq<string>): (r: Result<CsvPreview, string>)
    ensures r.Err? <==> |Missing(Headers(file.text), required)| > 0
    ensures r.Ok? ==> r.value.headers == Headers(file.text) && r.value.fileName == file.name
    ensures r.Ok? ==> |r.value.preview| <= 5
  {
    var lines := Lines(file.text);
    var headers := Headers(file.text);
    var missing := Missing(headers, required);
    if |missing| > 0 then Err(MissingMessage(missing))
    else Ok(CsvPreview(headers, PreviewOf(headers, PreviewLines(lines)), |lines| - 1, file.name))
  }

  /** The `forEach` that fills one preview row. */
  method PreviewRow(headers: seq<string>, values: seq<string>) returns (rowData: map<string, string>)
    ensures rowData == RowMap(headers, values)
  {
    rowData := map[];
    var j := 0;
    while j < |headers|
      invariant 0 <= j <= |headers|
      invariant rowData == RowMap(headers[..j], values)
    {
      assert headers[..j + 1][..j] == headers[..j];
      rowData := rowData[headers[j] := CellAt(values, j)];
      j := j + 1;
    }
    assert headers[..|headers|] == headers;
  }

  /** The body of the reader's `onload`: header check, then the preview rows. */
  method ValidateCsv(file: File, required: seq<string>) returns (r: Result<CsvPreview, string>)
    ensures r == Validation(file, required)
  {
    var lines := Lines(file.text);
    var headers := Headers(file.text);
    var missing := Missing(headers, required);
    if |missing| > 0 {
      return Err(MissingMessage(missing));
    }
    var previewLines := PreviewLines(lines);
    var preview: seq<map<string, string>> := [];
    var k := 0;
    while k < |previewLines|
      invariant 0 <= k <= |previewLines|
      invariant preview == PreviewOf(headers, previewLines[..k])
    {
      var row := PreviewRow(headers, JsText.Split(previewLines[k], ','));
      PreviewOfSnoc(headers, previewLines, k);
      preview := preview + [row];
      k := k + 1;
    }
    assert previewLines[..k] == previewLines;
    r := Ok(CsvPreview(headers, preview, |lines| - 1, file.name));
  }

  // ------------------------------------------------- validation properties

  lemma RequiredColumnsLowercase()
    ensures forall k :: 0 <= k < |RequiredColumns| ==> JsText.ToLower(RequiredColumns[k]) == RequiredColumns[k]
  {
    forall k | 0 <= k < |RequiredColumns|
      ensures JsText.ToLower(RequiredColumns[k]) == RequiredColumns[k]
    {
      var c := RequiredColumns[k];
      assert JsText.HasNoUpper(c) by {
        if k == 0 {} else if k == 1 {} else if k == 2 {} else if k == 3 {} else if k == 4 {}
        else if k == 5 {} else if k == 6 {} else if k == 7 {} else if k == 8 {} else if k == 9 {}
        else if k == 10 {} else if k == 11 {} else if k == 12 {} else if k == 13 {} else {}
      }
      JsText.ToLowerOfLower(c);
    }
  }

  /** Over lower-case required names, a name is reported missing exactly when no normalised header equals it. */
  lemma MissingOfLowercase(headers: seq<string>, required: seq<string>, col: string)
    requires forall k :: 0 <= k < |required| ==> JsText.ToLower(required[k]) == required[k]
    ensures col in Missing(headers, required) <==> col in required && col !in headers
  {
    MissingIsFilter(headers, required);
    if col in required {
      var k :| 0 <= k < |required| && required[k] == col;
      assert JsText.ToLower(col) == col;
    }
  }

  /** A required column is reported missing exactly when no normalised header equals it. */
  lemma MissingExactly(headers: seq<string>, col: string)
    ensures col in Missing(headers, RequiredColumns) <==> col in RequiredColumns && col !in headers
  {
    RequiredColumnsLowercase();
    MissingOfLowercase(headers, RequiredColumns, col);
  }

  /** Validation rejects exactly when a required column is absent, naming the absent ones. */
  lemma ValidationRejects(file: File)
    ensures var headers := Headers(file.text);
      && (Validation(file, RequiredColumns).Err? <==> exists col :: col in RequiredColumns && col !in headers)
      && (Validation(file, RequiredColumns).Err? ==>
            Validation(file, RequiredColumns).error == MissingMessage(Missing(headers, RequiredColumns)))
  {
    var headers := Headers(file.text);
    if exists col :: col in RequiredColumns && col !in headers {
      var col :| col in RequiredColumns && col !in headers;
      MissingExactly(headers, col);
    }
    if |Missing(headers, RequiredColumns)| > 0 {
      MissingExactly(headers, Missing(headers, RequiredColumns)[0]);
    }
  }

  /** Only the first line holds the header names; each is trimmed and lower-cased. */
  lemma HeadersOfFirstLine(first: string, rest: string)
    requires '\n' !in first
    ensures Headers(first + "\n" + rest) == Headers(first)
    ensures var parts := JsText.Split(first, ',');
      |Headers(first)| == |parts| && forall k :: 0 <= k < |parts| ==> Headers(first)[k] == NormaliseHeader(parts[k])
  {
    JsText.SplitAtSep(first, rest, '\n');
    JsText.SplitWithoutSep(first, '\n');
  }

  /** `totalRows` counts every '\n', so a trailing newline adds a row. */
  lemma TotalRowsCountsNewlines(file: File, required: seq<string>)
    requires Validation(file, required).Ok?
    ensures Validation(file, required).value.totalRows == JsText.Occurrences(file.text, '\n')
  {
    JsText.SplitLength(file.text, '\n');
  }

  lemma {:induction false} RowMapKeys(headers: seq<string>, values: seq<string>)
    ensures RowMap(headers, values).Keys == set h | h in headers
    decreases |headers|
  {
    if |headers| > 0 {
      var init := headers[..|headers| - 1];
      RowMapKeys(init, values);
      assert forall h :: h in headers <==> h in init || h == headers[|headers| - 1] by {
        assert headers == init + [headers[|headers| - 1]];
      }
    }
  }

  /** Each header maps to the value in the column of its last occurrence. */
  lemma {:induction false} RowMapLastWins(headers: seq<string>, values: seq<string>, j: nat)
    requires j < |headers|
    requires forall i :: j < i < |headers| ==> headers[i] != headers[j]
    ensures headers[j] in RowMap(headers, values)
    ensures RowMap(headers, values)[headers[j]] == CellAt(values, j)
    decreases |headers|
  {
    if j < |headers| - 1 {
      var init := headers[..|headers| - 1];
      assert init[j] == headers[j];
      RowMapLastWins(init, values, j);
    }
  }

  // ------------------------------------------------------- page state

  /** The three single-file slots: single prediction and the two sides of a comparison. */
  datatype Slot = SingleSlot | Batch1Slot | Batch2Slot

  datatype Tab = BatchTab | SlotTab(slot: Slot)

  /** The keys of `selectedModels`: `batch`, `single`, `batch1` and `batch2`. */
  const AllTabs: set<Tab> := {BatchTab, SlotTab(SingleSlot), SlotTab(Batch1Slot), SlotTab(Batch2Slot)}

  /** The four keys name every tab there is. */
  lemma EveryTabListed(tab: Tab)
    ensures tab in AllTabs
  {
    match tab
    case BatchTab =>
    case SlotTab(slot) =>
      match slot
      case SingleSlot =>
      case Batch1Slot =>
      case Batch2Slot =>
  }

  /** What an analysis handler hands to the API once its check passes. */
  datatype Submission =
    | SubmitSingle(file: File, model: string)
    | SubmitBatch(files: seq<File>, model: string)
    | SubmitComparison(file1: File, model1: string, file2: File, model2: string)

  /** `file.name.toLowerCase().endsWith('.csv')`. */
  predicate IsCsvName(f: File)
    ensures IsCsvName(f) <==> |f.name| >= 4 && JsText.ToLower(f.name[|f.name| - 4..]) == ".csv"
  {
    JsText.ToLowerSlices(f.name, if |f.name| >= 4 then |f.name| - 4 else 0);
    JsText.EndsWith(JsText.ToLower(f.name), ".csv")
  }

  /** Every selected name ends in ".csv", ignoring case. */
  predicate AllCsvNames(files: seq<File>) {
    forall k :: 0 <= k < |files| ==> IsCsvName(files[k])
  }

  /** `prev.filter((_, i) => i !== index)`. */
  function RemoveAt<T>(s: seq<T>, index: int): (r: seq<T>)
    ensures 0 <= index < |s| ==> |r| == |s| - 1
    ensures 0 <= index < |s| ==> forall k :: 0 <= k < index ==> r[k] == s[k]
    ensures 0 <= index < |s| ==> forall k :: index <= k < |r| ==> r[k] == s[k + 1]
    ensures !(0 <= index < |s|) ==> r == s
  {
    if 0 <= index < |s| then s[..index] + s[index + 1..] else s
  }

  /** `files.map(validateCSV)`: each file's outcome, in file order. */
  function Outcomes(files: seq<File>, required: seq<string>): (outcomes: seq<Result<CsvPreview, string>>)
    ensures |outcomes| == |files|
    decreases |files|
  {
    if |files| == 0 then []
    else Outcomes(files[..|files| - 1], required) + [Validation(files[|files| - 1], required)]
  }

  lemma {:induction false} OutcomeAt(files: seq<File>, required: seq<string>, k: nat)
    requires k < |files|
    ensures Outcomes(files, required)[k] == Validation(files[k], required)
    decreases |files|
  {
    if k < |files| - 1 {
      OutcomeAt(files[..|files| - 1], required, k);
    }
  }

  /**
   * `Promise.all` over settled outcomes: every value in order when all
   * succeed, otherwise the error of the first failure in order (which one
   * JavaScript reports depends on which rejection happens first).
   */
  function PromiseAll<T>(outcomes: seq<Result<T, string>>): (r: Result<seq<T>, string>)
    ensures r.Ok? <==> forall k :: 0 <= k < |outcomes| ==> outcomes[k].Ok?
    ensures r.Ok? ==> |r.value| == |outcomes| && forall k :: 0 <= k < |outcomes| ==> r.value[k] == outcomes[k].value
    ensures r.Err? ==> exists k :: (0 <= k < |outcomes| && outcomes[k] == Err(r.error)
      && forall i :: 0 <= i < k ==> outcomes[i].Ok?)
    decreases |outcomes|
  {
    if |outcomes| == 0 then Ok([])
    else if outcomes[0].Err? then Err(outcomes[0].error)
    else
      var rest := PromiseAll(outcomes[1..]);
      if rest.Err? then
        ghost var k :| 0 <= k < |outcomes[1..]| && outcomes[1..][k] == Err(rest.error)
          && forall i :: 0 <= i < k ==> outcomes[1..][i].Ok?;
        assert outcomes[k + 1] == Err(rest.error);
        rest
      else Ok([outcomes[0].value] + rest.value)
  }

  /** The batch check, file by file: it fails exactly when some file fails, with the first failing file's message. */
  lemma BatchValidation(files: seq<File>, required: seq<string>)
    ensures PromiseAll(Outcomes(files, required)).Ok? <==> forall k :: 0 <= k < |files| ==> Validation(files[k], required).Ok?
    ensures var all := PromiseAll(Outcomes(files, required));
      all.Err? ==> exists k :: (0 <= k < |files| && Validation(files[k], required) == Err(all.error)
        && forall i :: 0 <= i < k ==> Validation(files[i], required).Ok?)
  {
    var outcomes := Outcomes(files, required);
    forall k | 0 <= k < |files| ensures outcomes[k] == Validation(files[k], required) {
      OutcomeAt(files, required, k);
    }
  }

  /** The previews a successful batch check yields are the files' own previews, in file order. */
  lemma BatchPreviews(files: seq<File>, required: seq<string>, k: nat)
    requires k < |files| && PromiseAll(Outcomes(files, required)).Ok?
    ensures Validation(files[k], required) == Ok(PromiseAll(Outcomes(files, required)).value[k])
  {
    OutcomeAt(files, required, k);
  }

  /** The `map` over the selection: every file validated in order. */
  method ValidateEach(files: seq<File>, required: seq<string>) returns (outcomes: seq<Result<CsvPreview, string>>)
    ensures outcomes == Outcomes(files, required)
  {
    outcomes := [];
    var k := 0;
    while k < |files|
      invariant 0 <= k <= |files|
      invariant outcomes == Outcomes(files[..k], required)
    {
      var r := ValidateCsv(files[k], required);
      assert files[..k + 1][..k] == files[..k];
      outcomes := outcomes + [r];
      k := k + 1;
    }
    assert files[..k] == files;
  }

  /** The upload page's state. */
  class UploadPage {
    /** The component's `requiredColumns`. */
    const requiredColumns: seq<string>
    var batchFiles: seq<File>
    var batchPreviews: seq<CsvPreview>
    var slotFiles: map<Slot, File>
    var slotPreviews: map<Slot, CsvPreview>
    var selectedModels: map<Tab, string>
    var error: string
    var loading: bool

    /** Every file in the state has its preview beside it, and every tab has a selected model. */
    ghost predicate Valid()
      reads this
    {
      |batchFiles| == |batchPreviews| && slotFiles.Keys == slotPreviews.Keys && selectedModels.Keys == AllTabs
    }

    constructor ()
      ensures requiredColumns == RequiredColumns
      ensures Valid()
      ensures batchFiles == [] && batchPreviews == [] && slotFiles == map[] && slotPreviews == map[]
      ensures selectedModels == map[SlotTab(SingleSlot) := "xgboost", BatchTab := "xgboost",
                                    SlotTab(Batch1Slot) := "xgboost", SlotTab(Batch2Slot) := "lightgbm"]
      ensures error == "" && !loading
    {
      requiredColumns := RequiredColumns;
      batchFiles, batchPreviews := [], [];
      slotFiles, slotPreviews := map[], map[];
      selectedModels := map[SlotTab(SingleSlot) := "xgboost", BatchTab := "xgboost",
                            SlotTab(Batch1Slot) := "xgboost", SlotTab(Batch2Slot) := "lightgbm"];
      error, loading := "", false;
    }

    /**
     * `handleFileChange`: an empty selection does nothing; a selection with
     * any non-CSV name only sets the error. Otherwise the error is cleared
     * and the batch tab or the slot takes the selection.
     */
    method HandleFileChange(tab: Tab, newFiles: seq<File>)
      requires Valid()
      modifies this
      ensures Valid()
      ensures selectedModels == old(selectedModels)
      ensures |newFiles| == 0 ==>
        && batchFiles == old(batchFiles) && batchPreviews == old(batchPreviews)
        && slotFiles == old(slotFiles) && slotPreviews == old(slotPreviews)
        && error == old(error) && loading == old(loading)
      ensures |newFiles| > 0 && !AllCsvNames(newFiles) ==>
        && batchFiles == old(batchFiles) && batchPreviews == old(batchPreviews)
        && slotFiles == old(slotFiles) && slotPreviews == old(slotPreviews)
        && error == "Please upload CSV files only" && loading == old(loading)
      ensures |newFiles| > 0 && AllCsvNames(newFiles) && tab == BatchTab ==>
        BatchTaken(old(batchFiles), old(batchPreviews), old(slotFiles), old(slotPreviews), newFiles)
      ensures |newFiles| > 0 && AllCsvNames(newFiles) && tab.SlotTab? ==>
        SlotTaken(old(batchFiles), old(batchPreviews), old(slotFiles), old(slotPreviews), tab.slot, newFiles[0])
    {
      if |newFiles| == 0 {
        return;
      }
      var invalid := Filter(newFiles, (f: File) => !IsCsvName(f));
      if |invalid| > 0 {
        assert invalid[0] in newFiles;
        var k :| 0 <= k < |newFiles| && newFiles[k] == invalid[0];
        assert !IsCsvName(newFiles[k]);
        error := "Please upload CSV files only";
        return;
      }
      assert AllCsvNames(newFiles) by {
        forall k | 0 <= k < |newFiles| ensures IsCsvName(newFiles[k]) {
          assert newFiles[k] in newFiles;
        }
      }
      TakeSelection(tab, newFiles);
    }

    /** `handleFileChange` once the selection has passed its checks: clear the error and hand it to the tab. */
    method TakeSelection(tab: Tab, newFiles: seq<File>)
      requires Valid() && |newFiles| > 0
      modifies this
      ensures Valid()
      ensures selectedModels == old(selectedModels)
      ensures tab == BatchTab ==>
        BatchTaken(old(batchFiles), old(batchPreviews), old(slotFiles), old(slotPreviews), newFiles)
      ensures tab.SlotTab? ==>
        SlotTaken(old(batchFiles), old(batchPreviews), old(slotFiles), old(slotPreviews), tab.slot, newFiles[0])
    {
      error := "";
      loading := true;
      if tab == BatchTab {
        AddBatchFiles(newFiles);
      } else {
        SetSlotFile(tab.slot, newFiles[0]);
      }
      loading := false;
    }

    /**
     * The state after the batch tab takes a selection: with every file
     * valid the files and their previews are appended and the error is
     * cleared; otherwise the batch is emptied and the error is a failing
     * file's message. The slots are unchanged and loading has ended.
     */
    ghost predicate BatchTaken(batch0: seq<File>, previews0: seq<CsvPreview>, slots0: map<Slot, File>,
                               slotPreviews0: map<Slot, CsvPreview>, newFiles: seq<File>)
      reads this
    {
      var all := PromiseAll(Outcomes(newFiles, requiredColumns));
      && slotFiles == slots0 && slotPreviews == slotPreviews0 && !loading
      && (all.Ok? ==> batchFiles == batch0 + newFiles && batchPreviews == previews0 + all.value && error == "")
      && (all.Err? ==> batchFiles == [] && batchPreviews == [] && error == all.error)
    }

    /**
     * The state after a slot takes a file: a valid file and its preview
     * fill the slot; an invalid one empties it and its message becomes the
     * error. The batch is unchanged and loading has ended.
     */
    ghost predicate SlotTaken(batch0: seq<File>, previews0: seq<CsvPreview>, slots0: map<Slot, File>,
                              slotPreviews0: map<Slot, CsvPreview>, slot: Slot, file: File)
      reads this
    {
      var v := Validation(file, requiredColumns);
      && batchFiles == batch0 && batchPreviews == previews0 && !loading
      && (v.Ok? ==> slotFiles == slots0[slot := file] && slotPreviews == slotPreviews0[slot := v.value] && error == "")
      && (v.Err? ==> slotFiles == slots0 - {slot} && slotPreviews == slotPreviews0 - {slot} && error == v.error)
    }

    /** The batch branch of `handleFileChange`, after the checks. */
    method AddBatchFiles(newFiles: seq<File>)
      requires Valid() && error == ""
      modifies this
      ensures Valid()
      ensures selectedModels == old(selectedModels) && slotFiles == old(slotFiles) && slotPreviews == old(slotPreviews)
      ensures var all := PromiseAll(Outcomes(newFiles, requiredColumns));
        && (all.Ok? ==> batchFiles == old(batchFiles) + newFiles && batchPreviews == old(batchPreviews) + all.value && error == "")
        && (all.Err? ==> batchFiles == [] && batchPreviews == [] && error == all.error)
      ensures loading == old(loading)
    {
      var outcomes := ValidateEach(newFiles, requiredColumns);
      var all := PromiseAll(outcomes);
      if all.Err? {
        error := all.error;
        batchFiles, batchPreviews := [], [];
      } else {
        batchFiles := batchFiles + newFiles;
        batchPreviews := batchPreviews + all.value;
      }
    }

    /** The single-file branch of `handleFileChange`, after the checks. */
    method SetSlotFile(slot: Slot, file: File)
      requires Valid() && error == ""
      modifies this
      ensures Valid()
      ensures selectedModels == old(selectedModels) && batchFiles == old(batchFiles) && batchPreviews == old(batchPreviews)
      ensures var v := Validation(file, requiredColumns);
        && (v.Ok? ==> slotFiles == old(slotFiles)[slot := file] && slotPreviews == old(slotPreviews)[slot := v.value] && error == "")
        && (v.Err? ==> slotFiles == old(slotFiles) - {slot} && slotPreviews == old(slotPreviews) - {slot} && error == v.error)
      ensures loading == old(loading)
    {
      var validation := ValidateCsv(file, requiredColumns);
      if validation.Ok? {
        slotFiles := slotFiles[slot := file];
        slotPreviews := slotPreviews[slot := validation.value];
      } else {
        error := validation.error;
        slotFiles := slotFiles - {slot};
        slotPreviews := slotPreviews - {slot};
      }
    }

    /** `removeBatchFile`: drop one index from both parallel lists. */
    method RemoveBatchFile(index: int)
      requires Valid()
      modifies this
      ensures Valid()
      ensures batchFiles == RemoveAt(old(batchFiles), index)
      ensures batchPreviews == RemoveAt(old(batchPreviews), index)
      ensures slotFiles == old(slotFiles) && slotPreviews == old(slotPreviews)
      ensures error == old(error) && loading == old(loading) && selectedModels == old(selectedModels)
    {
      batchFiles := RemoveAt(batchFiles, index);
      batchPreviews := RemoveAt(batchPreviews, index);
    }

    /** `handleSingleAnalysis` up to the API call. */
    method HandleSingleAnalysis() returns (submitted: Option<Submission>)
      requires Valid()
      modifies this
      ensures Valid()
      ensures SingleSlot !in old(slotFiles) ==>
        submitted == None && error == "Please upload a CSV file first" && loading == old(loading)
      ensures SingleSlot in old(slotFiles) ==>
        && submitted == Some(SubmitSingle(old(slotFiles)[SingleSlot], ModelFor(SlotTab(SingleSlot))))
        && error == "" && loading
      ensures batchFiles == old(batchFiles) && batchPreviews == old(batchPreviews)
      ensures slotFiles == old(slotFiles) && slotPreviews == old(slotPreviews)
      ensures selectedModels == old(selectedModels)
    {
      if SingleSlot !in slotFiles {
        error := "Please upload a CSV file first";
        return None;
      }
      loading, error := true, "";
      submitted := Some(SubmitSingle(slotFiles[SingleSlot], ModelFor(SlotTab(SingleSlot))));
    }

    /** `handleBatchAnalysis` up to the API calls: nothing is submitted for an empty batch. */
    method HandleBatchAnalysis() returns (submitted: Option<Submission>)
      requires Valid()
      modifies this
      ensures Valid()
      ensures |old(batchFiles)| == 0 ==>
        submitted == None && error == "Please upload at least one CSV file" && loading == old(loading)
      ensures |old(batchFiles)| > 0 ==>
        && submitted == Some(SubmitBatch(old(batchFiles), ModelFor(BatchTab)))
        && error == "" && loading
      ensures batchFiles == old(batchFiles) && batchPreviews == old(batchPreviews)
      ensures slotFiles == old(slotFiles) && slotPreviews == old(slotPreviews)
      ensures selectedModels == old(selectedModels)
    {
      if |batchFiles| == 0 {
        error := "Please upload at least one CSV file";
        return None;
      }
      loading, error := true, "";
      submitted := Some(SubmitBatch(batchFiles, ModelFor(BatchTab)));
    }

    /** `handleMultiBatchAnalysis` up to the API calls: both sides must hold a file. */
    method HandleMultiBatchAnalysis() returns (submitted: Option<Submission>)
      requires Valid()
      modifies this
      ensures Valid()
      ensures !(Batch1Slot in old(slotFiles) && Batch2Slot in old(slotFiles)) ==>
        && submitted == None && error == "Please upload both CSV files for comparison"
        && loading == old(loading)
      ensures Batch1Slot in old(slotFiles) && Batch2Slot in old(slotFiles) ==>
        && submitted == Some(SubmitComparison(old(slotFiles)[Batch1Slot], ModelFor(SlotTab(Batch1Slot)),
                                              old(slotFiles)[Batch2Slot], ModelFor(SlotTab(Batch2Slot))))
        && error == "" && loading
      ensures batchFiles == old(batchFiles) && batchPreviews == old(batchPreviews)
      ensures slotFiles == old(slotFiles) && slotPreviews == old(slotPreviews)
      ensures selectedModels == old(selectedModels)
    {
      if !(Batch1Slot in slotFiles && Batch2Slot in slotFiles) {
        error := "Please upload both CSV files for comparison";
        return None;
      }
      loading, error := true, "";
      submitted := Some(SubmitComparison(slotFiles[Batch1Slot], ModelFor(SlotTab(Batch1Slot)),
                                         slotFiles[Batch2Slot], ModelFor(SlotTab(Batch2Slot))));
    }

    /**
     * `selectedModels[tab]`, which is `undefined` for a tab without an
     * entry; in a valid state every tab has one.
     */
    function ModelFor(tab: Tab): (m: string)
      reads this
      ensures Valid() ==> tab in selectedModels && m == selectedModels[tab]
    {
      EveryTabListed(tab);
      if tab in selectedModels then selectedModels[tab] else "undefined"
    }

    /** `handleModelChange`: the tab's entry is replaced and every other entry kept. */
    method HandleModelChange(tab: Tab, model: string)
      requires Valid()
      modifies this
      ensures Valid()
      ensures selectedModels == old(selectedModels)[tab := model]
      ensures batchFiles == old(batchFiles) && batchPreviews == old(batchPreviews)
      ensures slotFiles == old(slotFiles) && slotPreviews == old(slotPreviews)
      ensures error == old(error) && loading == old(loading)
    {
      EveryTabListed(tab);
      selectedModels := selectedModels[tab := model];
    }
  }
}
