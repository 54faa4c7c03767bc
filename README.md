# SpaceEx exoplanet classifier: results, uploads and accounts

This project models the logic of the SpaceEx exoplanet web application and
proves properties about it. The back end classifies light-curve feature rows
as CONFIRMED, CANDIDATE or FALSE POSITIVE exoplanets. The model covers:

- **Back end** (`backend/app.py`): `decode_predictions` and
  `calculate_statistics`.
  - `decode_predictions` turns class codes and row probabilities into labelled
    rows.
  - `calculate_statistics` counts each class.
  - The classifier is outside the model: its codes and probabilities are
    inputs.
- **Results page** (`Results.jsx`):
  - aggregation of several result payloads into one;
  - the class filter;
  - the copy-then-sort and its direction toggle;
  - the detailed report template;
  - the CSV export;
  - the insights of a two-file comparison.
- **Upload page** (`Predict.jsx`): CSV header validation and its preview, the
  state changes when files are chosen or removed, and the checks before an
  analysis is submitted.
- **Accounts**:
  - the browser-side user store (`mockDatabase.js`);
  - the sign-up, login and approval rules (`AuthContext.jsx`);
  - the sign-in form (`Auth.jsx`);
  - the administrator's user counts (`AdminDashboard.jsx`);
  - the route guard (`App.jsx`).

Modules:

| module | what it holds |
|---|---|
| `Wrappers`, `Seqs` | `Option`/`Result`; `Array.prototype.filter` as `Filter` with its laws, and `Count`. |
| `JsText` | The JavaScript string operations the code relies on (`includes`, `trim`, `toLowerCase`, `split`, `join`, number-to-text), with their laws. |
| `JsNumbers` | JavaScript division as `Finite`/`NaN`/`Infinity`, and `>` on such numbers. |
| `Payload` | The record shape shared by the back end and the results page. |
| `Backend` | `decode_predictions` (a loop, so a method) and `calculate_statistics`. |
| `Labels` | How the four back-end labels answer the page's substring tests. |
| `Aggregate` | `aggregateBatchResults`, `getCurrentData` and the choice of screen. |
| `View` | The filter, the stable sort (an in-place insertion sort on a fresh array, proved against a functional specification), `handleSort`, and the view state as a class. |
| `Export` | `generateDetailedReport` and the CSV text of `downloadResults`. |
| `Compare` | The insights of the comparison view. |
| `Predict` | `validateCSV` and the upload page as a class. |
| `MockDatabase` | The user records and the browser storage as a class `LocalStorage`. |
| `AuthContext` | Signup and login outcomes as functions, the store invariant, and the provider as a class. |
| `AuthPage` | The submit handler of the sign-in form. |
| `AdminDashboard` | The pending/approved partition and the counts. |
| `AppRoutes` | `ProtectedRoute` and the route table. |

How the language's numbers and strings are modelled:

- Numbers are exact Dafny `real`s, without the rounding of IEEE-754 doubles. Percentages are `count / total * 100` with no
  guard: in the browser a zero total gives NaN (or Infinity). In Python an
  empty list raises `ZeroDivisionError`, which is modelled as an error result.
- `toFixed(1)` is any function `fixed1: real -> string`, passed as a
  parameter.
- A row number in a template literal is written by `NatText`, which is proved
  to read back as the same number.

Where the code's behaviour is easy to misread, the model follows the code:

- **Zero total.** No percentage is guarded against a zero total. The browser
  computes NaN or Infinity (`Aggregate.ZeroTotalPercentages`), and Python
  raises its division error (`Backend.CalculateStatistics`).
- **Comparison ties.** For equal percentages, and for NaN ones, the code
  names the second side's model (`Compare.TiesNameSecondModel`). A side with
  a zero total is not flagged as undefined.
- **Empty batch.** An empty batch is not an error. Aggregation returns null
  and the page shows its empty view (`Aggregate.ChooseScreen`). A comparison
  missing a side reaches the main view with no data, which fails to render.
- **Counts and total.** The three counts add up to the total only when every
  class code is known (`Backend.CountsSumToTotalIff`).
- **Malformed records.** The code does not check its input records. The one such failure the model keeps is
  a row without probabilities, which makes the export throw (`Export.CsvRow`).
- **Short probability rows.** The back end fails on a row with fewer than three
  probabilities: ValueError for an empty row, IndexError otherwise.
- **Unquoted cells.** The CSV export does not quote cells. A file name with a
  comma in it becomes two columns (`Export.CommaInSourceFileAddsColumn`).

## Model

| member | source | states |
|---|---|---|
| Backend.ClassInfoOf | backend/app.py:100-108 | Only codes 0, 1 and 2 have a class of their own; every other code gets "UNKNOWN". Each emoji is one character. |
| Backend.LabelOf | backend/app.py:113 | The label is the emoji, a space, then the class name. |
| Backend.LabelsByCode | backend/app.py:100-112 | Codes 0, 1 and 2 are labelled "❌ FALSE POSITIVE", "🔍 CANDIDATE" and "🌍 CONFIRMED". Every other code is "❓ UNKNOWN". |
| Backend.MaxOf | backend/app.py:120 | The confidence is a member of the probability row and no entry of it is larger. |
| Backend.DecodePredictions | backend/app.py:98-129 | One entry per code, in order. Entry i has row i + 1, the code, and that code's label and colour. Confidence and probabilities exist exactly when probabilities were supplied and i is within them. The confidence is the row maximum; keys 0, 1 and 2 are false_positive, candidate and confirmed. It fails exactly when such a row is short, naming the first one: ValueError if empty, IndexError otherwise. |
| Backend.CalculateStatistics | backend/app.py:131-152 | Errs with ZeroDivisionError exactly for an empty list. Otherwise: the total is the length; the counts are the rows with codes 0, 1 and 2; each percentage is count / total * 100; the breakdown repeats the three counts. |
| Backend.CountsPartition | backend/app.py:135-139 | The three class counts plus the unknown-code rows make up the whole list. |
| Backend.CountsSumToTotalIff | backend/app.py:135-146 | The three counts sum to `total_predictions` exactly when no code is unknown. |
| Backend.PercentagesSumTo100WhenKnown | backend/app.py:148-150 | Over exact reals: with only known codes the three percentages add up to 100 (see "## Left out" on double rounding). |
| Labels.LabelNames | frontend/src/pages/Results.jsx:89-95 | A back-end label includes "CONFIRMED" exactly for code 2, "CANDIDATE" exactly for code 1 and "FALSE POSITIVE" exactly for code 0. |
| JsNumbers.Percentage | frontend/src/pages/Results.jsx:81-83 | Finite exactly for a positive total, and then the exact real count·100 / total, between 0 and 100 when count ≤ total. NaN exactly for 0/0, otherwise Infinity. Double rounding is not modelled. |
| JsNumbers.PercentagesSumTo100 | frontend/src/pages/Results.jsx:81-83 | Over exact reals: counts that sum to a positive total give percentages summing to 100. |
| JsNumbers.GreaterAsymmetric | frontend/src/pages/Results.jsx:774 | `>` on JavaScript numbers (false when NaN is involved) is irreflexive and asymmetric. |
| Payload.OrElse | frontend/src/pages/Results.jsx:750 | `a || b` on an optional string gives a when it is present and non-empty, else b. |
| JsText.IncludesIff | frontend/src/pages/Results.jsx:91-93 | `includes` is true exactly when the pattern occurs at some position. |
| JsText.MissingCharNotIncluded | frontend/src/pages/Results.jsx:91-93 | A text without one of the pattern's characters does not include the pattern. |
| JsText.Trim | frontend/src/pages/Predict.jsx:60 | The result is no longer than the input and has no leading or trailing ECMAScript white space. It is empty exactly when the input is all white space. |
| JsText.TrimOfTrimmed | frontend/src/pages/Results.jsx:186 | Trimming text without surrounding white space leaves it unchanged. |
| JsText.TrimKeepsChars | frontend/src/pages/Results.jsx:186 | Trimming only removes characters. |
| JsText.TrimEmptyIff | frontend/src/pages/Predict.jsx:73 | `line.trim()` is empty (falsy) exactly when the line is all white space. |
| JsText.ToLowerIdempotent | frontend/src/pages/Predict.jsx:60 | `toLowerCase` leaves no upper-case letter, and lower-casing twice is lower-casing once. |
| JsText.ToLowerOfLower | frontend/src/pages/Predict.jsx:64 | Lower-casing a name without upper-case letters leaves it unchanged. |
| JsText.ToLowerSlices | frontend/src/pages/Predict.jsx:104 | Lower-casing commutes with taking a prefix or a suffix. |
| JsText.Split | frontend/src/pages/Predict.jsx:59 | `split` gives at least one part and no part contains the separator. |
| JsText.SplitLength | frontend/src/pages/Predict.jsx:86 | The number of parts is one more than the number of separators. |
| JsText.SplitFirstIsPrefix | frontend/src/pages/Predict.jsx:60 | The first part is a prefix of the text. |
| JsText.SplitAtSep | frontend/src/pages/Predict.jsx:59-60 | Text up to the first separator is the first part, and the rest splits on its own. |
| JsText.SplitFirstEndsAtSep | frontend/src/context/AuthContext.jsx:45 | When the separator occurs, the first part ends right before its first occurrence. |
| JsText.SplitWithoutSep | frontend/src/pages/Predict.jsx:59 | Text without the separator splits into itself alone. |
| JsText.JoinSplit | frontend/src/pages/Results.jsx:196 | Joining the parts of a split with the separator gives the text back. |
| JsText.SplitJoin | frontend/src/pages/Results.jsx:196 | Splitting a join of separator-free parts gives the parts back. |
| JsText.NatText | frontend/src/pages/Results.jsx:73 | A number's decimal text is non-empty and all digits. |
| JsText.NatTextRoundTrip | frontend/src/pages/Results.jsx:73 | A number's decimal text reads back as that number. |
| Seqs.Filter | frontend/src/pages/AdminDashboard.jsx:37-38 | `filter` keeps exactly the elements that pass, and no more elements than it was given. |
| Seqs.FilterConcat | frontend/src/pages/Results.jsx:89-95 | Filtering a concatenation is concatenating the filtered parts, so relative order is kept. |
| Seqs.CountComplement | frontend/src/pages/AdminDashboard.jsx:37-44 | Two complementary tests count every element once. |
| Aggregate.Reindexed | frontend/src/pages/Results.jsx:70-75 | Only three fields change: originalRow becomes the old row, row becomes "batchNo-row", and sourceFile becomes the input's file name. Label, code, colour, confidence and probabilities are kept. |
| Aggregate.AggregateBatchResults | frontend/src/pages/Results.jsx:53-86 | Absent or empty input gives null. Otherwise: the override model if truthy, else the first input's; filename "N files"; first-input features and visualisations. Rows processed, total and the three counts are sums over the inputs. Percentages come from the summed counts without a zero guard. The rows are all inputs' rows in order, re-indexed. |
| Aggregate.SumOfSplit | frontend/src/pages/Results.jsx:60-67 | A sum over two concatenated batches is the sum of the two sums. |
| Aggregate.FlatRowsLength | frontend/src/pages/Results.jsx:69-76 | The aggregated row count is the sum of the inputs' row counts. |
| Aggregate.FlatRowAt | frontend/src/pages/Results.jsx:69-76 | Row k of input i sits after all earlier inputs' rows. It keeps its other fields, gets `originalRow` = its old row and `row` = "{i+1}-{row}", and `sourceFile` = that input's filename. |
| Aggregate.FlatRowsLayout | frontend/src/pages/Results.jsx:69-76 | The same placement for every row of every input at once, from input number 1. |
| Aggregate.SumsAddUp | frontend/src/pages/Results.jsx:63-68 | If every input's counts add up to its total, the summed counts add up to the summed total. |
| Aggregate.AggregateKeepsCountsConsistent | frontend/src/pages/Results.jsx:63-83 | Consistent inputs give a consistent aggregate (exact, on naturals), whose percentages sum to 100 over exact reals when its total is positive. |
| Aggregate.ZeroTotalPercentages | frontend/src/pages/Results.jsx:81-83 | Inputs that are all empty give NaN percentages: there is no zero guard. |
| Aggregate.ZeroTotals | frontend/src/pages/Results.jsx:64 | Totals that are all zero sum to zero. |
| Aggregate.SumOfSingleton | frontend/src/pages/Results.jsx:60-67 | A sum over one input is that input's value. |
| Aggregate.SingleInputAggregate | frontend/src/pages/Results.jsx:53-86 | A batch of one keeps its total, counts, rows processed, row count, features and visualisations. It is not the input unchanged: the model is the override when that is truthy, the filename is "1 files", the percentages are recomputed from the counts, the breakdown is dropped, and row k is the input's row k with `originalRow`, `row` ("1-…") and `sourceFile` set. |
| Aggregate.SecondFileRowLabel | frontend/src/pages/Results.jsx:72-74 | Row 3 of the second file is shown as "2-3", keeps 3 as `originalRow` and records its file. |
| Aggregate.CurrentData | frontend/src/pages/Results.jsx:25-35 | 'batch' gives the aggregate; 'comparison' gives nothing; 'single' and any other type give the single payload. |
| Aggregate.ChooseScreen | frontend/src/pages/Results.jsx:40-50 | The comparison view exactly when both sides are present. Otherwise the empty view exactly when there is no current data, outside a comparison. A comparison missing a side fails to render. Any other screen shows the current data. |
| View.Keeps | frontend/src/pages/Results.jsx:90-94 | The filter callback: 'all' and unrecognised filters keep a row; each class filter keeps it when the label includes the class name. Its consequences are stated by `View.UnrecognisedFilterKeepsAll` and `View.ClassFilterKeepsExactly`. |
| View.KeptBy | frontend/src/pages/Results.jsx:89-95 | The callback as the function value handed to the filter. |
| View.FilteredPredictions | frontend/src/pages/Results.jsx:89-95 | No data gives []. Otherwise a row is kept exactly when it is one of the data's rows and the filter keeps it, and the result is no longer than the data's rows. |
| View.UnrecognisedFilterKeepsAll | frontend/src/pages/Results.jsx:89-95 | 'all' and every unrecognised filter keep all rows unchanged. |
| View.ClassFilterKeepsExactly | frontend/src/pages/Results.jsx:91-93 | 'confirmed', 'candidate' and 'false_positive' keep exactly the rows whose label includes CONFIRMED, CANDIDATE or FALSE POSITIVE. |
| View.FilterKeepsOrder | frontend/src/pages/Results.jsx:89-95 | The filter keeps relative order: filtering a concatenation concatenates the filtered parts. |
| View.FilterIdempotent | frontend/src/pages/Results.jsx:89-95 | Filtering twice is filtering once. |
| View.ClassFilterCountsCodes | frontend/src/pages/Results.jsx:89-95 | On back-end labels, each class filter keeps as many rows as carry that class's code. |
| View.FlatRowsCount | frontend/src/pages/Results.jsx:69-76 | Filtered rows of the aggregate number the sum of each input's filtered rows, and re-indexing keeps labels matching codes. |
| View.SumOfPointwise | frontend/src/pages/Results.jsx:60-67 | Sums of fields that agree on every input are equal. |
| View.AggregateFilterMatchesCounts | frontend/src/pages/Results.jsx:53-95 | For back-end payloads, each class filter on the aggregate keeps exactly as many rows as the aggregate's count for that class. |
| View.SortKey | frontend/src/pages/Results.jsx:99-104 | A numeric key exists exactly when sorting by row and the row has a numeric originalRow, or sorting by confidence and the row has a confidence. Otherwise the subtraction gives NaN. |
| View.Compare | frontend/src/pages/Results.jsx:98-106 | With a key missing, or any other sort key, the rows compare as 0. With both keys the result is 0 exactly when they are equal, and negative exactly when the first row comes first in the chosen direction. |
| View.StableSorted | frontend/src/pages/Results.jsx:98-106 | The stable sort of the copy: each row is inserted after the last row that does not compare greater. `View.StableSortedPermutes`, `View.StableSortedIsSorted` and `View.StableSortedIsStable` state its properties. |
| View.InsertSortedPermutes | frontend/src/pages/Results.jsx:98-106 | Inserting a row adds exactly that row. |
| View.StableSortedPermutes | frontend/src/pages/Results.jsx:98-106 | The sort is a permutation of its input. |
| View.SortedAppend | frontend/src/pages/Results.jsx:98-106 | A sorted list stays ordered after appending a row that no element compares greater than. |
| View.InsertSortedKeepsOrder | frontend/src/pages/Results.jsx:98-106 | Inserting a keyed row into a sorted keyed list keeps it ordered. |
| View.StableSortedIsSorted | frontend/src/pages/Results.jsx:98-106 | When every row has a numeric key, no row compares greater than a later one. |
| View.SortedKeys | frontend/src/pages/Results.jsx:99-104 | In such a list the keys ascend for 'asc' and descend for any other direction. |
| View.GreaterHasOtherKey | frontend/src/pages/Results.jsx:98-106 | Rows the comparator orders strictly have different keys. |
| View.InsertSortedStable | frontend/src/pages/Results.jsx:98-106 | Inserting a row keeps the relative order of the rows with any one key. |
| View.MovePastStable | frontend/src/pages/Results.jsx:98-106 | Moving a row past another with a different key keeps the order within each key. |
| View.StableSortedIsStable | frontend/src/pages/Results.jsx:98-106 | Rows with equal comparator keys (equal numbers, or both NaN) keep their relative order. |
| View.StableSortedOfSorted | frontend/src/pages/Results.jsx:98-106 | An already ordered list is left as it is. |
| View.UnkeyedSortKeepsOrder | frontend/src/pages/Results.jsx:100 | In row order, single-file rows (no `originalRow`, every difference NaN) keep their order. |
| View.SortedCopy | frontend/src/pages/Results.jsx:98-106 | Sorting works on a fresh copy. The result is the stable sort of the input: a permutation, ordered when every row has a key, with rows of each key in their old order. |
| View.SortInPlace | frontend/src/pages/Results.jsx:98-106 | The in-place insertion sort leaves the array holding the stable sort of its old contents. |
| View.InsertLast | frontend/src/pages/Results.jsx:98-106 | One insertion pass moves element i into the sorted prefix before it, leaving the rest alone. |
| View.SortStep | frontend/src/pages/Results.jsx:98-106 | One pass extends the sorted prefix by one element. |
| View.ShiftStep | frontend/src/pages/Results.jsx:98-106 | Shifting one element right keeps the pass's layout invariant. |
| View.PlaceStep | frontend/src/pages/Results.jsx:98-106 | Writing the element into the gap completes the insertion. |
| View.InsertStep | frontend/src/pages/Results.jsx:98-106 | Passing a larger element moves the insertion point one to the left. |
| View.InsertDone | frontend/src/pages/Results.jsx:98-106 | The insertion stops at the first element that is not greater. |
| View.HandleSort | frontend/src/pages/Results.jsx:108-113 | The new key is the clicked one. The direction is 'desc' exactly when the key was already current and ascending; otherwise 'asc'. |
| View.HandleSortAlternates | frontend/src/pages/Results.jsx:108-113 | Clicking the same column again flips the direction, and a third click returns to the first result. |
| View.HandleSortNewColumnAscends | frontend/src/pages/Results.jsx:108-113 | Clicking a different column always sorts it ascending. |
| View.ResultsView.constructor | frontend/src/pages/Results.jsx:20-22 | The view starts with filter 'all' and sort by row, ascending. |
| View.ResultsView.SetFilter | frontend/src/pages/Results.jsx:20 | Choosing a filter changes only the filter. |
| View.ResultsView.ClickSort | frontend/src/pages/Results.jsx:108-113 | A header click replaces only the sort configuration, by `handleSort`. |
| View.ResultsView.Filtered | frontend/src/pages/Results.jsx:89-95 | The view's `filteredPredictions`: `FilteredPredictions` of its data and current filter. A definition; `View.FilteredPredictions` states its contract. |
| View.ResultsView.Sorted | frontend/src/pages/Results.jsx:98 | The displayed rows are the stable sort of the filtered rows, a permutation of them; the view is unchanged. |
| Export.TemplateFor | frontend/src/pages/Results.jsx:119-177 | The template's title is the requested title when that is the confirmed or the candidate title, and the false-positive title otherwise. Its confidence is left to be filled in. |
| Export.TitleOf | frontend/src/pages/Results.jsx:119-177 | The confirmed title exactly when the label includes CONFIRMED. Otherwise the candidate title exactly when it includes CANDIDATE. Otherwise the false-positive title. |
| Export.DetailedReport | frontend/src/pages/Results.jsx:116-177 | The report is the template for its title, with the row's confidence × 100 formatted to one decimal. |
| Export.ReportFollowsCode | frontend/src/pages/Results.jsx:116-177 | For back-end labels: code 2 gives the confirmed report (#4CAF50) and code 1 the candidate report (#FF9800). Every other code, UNKNOWN included, gives the false-positive report (#f44336). |
| Export.RowCell | frontend/src/pages/Results.jsx:185 | `pred.originalRow || pred.row`: the original row unless it is absent or the number 0. `Export.RowCellClean` states that the cell is digits and '-' only. |
| Export.PredictionCell | frontend/src/pages/Results.jsx:186 | Every character of the cell comes from the label and is not one of the three glyphs, and there is no white space at either end. |
| Export.GlyphFreeCell | frontend/src/pages/Results.jsx:186 | After glyph removal and trimming, every character comes from the label and none is a glyph. |
| Export.PercentText | frontend/src/pages/Results.jsx:122 | `(x * 100).toFixed(1)`, with an absent value giving "NaN" as `undefined * 100` does. A definition; `Export.PercentCell` and `Export.DetailedReport` state what it yields. |
| Export.PercentCell | frontend/src/pages/Results.jsx:187-190 | The cell ends in '%', and an absent value gives "NaN%". |
| Export.CsvRow | frontend/src/pages/Results.jsx:182-193 | A row has eight cells, as many as the header, and exists exactly when the prediction has probabilities; otherwise reading them throws. |
| Export.CsvRowCells | frontend/src/pages/Results.jsx:184-193 | Column by column: `originalRow || row`, the label without its glyphs and trimmed, the three probabilities and the confidence as percentages, the report title, and `sourceFile || filename`. |
| Export.CsvRows | frontend/src/pages/Results.jsx:182-194 | One row per prediction, in order, and none if any prediction lacks probabilities. |
| Export.CsvContent | frontend/src/pages/Results.jsx:196 | The CSV text exists exactly when every prediction has probabilities. |
| Export.CsvLines | frontend/src/pages/Results.jsx:196 | The header line first, then one comma-joined line per row. |
| Export.CsvReadsBack | frontend/src/pages/Results.jsx:180-196 | With cells free of ',' and '\n': splitting the text at '\n' gives one line more than there are predictions. The first line splits at ',' into the header, and line k + 1 into exactly the cells of prediction k. |
| Export.RowsReadBack | frontend/src/pages/Results.jsx:196 | Every data line is free of '\n' and splits back into its cells. |
| Export.LineReadsBack | frontend/src/pages/Results.jsx:196 | A line of clean cells has no '\n' and splits back into its cells. |
| Export.LinesReadBack | frontend/src/pages/Results.jsx:196 | Lines without '\n', joined by '\n', split back into the same lines. |
| Export.JoinAvoids | frontend/src/pages/Results.jsx:196 | A join contains a character only if a part or the separator does. |
| Export.CommaInSourceFileAddsColumn | frontend/src/pages/Results.jsx:192-196 | Cells are not quoted: a file name "x,y" reads back as two cells x and y after the first seven. |
| Export.HeaderClean | frontend/src/pages/Results.jsx:181 | The header names contain neither ',' nor '\n'. |
| Export.TitleClean | frontend/src/pages/Results.jsx:121-177 | The report titles contain neither ',' nor '\n'. |
| Export.RowCellClean | frontend/src/pages/Results.jsx:185 | A row cell is digits and '-' only. |
| Export.PercentCellClean | frontend/src/pages/Results.jsx:187-190 | A percentage cell is clean when the formatter's output is. |
| Export.PredictionCellClean | frontend/src/pages/Results.jsx:186 | Removing glyphs and trimming keeps a clean label clean. |
| Export.LeadingCellsClean | frontend/src/pages/Results.jsx:184-191 | The first seven cells are clean whatever the file name, and the eighth is `sourceFile || filename`. |
| Export.CsvRowClean | frontend/src/pages/Results.jsx:184-193 | With a clean label and file name, all eight cells are clean. |
| Export.PredictionCellOfLabel | frontend/src/pages/Results.jsx:186 | The exported prediction cell of a back-end label is FALSE POSITIVE, CANDIDATE or CONFIRMED. The unknown label keeps its "❓ " prefix, which the character class does not remove. |
| Export.StripGlyphLabel | frontend/src/pages/Results.jsx:186 | A glyph, a space and a glyph-free name export as the name. |
| Export.KeepGlyphLabel | frontend/src/pages/Results.jsx:186 | A label led by another character keeps it. |
| Export.StripLeadingSpace | frontend/src/pages/Results.jsx:186 | Trimming removes the space left where the glyph was. |
| Export.ExportFileName | frontend/src/pages/Results.jsx:201 | The download name starts with "spaceex_" and ends with ".csv". |
| Export.ExportFileNameDate | frontend/src/pages/Results.jsx:201 | It is `spaceex_{type}_results_{model}_{date}.csv`, with the date taken before the timestamp's 'T'. |
| Compare.Distance | frontend/src/pages/Results.jsx:768 | `Math.abs(a - b)` on counts: a − b or b − a, whichever is not negative. |
| Compare.ComparisonInsights | frontend/src/pages/Results.jsx:750-780 | Each side's name is its picked model if truthy, else its result's model. The difference is the absolute difference of the confirmed counts. Its colour is side 1's exactly when side 1's count is strictly larger. The higher model is side 1 exactly when its confirmed percentage is strictly greater. Coverage is the sum of the totals. |
| Compare.SwappedSides | frontend/src/pages/Results.jsx:765-781 | Swapping the sides keeps the difference and the coverage. The colour swaps unless the counts tie, and the higher model stays unless the percentages tie or are NaN. |
| Compare.TiesNameSecondModel | frontend/src/pages/Results.jsx:774-775 | Equal or NaN percentages name side 2's model. |
| Compare.HigherPercentageSameTotal | frontend/src/pages/Results.jsx:774 | Over the same positive total, the higher percentage is the higher count. |
| Compare.ScaleStrict | frontend/src/pages/Results.jsx:774 | Multiplying by a positive number keeps `>`. |
| Predict.Headers | frontend/src/pages/Predict.jsx:58-60 | There is at least one header, and no header has an upper-case letter. |
| Predict.Missing | frontend/src/pages/Predict.jsx:63-65 | No more names than the required list, each taken from it. `Predict.MissingOfLowercase` states exactly which. |
| Predict.MissingIsFilter | frontend/src/pages/Predict.jsx:63-65 | The missing columns are the required list filtered by absence, in required order. |
| Predict.NonBlankIsFilter | frontend/src/pages/Predict.jsx:73 | The preview lines are the lines filtered by a non-empty trim. |
| Predict.PreviewOfSnoc | frontend/src/pages/Predict.jsx:74-81 | The preview of one more line is the old preview plus that line's row map. |
| Predict.PreviewRow | frontend/src/pages/Predict.jsx:76-80 | The `forEach` fills the row's map: each header to its positional value, trimmed, or '' when absent. A header named `__proto__` is stored like any other (see "## Left out"). |
| Predict.Validation | frontend/src/pages/Predict.jsx:57-88 | Rejects exactly when some required column is missing. On success it carries the headers, the file's name and at most five preview rows. |
| Predict.ValidateCsv | frontend/src/pages/Predict.jsx:57-88 | The loop-built validation equals the validation function (headers, missing columns, preview, total rows, file name). |
| Predict.RequiredColumnsLowercase | frontend/src/pages/Predict.jsx:38-42 | The required names are already lower case. |
| Predict.MissingOfLowercase | frontend/src/pages/Predict.jsx:63-65 | For lower-case required names, a name is missing exactly when it is required and no header equals it. |
| Predict.MissingExactly | frontend/src/pages/Predict.jsx:63-65 | A required column is reported missing exactly when no normalised header equals it. |
| Predict.ValidationRejects | frontend/src/pages/Predict.jsx:63-70 | It rejects exactly when some required column is absent, with "Missing required columns: " and the missing names joined by ", ". |
| Predict.HeadersOfFirstLine | frontend/src/pages/Predict.jsx:59-60 | Only the first line gives the headers: each comma part there, trimmed and lower-cased. |
| Predict.TotalRowsCountsNewlines | frontend/src/pages/Predict.jsx:86 | `totalRows` is the number of '\n' in the text, so a trailing newline counts as a row. |
| Predict.PreviewLines | frontend/src/pages/Predict.jsx:73 | At most five lines, each non-blank and taken from lines 1 to 5. |
| Predict.RowMap | frontend/src/pages/Predict.jsx:75-80 | Every key of a preview row is a header. |
| Predict.RowMapKeys | frontend/src/pages/Predict.jsx:77-79 | A preview row has exactly the headers as keys, `__proto__` included (see "## Left out"). |
| Predict.RowMapLastWins | frontend/src/pages/Predict.jsx:77-79 | A header maps to the value in the column of its last occurrence, `__proto__` included (see "## Left out"). |
| Predict.IsCsvName | frontend/src/pages/Predict.jsx:104 | The name's last four characters are ".csv" in either case. |
| Predict.RemoveAt | frontend/src/pages/Predict.jsx:153 | Filtering by index removes exactly index i and keeps the others in order; an index out of range changes nothing. |
| Predict.Outcomes | frontend/src/pages/Predict.jsx:116 | One validation outcome per file. |
| Predict.OutcomeAt | frontend/src/pages/Predict.jsx:116 | Outcome k is the validation of file k. |
| Predict.PromiseAll | frontend/src/pages/Predict.jsx:117 | Succeeds exactly when every outcome does, with all values in order. Otherwise it fails with the message of the first failing outcome. |
| Predict.BatchValidation | frontend/src/pages/Predict.jsx:116-117 | The batch validates exactly when every file does, and fails with a failing file's message. |
| Predict.BatchPreviews | frontend/src/pages/Predict.jsx:116-122 | A successful batch's preview k is the validation of file k. |
| Predict.ValidateEach | frontend/src/pages/Predict.jsx:116 | The loop validating each file gives the outcomes in file order. |
| Predict.UploadPage.constructor | frontend/src/pages/Predict.jsx:7-26 | No files or previews, the default models per tab, no error, not loading. |
| Predict.UploadPage.HandleFileChange | frontend/src/pages/Predict.jsx:99-148 | An empty selection changes nothing. A non-CSV name (case-insensitive) sets "Please upload CSV files only" and leaves files and previews. Otherwise the batch tab appends the files and previews if all validate, and empties both with the error if not. A slot takes the first file and its preview, or is cleared with the error. Loading ends. |
| Predict.UploadPage.TakeSelection | frontend/src/pages/Predict.jsx:110-147 | After the checks: clears the error and hands the selection to the batch or the slot. |
| Predict.UploadPage.AddBatchFiles | frontend/src/pages/Predict.jsx:114-141 | All valid: files and previews appended in order. Any invalid: both reset to empty and the error set. Slots unchanged. |
| Predict.UploadPage.SetSlotFile | frontend/src/pages/Predict.jsx:125-143 | A valid file and its preview fill the slot; an invalid one clears the slot and sets the error. |
| Predict.UploadPage.RemoveBatchFile | frontend/src/pages/Predict.jsx:150-159 | Index i is removed from both files and previews, the others stay in order; nothing else changes. |
| Predict.UploadPage.HandleSingleAnalysis | frontend/src/pages/Predict.jsx:161-169 | Without a single file it sets "Please upload a CSV file first" and submits nothing. Otherwise it submits that file with the single tab's model. |
| Predict.UploadPage.HandleBatchAnalysis | frontend/src/pages/Predict.jsx:185-207 | With no batch files it sets "Please upload at least one CSV file" and submits nothing. Otherwise it submits all batch files with the batch model. |
| Predict.UploadPage.HandleMultiBatchAnalysis | frontend/src/pages/Predict.jsx:216-237 | Without both files it sets "Please upload both CSV files for comparison" and submits nothing. Otherwise it submits both with their models. |
| Predict.UploadPage.ModelFor | frontend/src/pages/Predict.jsx:171 | In a valid state every tab has an entry, and the model read is that entry, never the `undefined` of a missing key. |
| Predict.UploadPage.HandleModelChange | frontend/src/pages/Predict.jsx:44-49 | The tab's model is replaced and every other entry kept, so every tab still has one; files, previews, error and loading are unchanged. |
| Predict.EveryTabListed | frontend/src/pages/Predict.jsx:7-12 | The four keys of `selectedModels` name every tab. |
| MockDatabase.WithoutPassword | frontend/src/context/AuthContext.jsx:78-79 | The session copy has every field of the user except the password. |
| MockDatabase.SeedUsers | frontend/src/utils/mockDatabase.js:19-38 | The two seed accounts, each with its own creation time. `MockDatabase.SeedUsersFacts` states their ids, statuses and uniqueness. |
| MockDatabase.SeedUsersFacts | frontend/src/utils/mockDatabase.js:19-38 | The seed has two users, ids 1 and 2, both approved, with distinct ids and emails, whatever their creation times. |
| MockDatabase.FindByEmail | frontend/src/utils/mockDatabase.js:72-75 | Finds the first user with that email, or null exactly when none has it. |
| MockDatabase.FindAppended | frontend/src/context/AuthContext.jsx:50 | A user appended after users without its email is the one found. |
| MockDatabase.FindPastAppended | frontend/src/context/AuthContext.jsx:50 | Appending a user with another email does not change what is found. |
| MockDatabase.FindByEmailUnique | frontend/src/utils/mockDatabase.js:74 | Over unique emails, the user found is the one holding that email. |
| MockDatabase.MaxId | frontend/src/utils/mockDatabase.js:83 | `Math.max` of the ids is one of them and no id exceeds it. |
| MockDatabase.NextId | frontend/src/utils/mockDatabase.js:81-84 | 1 for no users, otherwise max id + 1, larger than every existing id. |
| MockDatabase.NextIdKeepsIdsUnique | frontend/src/context/AuthContext.jsx:40-50 | Appending a user with the next id keeps ids unique. |
| MockDatabase.LocalStorage.constructor | frontend/src/utils/mockDatabase.js:13 | A fresh browser has no stored user list and no session. |
| MockDatabase.LocalStorage.InitializeDB | frontend/src/utils/mockDatabase.js:11-42 | Writes the seed only when no list is stored; a second call changes nothing; the session is untouched. |
| MockDatabase.LocalStorage.GetAllUsers | frontend/src/utils/mockDatabase.js:48-53 | The stored list, or [] when nothing is stored. |
| MockDatabase.LocalStorage.SaveUsers | frontend/src/utils/mockDatabase.js:60-65 | Overwrites the list, so reading it back gives exactly what was saved. |
| MockDatabase.LocalStorage.FindUserByEmail | frontend/src/utils/mockDatabase.js:72-75 | A stored user with that email, or null exactly when none is stored. |
| MockDatabase.LocalStorage.GenerateId | frontend/src/utils/mockDatabase.js:81-84 | 1 for an empty store, otherwise max id + 1, differing from every stored id. |
| AuthContext.StatusFor | frontend/src/context/AuthContext.jsx:36 | 'approved' exactly for role 'user', 'pending' for every other role. |
| AuthContext.DefaultName | frontend/src/context/AuthContext.jsx:45 | The given name if non-empty. Otherwise the whole email when it has no '@', else exactly the text before its first '@'. |
| AuthContext.NewUser | frontend/src/context/AuthContext.jsx:36-47 | The new id differs from every stored id, and the status is 'approved' or 'pending'. Email, password, role and creation time are the form's. |
| AuthContext.SignupOutcome | frontend/src/context/AuthContext.jsx:26-59 | Fails exactly when the email is taken, with the duplicate message and the store unchanged. Otherwise it appends exactly one new user at the end. The message is the approved one exactly for role 'user' and the pending one otherwise. |
| AuthContext.LoginOutcome | frontend/src/context/AuthContext.jsx:64-89 | Success exactly when a session user is returned, with "Login successful!". A failure is the invalid-credentials or the pending message. |
| AuthContext.Approved | frontend/src/context/AuthContext.jsx:102-108 | Same length; users with that id become approved and all others are unchanged. |
| AuthContext.Rejected | frontend/src/context/AuthContext.jsx:114-118 | Keeps exactly the users without that id. |
| AuthContext.RejectedKeepsOrder | frontend/src/context/AuthContext.jsx:114-118 | The remaining users keep their order. |
| AuthContext.SeedKeepsInvariant | frontend/src/utils/mockDatabase.js:19-38 | The seed store has unique ids and emails and known statuses. |
| AuthContext.SignupKeepsInvariant | frontend/src/context/AuthContext.jsx:26-59 | Signup keeps ids and emails unique and statuses known. |
| AuthContext.ApproveKeepsInvariant | frontend/src/context/AuthContext.jsx:102-108 | Approval keeps the store invariant. |
| AuthContext.FilterKeepsUnique | frontend/src/context/AuthContext.jsx:116 | Filtering keeps ids and emails unique. |
| AuthContext.RejectKeepsInvariant | frontend/src/context/AuthContext.jsx:114-118 | Rejection keeps the store invariant. |
| AuthContext.LoginSucceedsIff | frontend/src/context/AuthContext.jsx:64-82 | Over unique emails, login succeeds exactly for a stored email and password whose user is not pending, and returns that user without the password. |
| AuthContext.UnknownEmailLikeWrongPassword | frontend/src/context/AuthContext.jsx:66-70 | An unknown email and a wrong password get the same "Invalid email or password." answer. |
| AuthContext.LoginAfterSignup | frontend/src/context/AuthContext.jsx:36-75 | Right after signup, logging in with the same credentials succeeds exactly for role 'user'; other roles get the pending message. |
| AuthContext.LoginAfterApprove | frontend/src/context/AuthContext.jsx:66-108 | Once a user's id is approved, logging in with their password succeeds. |
| AuthContext.AuthProvider.constructor | frontend/src/context/AuthContext.jsx:15-21 | The current user is the stored session, and loading has ended. |
| AuthContext.AuthProvider.Signup | frontend/src/context/AuthContext.jsx:26-59 | Returns the signup outcome for the stored list. On success the extended list is saved; on failure the store is unchanged; the session is untouched. |
| AuthContext.AuthProvider.Login | frontend/src/context/AuthContext.jsx:64-89 | Returns the login outcome. A success sets the current user and the stored session to the user without password; a failure changes neither; the user list is untouched. |
| AuthContext.AuthProvider.Logout | frontend/src/context/AuthContext.jsx:94-97 | Clears the current user and the stored session; the list is untouched. |
| AuthContext.AuthProvider.ApproveUser | frontend/src/context/AuthContext.jsx:102-109 | Saves and returns the approved list; the session is untouched. |
| AuthContext.AuthProvider.RejectUser | frontend/src/context/AuthContext.jsx:114-119 | Saves and returns the list without that id; the session is untouched. |
| AuthPage.RedirectFor | frontend/src/pages/Auth.jsx:38-44 | admin goes to /admin, scientist to /scientist, and every other role to /predict, each exactly. |
| AuthPage.SignupCheck | frontend/src/pages/Auth.jsx:51-62 | A mismatch is reported first. Then a password shorter than 6 characters. It passes exactly when both checks do. |
| AuthPage.SignupStoresCheckedPassword | frontend/src/pages/Auth.jsx:51-64 | When a form passes both checks and the signup succeeds, exactly one account is appended. It holds the form's email and its password, which has at least 6 characters and equals the confirmation. `HandleSubmit` uses this for its success branch. |
| AuthPage.AuthForm.constructor | frontend/src/pages/Auth.jsx:6-15 | Login mode, empty form with role 'user', no message, not loading. |
| AuthPage.AuthForm.HandleSubmit | frontend/src/pages/Auth.jsx:27-86 | Login: success navigates by role; failure shows the store's message; the list is untouched. Signup: a failed check shows its message without calling signup. Otherwise the store's message is shown, and success switches to login mode with the form reset; the account it stored has a password of at least 6 characters. Loading ends. |
| AdminDashboard.PendingUsers | frontend/src/pages/AdminDashboard.jsx:37 | Exactly the users with status 'pending'. |
| AdminDashboard.PendingKeepsOrder | frontend/src/pages/AdminDashboard.jsx:37 | The pending list keeps store order. |
| AdminDashboard.ApprovedUsers | frontend/src/pages/AdminDashboard.jsx:38 | Exactly the users with status 'approved'. |
| AdminDashboard.ApprovedKeepsOrder | frontend/src/pages/AdminDashboard.jsx:38 | The approved list keeps store order. |
| AdminDashboard.CountUsers | frontend/src/pages/AdminDashboard.jsx:41-48 | The total is all users, pending and approved are the two lists' lengths, and the role counts count approved users with that exact role. The role counts sum to at most the approved count, and pending plus approved to at most the total. |
| AdminDashboard.StatusesPartition | frontend/src/pages/AdminDashboard.jsx:37-44 | With only known statuses, pending plus approved is the total. |
| AdminDashboard.ApproveLeavesPending | frontend/src/pages/AdminDashboard.jsx:26-37 | After approving an id, the pending list is the old one without that id. |
| AdminDashboard.RejectLeavesPending | frontend/src/pages/AdminDashboard.jsx:31-37 | After rejecting an id, the pending list is the old one without that id. |
| AppRoutes.ProtectedRoute | frontend/src/App.jsx:16-28 | No current user redirects to /auth whatever the role. A required role the user lacks gives "Unauthorized access". No requirement, or a match, renders the children. |
| AppRoutes.StripTrailingSlashes | frontend/src/App.jsx:39-61 | The result is a prefix of the path, only '/' follows it, and it does not end in '/'. |
| AppRoutes.StripUnique | frontend/src/App.jsx:39-61 | That prefix is the only one with these properties. |
| AppRoutes.MatchesStatic | frontend/src/App.jsx:39-61 | The router's test of a path against a pattern without parameters: the pattern, ASCII letters in either case, then any run of '/'. A definition; `NormalisedMatches` and `HomeMatches` state what it accepts. |
| AppRoutes.NormalisedMatches | frontend/src/App.jsx:40-61 | A pattern without a trailing '/' matches a path, ASCII case ignored and trailing '/' allowed, exactly when the path, lower-cased and stripped of trailing '/', equals the pattern. |
| AppRoutes.HomeMatches | frontend/src/App.jsx:39 | "/" matches exactly the non-empty paths made of '/' alone. |
| AppRoutes.NamedPathMatches | frontend/src/App.jsx:40-61 | Each named route matches exactly the paths that normalise to it. |
| AppRoutes.IsCandidatePath | frontend/src/App.jsx:43 | The test for `/candidate/:id`. A definition; `CandidateId` states the shape of every path it accepts and `CandidatePathOf` that it accepts every path of that shape. |
| AppRoutes.CandidateId | frontend/src/App.jsx:43 | The id is non-empty and has no '/'. The path is the prefix, letters in either case, then the id as spelt, then only '/'. |
| AppRoutes.CandidatePathOf | frontend/src/App.jsx:43 | Every path of that shape is a candidate path, and its id is the segment. |
| AppRoutes.RequiredRole | frontend/src/App.jsx:46-61 | A path needs "admin" exactly when it normalises to "/admin" and "scientist" exactly when it normalises to "/scientist"; every other path has no guard. |
| AppRoutes.Route | frontend/src/App.jsx:38-65 | A path without a guard never redirects to /auth and is never refused. A candidate page's id is non-empty and has no '/'. |
| AppRoutes.RoutesDisjoint | frontend/src/App.jsx:38-65 | No path matches two routes of the table, so trying them in order picks the route the router ranks first. |
| AppRoutes.NamedPathMatchesItself | frontend/src/App.jsx:40-61 | Each named path, written as it is, matches its own route. |
| AppRoutes.TrailingSlashReachesGuard | frontend/src/App.jsx:46-53 | "/admin/" reaches the administrator's guard. |
| AppRoutes.UpperCaseReachesGuard | frontend/src/App.jsx:46-53 | "/ADMIN" reaches the administrator's guard. |
| AppRoutes.CandidateTrailingSlash | frontend/src/App.jsx:43 | "/candidate/abc/" shows the detail page for id "abc". |
| AppRoutes.OnlyGuardedPathsDependOnUser | frontend/src/App.jsx:39-64 | A path that matches neither guarded route routes the same for every user. |
| AppRoutes.SignedOutGoesToAuth | frontend/src/App.jsx:19-21 | Signed out, every path that matches a guarded route redirects to /auth. |
| AppRoutes.AdminPageExactlyForAdmins | frontend/src/App.jsx:46-53 | Every path matching /admin renders the dashboard exactly for role admin; other users are refused. |
| AppRoutes.ScientistPageExactlyForScientists | frontend/src/App.jsx:54-61 | Every path matching /scientist renders the dashboard exactly for role scientist; other users are refused. |
| AppRoutes.LoginRedirectRenders | frontend/src/App.jsx:39-61 | The page a login redirects to renders for that user. |
| AppRoutes.CatchAllReachesHome | frontend/src/App.jsx:64 | Exactly the paths no route matches navigate to /, and / renders the home page. |

## Left out

- The classifier, feature engineering, model loading, plotting and the HTTP routes of the back end are not part of this model. Their outputs (codes, probabilities, visualisation references) are inputs.
- `FileReader`, `fetch` and the API service are not modelled, so neither are their failure messages ('Error reading file' and the API errors). A file is its name and text; an analysis handler returns what it would submit.
- The browser's own form validation is not modelled. `required`, `type="email"` and `minLength={6}` on the sign-in inputs (frontend/src/pages/Auth.jsx:123-167) stop a submission before `handleSubmit` runs. A login with a three-character password therefore gets the browser's message, not "Invalid email or password.". `AuthPage.AuthForm.HandleSubmit` models the handler itself, for every input.
- The `catch` branches for exceptions that the modelled code cannot raise are left out: 'Invalid CSV format' in `validateCSV` and 'An error occurred. Please try again.' in the sign-in form.
- Predict.UploadPage.AddBatchFiles: the error is the message of the first failing file in selection order. In the browser `Promise.all` reports whichever file read fails first in time, which is not modelled.
- The `Promise.all` fan-out of the analysis handlers is concurrent network work. The handlers are modelled up to the submission they make, including loading and the error.
- View.SortedCopy: when some rows have a numeric key and others do not, the JavaScript comparator is inconsistent and the engine's order is implementation-defined. The contract still states permutation, and stability within each key, for that case. Order is stated only when every row has a key or none does.
- `Number.prototype.toFixed(1)` is the parameter `fixed1`. Its decimal rendering is not modelled.
- `new Date().toISOString()` is not modelled. The timestamp is a parameter of signup, of each seed record, and of the export filename.
- Strings are sequences of code points. UTF-16 lengths, a regular expression matching half of a surrogate pair, and case mapping beyond ASCII in `toLowerCase` are not modelled.
- `np.max` over a row containing NaN is not modelled: probabilities are reals.
- JsNumbers.Percentage, JsNumbers.PercentagesSumTo100, Backend.PercentagesSumTo100WhenKnown, Aggregate.AggregateKeepsCountsConsistent: percentages are exact reals, so these identities hold for exact arithmetic only. Both the page and the back end compute `(count / total) * 100` in IEEE-754 doubles, where each step rounds. There the product can miss `100 * count` and the sum can miss 100 by an ulp. For example, counts 0, 1 and 2 of 3 give 0 + 33.33333333333333 + 66.66666666666666 = 99.99999999999999. Double rounding is not modelled.
- Predict.RowMap, Predict.PreviewRow, Predict.RowMapKeys, Predict.RowMapLastWins: the preview row is a plain `{}` object. A header named `__proto__` is not stored there, because assigning to it calls the inherited `__proto__` setter, which ignores a string. Reading `row['__proto__']` then yields `Object.prototype`. The model stores that header and its cell like any other key, so these contracts also claim it for `__proto__`.
- The JSON encoding of stored values is not modelled. Storage holds the values themselves.
- CSV quoting: the page writes cells without quoting. `Export.CommaInSourceFileAddsColumn` shows what happens then; a quoting exporter is not modelled.
- The Blob and URL download plumbing, the charts (`ProbabilityDistributionChart`, `MockLightCurve`, `FeatureImportanceChart`), expanded-row state, tab state and all JSX rendering are not modelled.
- The form's `handleChange` and the tab buttons only copy a value into state and carry no logic. They are left out.
- The tab name of the upload page is the datatype `Tab`, not a string key.
- `getAllUsersFromDB`, `refreshUsers` and the dashboard's approve and reject handlers only pass through to the provider and replace the list. Their effect on the counts is `AdminDashboard.ApproveLeavesPending` and `AdminDashboard.RejectLeavesPending`.
- React Router's matching is modelled for this table: ASCII letters match in either case, trailing '/' is ignored, and `:id` is one segment. Percent-decoding of the path, a base name and history replacement are not modelled.
- `backend/templates/static/js/predict.js`, `frontend/src/services/api.js`, `backend/train_models.py`, `ScientistDashboard.jsx`, `CandidateDetail.jsx`, `Home.jsx` and `Navbar.jsx` are not part of this model.
