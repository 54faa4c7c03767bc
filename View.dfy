/**
 * The row view of the results page (frontend/src/pages/Results.jsx): the
 * class filter, the stable sort of a copy by original row or confidence,
 * the sort-toggle state machine, and the page state holding `filter` and
 * `sortConfig`.
 */
module View {
  import opened Wrappers
  import opened Seqs
  import opened Payload
  import JsText
  import Backend
  import Aggregate
  import Labels

  // ---------------------------------------------------------------- filter

  /** Whether the row filter `filter` keeps a row; 'all' and every unrecognised filter keep it. */
  predicate Keeps(filter: string, p: Prediction) {
    if filter == "all" then true
    else if filter == "confirmed" then JsText.Includes(p.prediction, "CONFIRMED")
    else if filter == "candidate" then JsText.Includes(p.prediction, "CANDIDATE")
    else if filter == "false_positive" then JsText.Includes(p.prediction, "FALSE POSITIVE")
    else true
  }

  function KeptBy(filter: string): Prediction -> bool {
    (p: Prediction) => Keeps(filter, p)
  }

  /** `currentData?.predictions?.filter(...) || []`. */
  function FilteredPredictions(data: Option<ResultRecord>, filter: string): (rows: seq<Prediction>)
    ensures data.None? ==> rows == []
    ensures data.Some? ==> |rows| <= |data.value.predictions|
    ensures data.Some? ==> forall p :: p in rows <==> p in data.value.predictions && Keeps(filter, p)
  {
    if data.None? then [] else Filter(data.value.predictions, KeptBy(filter))
  }

  /** Filter 'all', and any filter the page does not recognise, keep every row in its order. */
  lemma UnrecognisedFilterKeepsAll(data: ResultRecord, filter: string)
    requires filter !in {"confirmed", "candidate", "false_positive"}
    ensures FilteredPredictions(Some(data), filter) == data.predictions
  {
    FilterKeepsAll(data.predictions, KeptBy(filter));
  }

  /** The class filters keep exactly the rows whose label includes the class name. */
  lemma ClassFilterKeepsExactly(data: ResultRecord, filter: string, name: string, p: Prediction)
    requires (filter, name) in {("confirmed", "CONFIRMED"), ("candidate", "CANDIDATE"),
                                ("false_positive", "FALSE POSITIVE")}
    ensures p in FilteredPredictions(Some(data), filter)
            <==> p in data.predictions && JsText.Includes(p.prediction, name)
  {
  }

  /** The filter keeps relative order: rows from an earlier part of the list come first. */
  lemma FilterKeepsOrder(a: seq<Prediction>, b: seq<Prediction>, filter: string)
    ensures Filter(a + b, KeptBy(filter)) == Filter(a, KeptBy(filter)) + Filter(b, KeptBy(filter))
  {
    FilterConcat(a, b, KeptBy(filter));
  }

  /** Applying the same filter to its own output changes nothing. */
  lemma FilterIdempotent(rows: seq<Prediction>, filter: string)
    ensures Filter(Filter(rows, KeptBy(filter)), KeptBy(filter)) == Filter(rows, KeptBy(filter))
  {
    FilterKeepsAll(Filter(rows, KeptBy(filter)), KeptBy(filter));
  }

  /** Every row's label is the back end's label for the row's code. */
  ghost predicate LabelsMatchCodes(rows: seq<Prediction>) {
    forall p :: p in rows ==> p.prediction == Backend.LabelOf(p.code)
  }

  /** On such rows, each class filter keeps as many rows as have the class's code. */
  lemma ClassFilterCountsCodes(rows: seq<Prediction>)
    requires LabelsMatchCodes(rows)
    ensures Count(rows, KeptBy("confirmed")) == Count(rows, Backend.HasCode(2))
    ensures Count(rows, KeptBy("candidate")) == Count(rows, Backend.HasCode(1))
    ensures Count(rows, KeptBy("false_positive")) == Count(rows, Backend.HasCode(0))
  {
    forall k | 0 <= k < |rows|
      ensures KeptBy("confirmed")(rows[k]) == Backend.HasCode(2)(rows[k])
      ensures KeptBy("candidate")(rows[k]) == Backend.HasCode(1)(rows[k])
      ensures KeptBy("false_positive")(rows[k]) == Backend.HasCode(0)(rows[k])
    {
      assert rows[k] in rows;
      Labels.LabelNames(rows[k].code);
    }
    CountPointwise(rows, rows, KeptBy("confirmed"), Backend.HasCode(2));
    CountPointwise(rows, rows, KeptBy("candidate"), Backend.HasCode(1));
    CountPointwise(rows, rows, KeptBy("false_positive"), Backend.HasCode(0));
  }

  /** A payload as the back end builds it: labels from codes, statistics from the rows. */
  ghost predicate FromBackend(r: ResultRecord) {
    && LabelsMatchCodes(r.predictions)
    && var st := Backend.CalculateStatistics(r.predictions);
       st.Ok? && st.value == r.statistics
  }

  lemma {:induction false} FlatRowsCount(batch: seq<ResultRecord>, first: nat, filter: string)
    ensures Count(Aggregate.FlatRows(batch, first), KeptBy(filter))
         == Aggregate.SumOf(batch, (r: ResultRecord) => Count(r.predictions, KeptBy(filter)))
    ensures (forall j :: 0 <= j < |batch| ==> LabelsMatchCodes(batch[j].predictions))
            ==> LabelsMatchCodes(Aggregate.FlatRows(batch, first))
    decreases |batch|
  {
    if |batch| > 0 {
      var rows := Aggregate.ReindexedRows(batch[0], first);
      CountConcat(rows, Aggregate.FlatRows(batch[1..], first + 1), KeptBy(filter));
      CountPointwise(rows, batch[0].predictions, KeptBy(filter), KeptBy(filter));
      FlatRowsCount(batch[1..], first + 1, filter);
      if forall j :: 0 <= j < |batch| ==> LabelsMatchCodes(batch[j].predictions) {
        assert LabelsMatchCodes(batch[0].predictions);
        assert forall j :: 0 <= j < |batch[1..]| ==> LabelsMatchCodes(batch[1..][j].predictions) by {
          forall j | 0 <= j < |batch[1..]| ensures LabelsMatchCodes(batch[1..][j].predictions) {
            assert batch[1..][j] == batch[j + 1];
          }
        }
        forall p | p in rows ensures p.prediction == Backend.LabelOf(p.code) {
          var k :| 0 <= k < |rows| && rows[k] == p;
          assert batch[0].predictions[k] in batch[0].predictions;
        }
      }
    }
  }

  lemma {:induction false} SumOfPointwise(batch: seq<ResultRecord>, f: ResultRecord -> nat, g: ResultRecord -> nat)
    requires forall j :: 0 <= j < |batch| ==> f(batch[j]) == g(batch[j])
    ensures Aggregate.SumOf(batch, f) == Aggregate.SumOf(batch, g)
    decreases |batch|
  {
    if |batch| > 0 {
      assert f(batch[0]) == g(batch[0]);
      SumOfPointwise(batch[1..], f, g);
    }
  }

  /**
   * For a batch of back-end payloads, the 'confirmed' filter on the aggregate
   * keeps exactly as many rows as the aggregate's confirmed count, and
   * likewise for the other two classes.
   */
  lemma AggregateFilterMatchesCounts(batch: seq<ResultRecord>, modelUsed: Option<string>)
    requires |batch| > 0
    requires forall j :: 0 <= j < |batch| ==> FromBackend(batch[j])
    ensures var a := Aggregate.AggregateBatchResults(Some(batch), modelUsed).value;
      && |FilteredPredictions(Some(a), "confirmed")| == a.statistics.confirmedCount
      && |FilteredPredictions(Some(a), "candidate")| == a.statistics.candidateCount
      && |FilteredPredictions(Some(a), "false_positive")| == a.statistics.falsePositiveCount
  {
    var a := Aggregate.AggregateBatchResults(Some(batch), modelUsed).value;
    FlatRowsCount(batch, 1, "confirmed");
    FlatRowsCount(batch, 1, "candidate");
    FlatRowsCount(batch, 1, "false_positive");
    forall j | 0 <= j < |batch|
      ensures Count(batch[j].predictions, KeptBy("confirmed")) == batch[j].statistics.confirmedCount
      ensures Count(batch[j].predictions, KeptBy("candidate")) == batch[j].statistics.candidateCount
      ensures Count(batch[j].predictions, KeptBy("false_positive")) == batch[j].statistics.falsePositiveCount
    {
      assert FromBackend(batch[j]);
      ClassFilterCountsCodes(batch[j].predictions);
    }
    SumOfPointwise(batch, (r: ResultRecord) => Count(r.predictions, KeptBy("confirmed")), Aggregate.ConfirmedCount());
    SumOfPointwise(batch, (r: ResultRecord) => Count(r.predictions, KeptBy("candidate")), Aggregate.CandidateCount());
    SumOfPointwise(batch, (r: ResultRecord) => Count(r.predictions, KeptBy("false_positive")),
                   Aggregate.FalsePositiveCount());
  }

  // ------------------------------------------------------------------ sort

  /** The page's `sortConfig`: a column key and 'asc' or 'desc'. */
  datatype SortConfig = SortConfig(key: string, direction: string)

  /**
   * The number the comparator subtracts for a row, or None where JavaScript
   * subtracts `undefined` (or a non-numeric row label) and gets NaN.
   */
  function SortKey(cfg: SortConfig, p: Prediction): (k: Option<real>)
    ensures k.Some? <==>
      ((cfg.key == "row" && p.originalRow.Some? && p.originalRow.value.RowNum?)
       || (cfg.key == "confidence" && p.confidence.Some?))
  {
    if cfg.key == "row" then
      (match p.originalRow
       case Some(RowNum(n)) => Some(n as real)
       case _ => None)
    else if cfg.key == "confidence" then p.confidence
    else None
  }

  /**
   * The comparator passed to `sort`. A NaN difference counts as 0, as
   * ECMAScript's SortCompare prescribes, and so does every other key.
   */
  function Compare(cfg: SortConfig, a: Prediction, b: Prediction): (c: real)
    ensures SortKey(cfg, a).None? || SortKey(cfg, b).None? ==> c == 0.0
    ensures SortKey(cfg, a).Some? && SortKey(cfg, b).Some? ==>
      (c == 0.0 <==> SortKey(cfg, a) == SortKey(cfg, b)) &&
      (c < 0.0 <==> if cfg.direction == "asc" then SortKey(cfg, a).value < SortKey(cfg, b).value
                    else SortKey(cfg, a).value > SortKey(cfg, b).value)
  {
    match (SortKey(cfg, a), SortKey(cfg, b))
    case (Some(x), Some(y)) => if cfg.direction == "asc" then x - y else y - x
    case _ => 0.0
  }

  /** Insert `x` after the last element of `t` that does not compare greater than it. */
  function InsertSorted(cfg: SortConfig, t: seq<Prediction>, x: Prediction): seq<Prediction>
    decreases |t|
  {
    if |t| == 0 || Compare(cfg, t[|t| - 1], x) <= 0.0 then t + [x]
    else InsertSorted(cfg, t[..|t| - 1], x) + [t[|t| - 1]]
  }

  /** The stable sort of `s` by the comparator: insertion of each row into the sorted prefix. */
  function StableSorted(cfg: SortConfig, s: seq<Prediction>): seq<Prediction>
    decreases |s|
  {
    if |s| == 0 then [] else InsertSorted(cfg, StableSorted(cfg, s[..|s| - 1]), s[|s| - 1])
  }

  /** No row compares greater than a later one. */
  ghost predicate Sorted(cfg: SortConfig, s: seq<Prediction>) {
    forall i, j :: 0 <= i < j < |s| ==> Compare(cfg, s[i], s[j]) <= 0.0
  }

  /** Every row has a numeric sort key, so the comparator is a consistent order. */
  ghost predicate AllKeyed(cfg: SortConfig, s: seq<Prediction>) {
    forall p :: p in s ==> SortKey(cfg, p).Some?
  }

  function HasSortKey(cfg: SortConfig, k: Option<real>): Prediction -> bool {
    (p: Prediction) => SortKey(cfg, p) == k
  }

  lemma {:induction false} InsertSortedPermutes(cfg: SortConfig, t: seq<Prediction>, x: Prediction)
    ensures multiset(InsertSorted(cfg, t, x)) == multiset(t) + multiset{x}
    decreases |t|
  {
    if |t| > 0 && Compare(cfg, t[|t| - 1], x) > 0.0 {
      InsertSortedPermutes(cfg, t[..|t| - 1], x);
      assert t == t[..|t| - 1] + [t[|t| - 1]];
    }
  }

  /** Sorting rearranges the rows: same rows, same multiplicities. */
  lemma {:induction false} StableSortedPermutes(cfg: SortConfig, s: seq<Prediction>)
    ensures multiset(StableSorted(cfg, s)) == multiset(s)
    ensures |StableSorted(cfg, s)| == |s|
    decreases |s|
  {
    if |s| > 0 {
      StableSortedPermutes(cfg, s[..|s| - 1]);
      InsertSortedPermutes(cfg, StableSorted(cfg, s[..|s| - 1]), s[|s| - 1]);
      assert s == s[..|s| - 1] + [s[|s| - 1]];
    }
    assert |StableSorted(cfg, s)| == |multiset(StableSorted(cfg, s))|;
  }

  lemma SortedAppend(cfg: SortConfig, a: seq<Prediction>, b: Prediction)
    requires Sorted(cfg, a)
    requires forall e :: e in a ==> Compare(cfg, e, b) <= 0.0
    ensures Sorted(cfg, a + [b])
  {
    forall i, j | 0 <= i < j < |a + [b]| ensures Compare(cfg, (a + [b])[i], (a + [b])[j]) <= 0.0 {
      if j == |a| {
        assert a[i] in a;
      }
    }
  }

  lemma {:induction false} InsertSortedKeepsOrder(cfg: SortConfig, t: seq<Prediction>, x: Prediction)
    requires Sorted(cfg, t) && AllKeyed(cfg, t) && SortKey(cfg, x).Some?
    ensures Sorted(cfg, InsertSorted(cfg, t, x))
    decreases |t|
  {
    if |t| > 0 {
      var last := t[|t| - 1];
      assert last in t;
      if Compare(cfg, last, x) <= 0.0 {
        forall e | e in t ensures Compare(cfg, e, x) <= 0.0 {
          var i :| 0 <= i < |t| && t[i] == e;
          if i < |t| - 1 {
            assert Compare(cfg, t[i], last) <= 0.0;
          }
        }
        SortedAppend(cfg, t, x);
      } else {
        var init := t[..|t| - 1];
        assert forall e :: e in init ==> e in t;
        InsertSortedKeepsOrder(cfg, init, x);
        InsertSortedPermutes(cfg, init, x);
        forall e | e in InsertSorted(cfg, init, x) ensures Compare(cfg, e, last) <= 0.0 {
          assert e in multiset(init) + multiset{x};
          if e != x {
            var i :| 0 <= i < |init| && init[i] == e;
            assert Compare(cfg, t[i], t[|t| - 1]) <= 0.0;
          }
        }
        SortedAppend(cfg, InsertSorted(cfg, init, x), last);
      }
    }
  }

  /** When every row has a key, the sorted rows are in key order in the chosen direction. */
  lemma {:induction false} StableSortedIsSorted(cfg: SortConfig, s: seq<Prediction>)
    requires AllKeyed(cfg, s)
    ensures Sorted(cfg, StableSorted(cfg, s))
    decreases |s|
  {
    if |s| > 0 {
      var init := s[..|s| - 1];
      assert forall e :: e in init ==> e in s;
      assert s[|s| - 1] in s;
      StableSortedIsSorted(cfg, init);
      StableSortedPermutes(cfg, init);
      assert forall e :: e in StableSorted(cfg, init) ==> e in multiset(init);
      InsertSortedKeepsOrder(cfg, StableSorted(cfg, init), s[|s| - 1]);
    }
  }

  /** What `Sorted` means for the keys themselves: ascending or descending order. */
  lemma SortedKeys(cfg: SortConfig, s: seq<Prediction>, i: int, j: int)
    requires Sorted(cfg, s) && AllKeyed(cfg, s) && 0 <= i < j < |s|
    ensures cfg.direction == "asc" ==> SortKey(cfg, s[i]).value <= SortKey(cfg, s[j]).value
    ensures cfg.direction != "asc" ==> SortKey(cfg, s[i]).value >= SortKey(cfg, s[j]).value
  {
    assert s[i] in s && s[j] in s;
    assert Compare(cfg, s[i], s[j]) <= 0.0;
  }

  /** A row that compares greater than another has a different key from it. */
  lemma GreaterHasOtherKey(cfg: SortConfig, a: Prediction, b: Prediction)
    requires Compare(cfg, a, b) > 0.0
    ensures SortKey(cfg, a) != SortKey(cfg, b)
  {
  }

  lemma FilterSingleton<T>(x: T, keep: T -> bool)
    ensures Filter([x], keep) == if keep(x) then [x] else []
  {
    assert [x][1..] == [];
  }

  lemma {:induction false} InsertSortedStable(cfg: SortConfig, t: seq<Prediction>, x: Prediction, k: Option<real>)
    ensures Filter(InsertSorted(cfg, t, x), HasSortKey(cfg, k))
         == Filter(t, HasSortKey(cfg, k)) + Filter([x], HasSortKey(cfg, k))
    decreases |t|
  {
    var f := HasSortKey(cfg, k);
    if |t| == 0 || Compare(cfg, t[|t| - 1], x) <= 0.0 {
      assert InsertSorted(cfg, t, x) == t + [x];
      FilterConcat(t, [x], f);
    } else {
      var init, last := t[..|t| - 1], t[|t| - 1];
      var inserted := InsertSorted(cfg, init, x);
      assert InsertSorted(cfg, t, x) == inserted + [last];
      assert t == init + [last];
      InsertSortedStable(cfg, init, x, k);
      GreaterHasOtherKey(cfg, last, x);
      MovePastStable(init, inserted, last, x, f);
    }
  }

  /** Moving `x` in front of a row `last` it may not be tied with keeps each key's rows in order. */
  lemma MovePastStable<T>(init: seq<T>, inserted: seq<T>, last: T, x: T, f: T -> bool)
    requires Filter(inserted, f) == Filter(init, f) + Filter([x], f)
    requires !(f(x) && f(last))
    ensures Filter(inserted + [last], f) == Filter(init + [last], f) + Filter([x], f)
  {
    FilterConcat(inserted, [last], f);
    FilterConcat(init, [last], f);
    FilterSingleton(x, f);
    FilterSingleton(last, f);
  }

  /**
   * Stability: among rows with the same key, sorting keeps the original
   * order, so the rows of each key appear exactly as they did before.
   */
  lemma {:induction false} StableSortedIsStable(cfg: SortConfig, s: seq<Prediction>, k: Option<real>)
    ensures Filter(StableSorted(cfg, s), HasSortKey(cfg, k)) == Filter(s, HasSortKey(cfg, k))
    decreases |s|
  {
    if |s| > 0 {
      var f := HasSortKey(cfg, k);
      var init, last := s[..|s| - 1], s[|s| - 1];
      var prefix := StableSorted(cfg, init);
      assert StableSorted(cfg, s) == InsertSorted(cfg, prefix, last);
      assert s == init + [last];
      StableSortedIsStable(cfg, init, k);
      InsertSortedStable(cfg, prefix, last, k);
      FilterConcat(init, [last], f);
    }
  }

  /** Rows that are already in order are left as they are. */
  lemma {:induction false} StableSortedOfSorted(cfg: SortConfig, s: seq<Prediction>)
    requires Sorted(cfg, s)
    ensures StableSorted(cfg, s) == s
    decreases |s|
  {
    if |s| > 0 {
      var init := s[..|s| - 1];
      assert Sorted(cfg, init);
      StableSortedOfSorted(cfg, init);
      if |init| > 0 {
        assert Compare(cfg, s[|s| - 2], s[|s| - 1]) <= 0.0;
      }
      assert s == init + [s[|s| - 1]];
    }
  }

  /** With no row keyed (a single-file result sorted by row, or an unknown key) the order is kept. */
  lemma UnkeyedSortKeepsOrder(cfg: SortConfig, s: seq<Prediction>)
    requires forall p :: p in s ==> SortKey(cfg, p).None?
    ensures StableSorted(cfg, s) == s
  {
    assert Sorted(cfg, s) by {
      forall i, j | 0 <= i < j < |s| ensures Compare(cfg, s[i], s[j]) <= 0.0 {
        assert s[i] in s;
      }
    }
    StableSortedOfSorted(cfg, s);
  }

  /** `sortedPredictions`: copy the rows into an array and sort the copy in place. */
  method SortedCopy(rows: seq<Prediction>, cfg: SortConfig) returns (sorted: seq<Prediction>)
    ensures sorted == StableSorted(cfg, rows)
    ensures multiset(sorted) == multiset(rows)
    ensures AllKeyed(cfg, rows) ==> Sorted(cfg, sorted)
    ensures forall k :: Filter(sorted, HasSortKey(cfg, k)) == Filter(rows, HasSortKey(cfg, k))
  {
    var a := new Prediction[|rows|](k requires 0 <= k < |rows| => rows[k]);
    assert a[..] == rows;
    SortInPlace(a, cfg);
    sorted := a[..];
    StableSortedPermutes(cfg, rows);
    if AllKeyed(cfg, rows) {
      StableSortedIsSorted(cfg, rows);
    }
    forall k ensures Filter(sorted, HasSortKey(cfg, k)) == Filter(rows, HasSortKey(cfg, k)) {
      StableSortedIsStable(cfg, rows, k);
    }
  }

  /** Insertion sort in place: each row moves left past the rows that compare greater. */
  method SortInPlace(a: array<Prediction>, cfg: SortConfig)
    modifies a
    ensures a[..] == StableSorted(cfg, old(a[..]))
  {
    ghost var input := a[..];
    var i := 0;
    while i < a.Length
      invariant 0 <= i <= a.Length
      invariant a[..] == StableSorted(cfg, input[..i]) + input[i..]
    {
      ghost var before := a[..];
      InsertLast(a, i, cfg);
      SortStep(cfg, input, before, i);
      i := i + 1;
    }
    assert input[..a.Length] == input;
  }

  lemma SortStep(cfg: SortConfig, input: seq<Prediction>, before: seq<Prediction>, i: nat)
    requires i < |input| && before == StableSorted(cfg, input[..i]) + input[i..]
    ensures |before| == |input|
    ensures InsertSorted(cfg, before[..i], before[i]) + before[i + 1..]
         == StableSorted(cfg, input[..i + 1]) + input[i + 1..]
  {
    StableSortedPermutes(cfg, input[..i]);
    assert before[..i] == StableSorted(cfg, input[..i]);
    assert before[i] == input[i];
    assert before[i + 1..] == input[i + 1..];
    assert input[..i + 1][..i] == input[..i];
  }

  /** One pass of the insertion sort: `a[i]` moves into the sorted prefix `a[..i]`. */
  method InsertLast(a: array<Prediction>, i: nat, cfg: SortConfig)
    requires i < a.Length
    modifies a
    ensures a[..] == InsertSorted(cfg, old(a[..i]), old(a[i])) + old(a[i + 1..])
  {
    var x := a[i];
    ghost var t := a[..i];
    ghost var rest := a[i + 1..];
    var j := i;
    while j > 0 && Compare(cfg, a[j - 1], x) > 0.0
      invariant 0 <= j <= i && a.Length == |t| + 1 + |rest|
      invariant Shifted(a[..], t, rest, j)
      invariant InsertSorted(cfg, t, x) == InsertSorted(cfg, t[..j], x) + t[j..]
    {
      ghost var cur := a[..];
      assert a[j - 1] == cur[j - 1] == t[j - 1];
      InsertStep(cfg, t, x, j);
      a[j] := a[j - 1];
      ShiftStep(cur, t, rest, j);
      j := j - 1;
    }
    ghost var cur := a[..];
    a[j] := x;
    InsertDone(cfg, t, x, j);
    PlaceStep(cur, t, rest, j, x);
  }

  /** During the pass: the rows before slot j are untouched, the rows after it moved right by one. */
  ghost predicate Shifted(cur: seq<Prediction>, t: seq<Prediction>, rest: seq<Prediction>, j: nat) {
    && j <= |t| && |cur| == |t| + 1 + |rest|
    && cur[..j] == t[..j] && cur[j + 1..] == t[j..] + rest
  }

  lemma ShiftStep(cur: seq<Prediction>, t: seq<Prediction>, rest: seq<Prediction>, j: nat)
    requires 0 < j && Shifted(cur, t, rest, j)
    ensures Shifted(cur[j := cur[j - 1]], t, rest, j - 1)
  {
    var next := cur[j := cur[j - 1]];
    assert next[..j - 1] == cur[..j - 1];
    assert cur[j - 1] == t[j - 1];
    assert next[j..] == [t[j - 1]] + cur[j + 1..];
    assert t[j - 1..] == [t[j - 1]] + t[j..];
  }

  lemma PlaceStep(cur: seq<Prediction>, t: seq<Prediction>, rest: seq<Prediction>, j: nat, x: Prediction)
    requires Shifted(cur, t, rest, j)
    ensures cur[j := x] == t[..j] + [x] + t[j..] + rest
  {
    var next := cur[j := x];
    assert next == next[..j] + [next[j]] + next[j + 1..];
    assert next[..j] == cur[..j];
    assert next[j + 1..] == cur[j + 1..];
  }

  lemma InsertStep(cfg: SortConfig, t: seq<Prediction>, x: Prediction, j: int)
    requires 0 < j <= |t| && Compare(cfg, t[j - 1], x) > 0.0
    ensures InsertSorted(cfg, t[..j], x) + t[j..] == InsertSorted(cfg, t[..j - 1], x) + t[j - 1..]
  {
    assert t[..j][..j - 1] == t[..j - 1];
    assert t[j - 1..] == [t[j - 1]] + t[j..];
  }

  lemma InsertDone(cfg: SortConfig, t: seq<Prediction>, x: Prediction, j: int)
    requires 0 <= j <= |t| && (j == 0 || Compare(cfg, t[j - 1], x) <= 0.0)
    ensures InsertSorted(cfg, t[..j], x) == t[..j] + [x]
  {
  }

  // ---------------------------------------------------------- sort toggle

  /**
   * A click on a column header: the column becomes the key; the direction
   * turns 'desc' only when the column was already the key sorted 'asc'.
   */
  function HandleSort(current: SortConfig, key: string): (next: SortConfig)
    ensures next.key == key
    ensures next.direction in {"asc", "desc"}
    ensures next.direction == "desc" <==> current.key == key && current.direction == "asc"
  {
    SortConfig(key, if current.key == key && current.direction == "asc" then "desc" else "asc")
  }

  /** Clicking the same column twice flips the direction each time, starting from either state. */
  lemma HandleSortAlternates(current: SortConfig, key: string)
    ensures HandleSort(HandleSort(current, key), key).direction != HandleSort(current, key).direction
    ensures HandleSort(HandleSort(HandleSort(current, key), key), key) == HandleSort(current, key)
  {
  }

  /** Clicking a different column always starts it ascending. */
  lemma HandleSortNewColumnAscends(current: SortConfig, key: string)
    requires current.key != key
    ensures HandleSort(current, key) == SortConfig(key, "asc")
  {
  }

  // ------------------------------------------------------------ page state

  /** The results page's row view: the data shown, the filter and the sort configuration. */
  class ResultsView {
    const data: Option<ResultRecord>
    var filter: string
    var sortConfig: SortConfig

    /** Initial state: filter 'all', sorted by row ascending. */
    constructor (data: Option<ResultRecord>)
      ensures this.data == data
      ensures filter == "all" && sortConfig == SortConfig("row", "asc")
    {
      this.data := data;
      filter := "all";
      sortConfig := SortConfig("row", "asc");
    }

    /** The filter dropdown. */
    method SetFilter(f: string)
      modifies this
      ensures filter == f && sortConfig == old(sortConfig)
    {
      filter := f;
    }

    /** A click on a sortable column header. */
    method ClickSort(key: string)
      modifies this
      ensures sortConfig == HandleSort(old(sortConfig), key) && filter == old(filter)
    {
      sortConfig := HandleSort(sortConfig, key);
    }

    /** `filteredPredictions`. */
    function Filtered(): seq<Prediction>
      reads this
    {
      FilteredPredictions(data, filter)
    }

    /** `sortedPredictions`: the filtered rows, sorted on a copy; the view itself is unchanged. */
    method Sorted() returns (rows: seq<Prediction>)
      ensures rows == StableSorted(sortConfig, Filtered())
      ensures multiset(rows) == multiset(Filtered())
    {
      rows := SortedCopy(Filtered(), sortConfig);
    }
  }
}
