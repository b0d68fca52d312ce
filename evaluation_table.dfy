/**
 * The batch-test table of community-value-predictor-ai/components/EvaluationTable.tsx: which results are
 * shown, how many are left over, and how each shown row's error rate, status and id are derived.
 */
module EvaluationTable {
  import opened JsValues
  import opened Types
  import App

  /** The default of the `limit` prop. */
  const DefaultLimit := 50

  /** Where `slice(0, end)` stops on an array of length `len`: a negative end counts back from the end. */
  function SliceEnd(len: nat, end: int): nat {
    if end >= 0 then (if end < len then end else len)
    else if len + end > 0 then len + end else 0
  }

  /** `results.slice(0, limit)`. */
  function DisplayResults(results: seq<PredictionResult>, limit: int): seq<PredictionResult> {
    results[..SliceEnd(|results|, limit)]
  }

  /** `Math.max(0, results.length - limit)`. */
  function Remaining(results: seq<PredictionResult>, limit: int): nat {
    if |results| - limit > 0 then |results| - limit else 0
  }

  /** The colour band of a row. */
  datatype Status = Good | Bad | Neutral

  /** `row.errorPercent || 0`. */
  function ErrorRate(r: PredictionResult): real {
    if r.errorPercent.Some? then r.errorPercent.value else 0.0
  }

  /** Good below 10 percent, else bad above 30 percent, else neutral. */
  function StatusOf(errorRate: real): Status {
    if errorRate < 10.0 then Good else if errorRate > 30.0 then Bad else Neutral
  }

  /** `row.id || idx + 1`. */
  function ShownId(r: PredictionResult, idx: nat): int {
    if r.id.Some? && r.id.value != 0 then r.id.value else idx + 1
  }

  /** What one table row shows. */
  datatype RowView = RowView(shownId: int, actual: real, predicted: real, diff: real, errorRate: real, status: Status)

  /** The rendered table: the rows, the count in the heading, and the footer's leftover count when positive. */
  datatype TableView = TableView(rows: seq<RowView>, shownCount: nat, footer: Option<nat>)

  function RowViewOf(r: PredictionResult, idx: nat): RowView {
    RowView(ShownId(r, idx), r.actual, r.predicted, App.Abs(r.actual - r.predicted), ErrorRate(r), StatusOf(ErrorRate(r)))
  }

  /** The component: nothing for an empty list, else one row per displayed result and the footer. */
  function Render(results: seq<PredictionResult>, limit: int): Option<TableView> {
    if |results| == 0 then None
    else
      var shown := DisplayResults(results, limit);
      var remaining := Remaining(results, limit);
      Some(TableView(seq(|shown|, i requires 0 <= i < |shown| => RowViewOf(shown[i], i)), |shown|,
                     if remaining > 0 then Some(remaining) else None))
  }

  /** The table as App.tsx uses it, with the default limit. */
  function RenderDefault(results: seq<PredictionResult>): Option<TableView> {
    Render(results, DefaultLimit)
  }

  /**
   * The displayed results are a prefix of the results, in order: the first `min(len, limit)` for a
   * non-negative limit, and all but the last `-limit` for a negative one.
   */
  lemma DisplaySpec(results: seq<PredictionResult>, limit: int)
    ensures var d := DisplayResults(results, limit);
      && d == results[..|d|]
      && (limit >= 0 ==> |d| == if limit < |results| then limit else |results|)
      && (limit < 0 ==> |d| == if |results| + limit > 0 then |results| + limit else 0)
  {
  }

  /** For a non-negative limit the shown rows and the leftover count add up to the whole list. */
  lemma PagingAddsUp(results: seq<PredictionResult>, limit: int)
    requires limit >= 0
    ensures |DisplayResults(results, limit)| + Remaining(results, limit) == |results|
  {
  }

  /**
   * Nothing renders exactly when there are no results; otherwise row `i` shows displayed result `i`, the
   * heading counts the shown rows, and the footer appears exactly when some results are left over.
   */
  lemma RenderSpec(results: seq<PredictionResult>, limit: int)
    ensures Render(results, limit).None? <==> |results| == 0
    ensures Render(results, limit).Some? ==>
      var t := Render(results, limit).value;
      var d := DisplayResults(results, limit);
      && |t.rows| == |d| == t.shownCount
      && (forall i :: 0 <= i < |d| ==> t.rows[i] == RowViewOf(d[i], i))
      && (t.footer.Some? <==> Remaining(results, limit) > 0)
      && (t.footer.Some? ==> t.footer.value == Remaining(results, limit))
    ensures Render(results, limit).Some? && limit >= 0 ==>
      var t := Render(results, limit).value;
      && |t.rows| + t.footer.GetOr(0) == |results|
      && (t.footer.None? <==> |results| <= limit)
  {
  }

  /**
   * With the default limit, the first 50 results are shown and a footer counts the rest exactly when there
   * are more than 50.
   */
  lemma RenderDefaultSpec(results: seq<PredictionResult>)
    requires |results| > 0
    ensures var t := RenderDefault(results).value;
      && |t.rows| == (if |results| < 50 then |results| else 50)
      && (t.footer.Some? <==> |results| > 50)
      && |t.rows| + t.footer.GetOr(0) == |results|
  {
    RenderSpec(results, DefaultLimit);
  }

  /** No row is both good and bad: good is below 10, bad above 30, and neutral exactly the rest. */
  lemma StatusSpec(errorRate: real)
    ensures StatusOf(errorRate) == Good <==> errorRate < 10.0
    ensures StatusOf(errorRate) == Bad <==> errorRate > 30.0
    ensures StatusOf(errorRate) == Neutral <==> 10.0 <= errorRate <= 30.0
  {
  }

  /**
   * A missing percent error reads as 0, any other value is shown as it is, so the rate is 0 exactly when the
   * percent error is missing or 0, and it is never negative for a non-negative percent error.
   */
  lemma ErrorRateSpec(r: PredictionResult)
    ensures r.errorPercent.None? ==> ErrorRate(r) == 0.0
    ensures r.errorPercent.Some? ==> ErrorRate(r) == r.errorPercent.value
    ensures ErrorRate(r) == 0.0 <==> r.errorPercent == None || r.errorPercent == Some(0.0)
    ensures (r.errorPercent.Some? ==> r.errorPercent.value >= 0.0) ==> ErrorRate(r) >= 0.0
  {
  }

  /**
   * For a result the evaluation run produced for row `i`, the table shows id `i + 1` wherever it sits, a
   * non-negative error rate equal to its percent error, and its absolute error.
   */
  lemma EvaluatedRowShown(i: nat, actual: real, predicted: real, idx: nat)
    ensures var r := App.MakeResult(i, actual, predicted);
      var v := RowViewOf(r, idx);
      && v.shownId == i + 1
      && v.errorRate == r.errorPercent.value && v.errorRate >= 0.0
      && v.diff == r.error.value
  {
    App.MakeResultSpec(i, actual, predicted);
  }
}
