/**
 * The data-shaping logic of the community value predictor's main component
 * (community-value-predictor-ai/App.tsx): column type inference over a sample of the rows, toggling an input
 * column, and the evaluation run that samples rows without replacement, predicts on the valid ones and
 * scores each prediction.
 */
module App {
  import opened JsValues
  import opened Types
  import opened MLServiceModel

  /** At most this many rows are inspected per column. */
  const SampleLimit := 500
  /** At most this many rows are evaluated after training. */
  const EvaluationLimit := 200
  /** The target column every CSV must hold. */
  const TargetColumn := "y"

  // ---------------------------------------------------------------------------------------------------------
  // Column type inference (analyzeColumns)

  /** `Math.min(rows.length, 500)`. */
  function SampleSize(rows: seq<Row>): (r: nat)
    ensures r <= |rows| && r <= SampleLimit
    ensures r == |rows| || r == SampleLimit
  {
    if |rows| < SampleLimit then |rows| else SampleLimit
  }

  /** The trimmed text of a value the scan looks at, or None when the scan skips it. */
  function InspectedText(rt: Runtime, v: Option<Cell>): Option<string> {
    if v.None? || v.value == Text("") then None
    else
      var t := Trim(StringOf(rt, v.value));
      if t == "" then None else Some(t)
  }

  /** A value is skipped exactly when it is missing or its text is blank; a kept text has no whitespace at its ends. */
  lemma InspectedTextSpec(rt: Runtime, v: Option<Cell>)
    ensures InspectedText(rt, v).None? <==> v.None? || AllWhitespace(StringOf(rt, v.value))
    ensures InspectedText(rt, v).Some? ==>
      var t := InspectedText(rt, v).value;
      t != "" && !IsWhitespace(t[0]) && !IsWhitespace(t[|t| - 1])
  {
    if v.Some? {
      TrimSpec(StringOf(rt, v.value));
    }
  }

  /** The texts the scan of column `col` looks at, one per sampled row. */
  function InspectedTexts(rt: Runtime, rows: seq<Row>, col: string): (ts: seq<Option<string>>)
    ensures |ts| == SampleSize(rows)
  {
    seq(SampleSize(rows), i requires 0 <= i < SampleSize(rows) => InspectedText(rt, Lookup(rows[i], col)))
  }

  /** The loop variables of the scan: `isNumeric`, `min` and `max` (None while still infinite) and `uniqueSet`. */
  datatype Scan = Scan(isNumeric: bool, lo: Option<real>, hi: Option<real>, unique: seq<string>)

  const StartScan := Scan(true, None, None, [])

  /** `Set.prototype.add` on an insertion-ordered set without repeats. */
  function AddUnique(u: seq<string>, t: string): (r: seq<string>)
    ensures Distinct(u) ==> Distinct(r)
    ensures forall x :: x in r <==> x in u || x == t
  {
    if t in u then u else u + [t]
  }

  /** `Math.min(min, num)` with None standing for `Infinity`. */
  function MinWith(b: Option<real>, x: real): real {
    if b.Some? && b.value <= x then b.value else x
  }

  /** `Math.max(max, num)` with None standing for `-Infinity`. */
  function MaxWith(b: Option<real>, x: real): real {
    if b.Some? && b.value >= x then b.value else x
  }

  /** One iteration of the scan on an inspected text (None: the iteration `continue`s). */
  function ScanStep(parse: string -> Option<real>, s: Scan, t: Option<string>): Scan {
    match t
    case None => s
    case Some(text) =>
      match parse(text)
      case None => s.(isNumeric := false, unique := AddUnique(s.unique, text))
      case Some(x) =>
        if s.isNumeric then s.(lo := Some(MinWith(s.lo, x)), hi := Some(MaxWith(s.hi, x)))
        else s.(unique := AddUnique(s.unique, text))
  }

  /** The scan after the texts `ts`, in order. */
  function ScanTexts(parse: string -> Option<real>, ts: seq<Option<string>>): Scan {
    if ts == [] then StartScan else ScanStep(parse, ScanTexts(parse, ts[..|ts| - 1]), ts[|ts| - 1])
  }

  /** The text is present and does not parse as a number. */
  predicate NonNumeric(parse: string -> Option<real>, t: Option<string>) {
    t.Some? && parse(t.value).None?
  }

  /** The number a present text parses to. */
  function NumberOf(parse: string -> Option<real>, t: Option<string>): Option<real> {
    if t.Some? then parse(t.value) else None
  }

  /** Some text at or before position `i` failed to parse. */
  predicate SeenNonNumeric(parse: string -> Option<real>, ts: seq<Option<string>>, i: nat)
    requires i < |ts|
  {
    exists j :: 0 <= j <= i && NonNumeric(parse, ts[j])
  }

  /** The closing decision: a number column when still numeric and a number was seen, else a category. */
  function Summarize(col: string, s: Scan): ColumnMetadata {
    if s.isNumeric && s.lo.Some? then ColumnMetadata(col, NumberColumn, s.lo, s.hi, None)
    else ColumnMetadata(col, CategoryColumn, None, None, Some(SortStrings(s.unique)))
  }

  /** The metadata analyzeColumns records for column `col`. */
  function ColumnInfo(rt: Runtime, rows: seq<Row>, col: string): ColumnMetadata {
    Summarize(col, ScanTexts(rt.parseFloat, InspectedTexts(rt, rows, col)))
  }

  /** The scan stays numeric exactly as long as every text parses: `isNumeric` only ever goes from true to false. */
  lemma {:induction false} ScanNumeric(parse: string -> Option<real>, ts: seq<Option<string>>)
    ensures ScanTexts(parse, ts).isNumeric <==> forall i :: 0 <= i < |ts| ==> !NonNumeric(parse, ts[i])
  {
    if ts != [] {
      var init := ts[..|ts| - 1];
      ScanNumeric(parse, init);
      assert forall i :: 0 <= i < |init| ==> init[i] == ts[i];
    }
  }

  /**
   * While the scan is numeric, `min` and `max` are set exactly when a number was seen, `min <= max`, and
   * every number seen lies between them.
   */
  lemma {:induction false} ScanBounds(parse: string -> Option<real>, ts: seq<Option<string>>)
    ensures var s := ScanTexts(parse, ts);
      s.isNumeric ==>
        && (s.lo.Some? <==> exists i :: 0 <= i < |ts| && NumberOf(parse, ts[i]).Some?)
        && (s.lo.Some? <==> s.hi.Some?)
        && (s.lo.Some? ==> s.lo.value <= s.hi.value)
        && (forall i :: 0 <= i < |ts| && NumberOf(parse, ts[i]).Some? ==>
              s.lo.Some? && s.hi.Some? && s.lo.value <= NumberOf(parse, ts[i]).value <= s.hi.value)
  {
    if ts != [] {
      var init := ts[..|ts| - 1];
      ScanBounds(parse, init);
      assert forall i :: 0 <= i < |init| ==> init[i] == ts[i];
    }
  }

  /** While the scan is numeric, `min` and `max` are numbers that were seen. */
  lemma {:induction false} ScanBoundsAttained(parse: string -> Option<real>, ts: seq<Option<string>>)
    ensures var s := ScanTexts(parse, ts);
      s.isNumeric ==>
        && (s.lo.Some? ==> exists i :: 0 <= i < |ts| && NumberOf(parse, ts[i]) == s.lo)
        && (s.hi.Some? ==> exists i :: 0 <= i < |ts| && NumberOf(parse, ts[i]) == s.hi)
  {
    if ts != [] {
      var init := ts[..|ts| - 1];
      ScanBoundsAttained(parse, init);
      var s := ScanTexts(parse, init);
      var last := |ts| - 1;
      assert forall i :: 0 <= i < |init| ==> init[i] == ts[i];
      if ScanTexts(parse, ts).isNumeric && ts[last].Some? && parse(ts[last].value).Some? {
        var x := parse(ts[last].value).value;
        if s.lo.Some? && s.lo.value <= x {
          var i :| 0 <= i < |init| && NumberOf(parse, init[i]) == s.lo;
          assert NumberOf(parse, ts[i]) == s.lo;
        }
        if s.hi.Some? && s.hi.value >= x {
          var i :| 0 <= i < |init| && NumberOf(parse, init[i]) == s.hi;
          assert NumberOf(parse, ts[i]) == s.hi;
        }
      }
    }
  }

  /** Extending the texts does not change what was seen at or before an earlier position. */
  lemma SeenNonNumericPrefix(parse: string -> Option<real>, ts: seq<Option<string>>, i: nat, n: nat)
    requires i < n <= |ts|
    ensures SeenNonNumeric(parse, ts[..n], i) <==> SeenNonNumeric(parse, ts, i)
  {
    assert forall j :: 0 <= j <= i ==> ts[..n][j] == ts[j];
  }

  /**
   * The set of category values holds no repeats, and holds a text exactly when it was seen at a position at
   * or after the first text that failed to parse.
   */
  lemma {:induction false} ScanUnique(parse: string -> Option<real>, ts: seq<Option<string>>)
    ensures Distinct(ScanTexts(parse, ts).unique)
    ensures forall t :: t in ScanTexts(parse, ts).unique <==>
      exists i :: 0 <= i < |ts| && ts[i] == Some(t) && SeenNonNumeric(parse, ts, i)
  {
    if ts != [] {
      var n := |ts| - 1;
      var init := ts[..n];
      ScanUnique(parse, init);
      ScanNumeric(parse, init);
      var s := ScanTexts(parse, init);
      var u := ScanTexts(parse, ts).unique;
      forall i | 0 <= i < n ensures SeenNonNumeric(parse, init, i) <==> SeenNonNumeric(parse, ts, i) {
        SeenNonNumericPrefix(parse, ts, i, n);
      }
      assert SeenNonNumeric(parse, ts, n) <==> NonNumeric(parse, ts[n]) || !s.isNumeric by {
        if !s.isNumeric {
          var j :| 0 <= j < n && NonNumeric(parse, init[j]);
          assert NonNumeric(parse, ts[j]);
        }
        if SeenNonNumeric(parse, ts, n) && !NonNumeric(parse, ts[n]) {
          var j :| 0 <= j <= n && NonNumeric(parse, ts[j]);
          assert NonNumeric(parse, init[j]);
        }
      }
      forall t ensures t in u <==> exists i :: 0 <= i < |ts| && ts[i] == Some(t) && SeenNonNumeric(parse, ts, i) {
        if t in u && t in s.unique {
          var i :| 0 <= i < n && init[i] == Some(t) && SeenNonNumeric(parse, init, i);
          assert ts[i] == Some(t);
        }
        if exists i :: 0 <= i < |ts| && ts[i] == Some(t) && SeenNonNumeric(parse, ts, i) {
          var i :| 0 <= i < |ts| && ts[i] == Some(t) && SeenNonNumeric(parse, ts, i);
          if i < n {
            assert init[i] == Some(t);
          }
        }
      }
    }
  }

  /**
   * A column is a number column exactly when every inspected text parses as a number and at least one
   * text was inspected; otherwise it is a category (an all-blank column included).
   */
  lemma ColumnInfoKind(rt: Runtime, rows: seq<Row>, col: string)
    ensures var ts := InspectedTexts(rt, rows, col);
      ColumnInfo(rt, rows, col).kind == NumberColumn <==>
        (forall i :: 0 <= i < |ts| ==> !NonNumeric(rt.parseFloat, ts[i]))
        && exists i :: 0 <= i < |ts| && ts[i].Some?
  {
    var ts := InspectedTexts(rt, rows, col);
    ScanNumeric(rt.parseFloat, ts);
    ScanBounds(rt.parseFloat, ts);
    if (forall i :: 0 <= i < |ts| ==> !NonNumeric(rt.parseFloat, ts[i])) && exists i :: 0 <= i < |ts| && ts[i].Some? {
      var i :| 0 <= i < |ts| && ts[i].Some?;
      assert NumberOf(rt.parseFloat, ts[i]).Some?;
    }
  }

  /**
   * A number column has `min <= max`, both of them values it saw, every inspected number between them, and
   * no `uniqueValues`.
   */
  lemma ColumnInfoNumber(rt: Runtime, rows: seq<Row>, col: string)
    requires ColumnInfo(rt, rows, col).kind == NumberColumn
    ensures var m := ColumnInfo(rt, rows, col);
      var ts := InspectedTexts(rt, rows, col);
      && m.name == col && m.min.Some? && m.max.Some? && m.uniqueValues.None?
      && m.min.value <= m.max.value
      && (forall i :: 0 <= i < |ts| && ts[i].Some? ==>
            rt.parseFloat(ts[i].value).Some? && m.min.value <= rt.parseFloat(ts[i].value).value <= m.max.value)
      && (exists i :: 0 <= i < |ts| && ts[i].Some? && rt.parseFloat(ts[i].value) == m.min)
      && (exists i :: 0 <= i < |ts| && ts[i].Some? && rt.parseFloat(ts[i].value) == m.max)
  {
    var ts := InspectedTexts(rt, rows, col);
    ScanNumeric(rt.parseFloat, ts);
    ScanBounds(rt.parseFloat, ts);
    ScanBoundsAttained(rt.parseFloat, ts);
    var s := ScanTexts(rt.parseFloat, ts);
    forall i | 0 <= i < |ts| && ts[i].Some? ensures rt.parseFloat(ts[i].value).Some? {
      assert !NonNumeric(rt.parseFloat, ts[i]);
    }
    var i :| 0 <= i < |ts| && NumberOf(rt.parseFloat, ts[i]) == s.lo;
    var j :| 0 <= j < |ts| && NumberOf(rt.parseFloat, ts[j]) == s.hi;
    assert ts[i].Some? && ts[j].Some?;
  }

  /**
   * A category column has sorted `uniqueValues` without repeats, holding exactly the texts seen at or after
   * the first text that failed to parse, and no `min` or `max`.
   */
  lemma ColumnInfoCategory(rt: Runtime, rows: seq<Row>, col: string)
    requires ColumnInfo(rt, rows, col).kind == CategoryColumn
    ensures var m := ColumnInfo(rt, rows, col);
      var ts := InspectedTexts(rt, rows, col);
      && m.name == col && m.min.None? && m.max.None? && m.uniqueValues.Some?
      && Sorted(m.uniqueValues.value) && Distinct(m.uniqueValues.value)
      && forall t :: t in m.uniqueValues.value <==>
           exists i :: 0 <= i < |ts| && ts[i] == Some(t) && SeenNonNumeric(rt.parseFloat, ts, i)
  {
    var ts := InspectedTexts(rt, rows, col);
    ScanUnique(rt.parseFloat, ts);
    SortStringsDistinct(ScanTexts(rt.parseFloat, ts).unique);
  }

  /**
   * Every option a category offers is the trimmed text of a cell of that column among the inspected rows;
   * it is not empty, and trimming it again changes nothing.
   */
  lemma CategoryOptionsTrimmed(rt: Runtime, rows: seq<Row>, col: string)
    requires ColumnInfo(rt, rows, col).kind == CategoryColumn
    ensures ColumnInfo(rt, rows, col).uniqueValues.Some?
    ensures forall t :: t in ColumnInfo(rt, rows, col).uniqueValues.value ==>
      && t != "" && Trim(t) == t
      && exists i :: 0 <= i < SampleSize(rows) && col in rows[i] && t == Trim(StringOf(rt, rows[i][col]))
  {
    var ts := InspectedTexts(rt, rows, col);
    ColumnInfoCategory(rt, rows, col);
    forall t | t in ColumnInfo(rt, rows, col).uniqueValues.value
      ensures && t != "" && Trim(t) == t
              && exists i :: 0 <= i < SampleSize(rows) && col in rows[i] && t == Trim(StringOf(rt, rows[i][col]))
    {
      var i :| 0 <= i < |ts| && ts[i] == Some(t) && SeenNonNumeric(rt.parseFloat, ts, i);
      assert InspectedText(rt, Lookup(rows[i], col)) == Some(t);
      TrimIdempotent(StringOf(rt, rows[i][col]));
    }
  }

  /** Only the first 500 rows count: rows after them never change a column's metadata. */
  lemma ColumnInfoSampleCap(rt: Runtime, rows: seq<Row>, more: seq<Row>, col: string)
    requires |rows| >= SampleLimit
    ensures ColumnInfo(rt, rows + more, col) == ColumnInfo(rt, rows, col)
  {
    assert InspectedTexts(rt, rows + more, col) == InspectedTexts(rt, rows, col);
  }

  /** The scan of one column: the `for` loop over the sampled rows, then the closing decision. */
  method AnalyzeColumn(rt: Runtime, rows: seq<Row>, col: string) returns (m: ColumnMetadata)
    ensures m == ColumnInfo(rt, rows, col)
  {
    var isNumeric := true;
    var min: Option<real> := None;
    var max: Option<real> := None;
    var uniqueSet: seq<string> := [];
    var sampleSize := if |rows| < SampleLimit then |rows| else SampleLimit;
    ghost var ts := InspectedTexts(rt, rows, col);
    for i := 0 to sampleSize
      invariant Scan(isNumeric, min, max, uniqueSet) == ScanTexts(rt.parseFloat, ts[..i])
    {
      assert ts[..i + 1][..i] == ts[..i];
      assert ScanTexts(rt.parseFloat, ts[..i + 1]) == ScanStep(rt.parseFloat, ScanTexts(rt.parseFloat, ts[..i]), ts[i]);
      var val := Lookup(rows[i], col);
      assert ts[i] == InspectedText(rt, val);
      if val.None? || val.value == Text("") {
        continue;
      }
      var strVal := Trim(StringOf(rt, val.value));
      if strVal == "" {
        continue;
      }
      var num := rt.parseFloat(strVal);
      if num.None? {
        isNumeric := false;
        uniqueSet := AddUnique(uniqueSet, strVal);
      } else if isNumeric {
        min := Some(MinWith(min, num.value));
        max := Some(MaxWith(max, num.value));
      } else {
        uniqueSet := AddUnique(uniqueSet, strVal);
      }
    }
    assert ts[..sampleSize] == ts;
    if isNumeric && min.Some? {
      m := ColumnMetadata(col, NumberColumn, min, max, None);
    } else {
      m := ColumnMetadata(col, CategoryColumn, None, None, Some(SortStrings(uniqueSet)));
    }
  }

  /** `analyzeColumns`: one metadata entry per column, named after it, each the column's own scan. */
  method AnalyzeColumns(rt: Runtime, rows: seq<Row>, cols: seq<string>) returns (meta: Metadata)
    ensures forall c :: c in meta <==> c in cols
    ensures forall c :: c in cols ==> meta[c] == ColumnInfo(rt, rows, c) && meta[c].name == c
  {
    meta := map[];
    for k := 0 to |cols|
      invariant forall c :: c in meta <==> c in cols[..k]
      invariant forall c :: c in meta ==> meta[c] == ColumnInfo(rt, rows, c)
    {
      var info := AnalyzeColumn(rt, rows, cols[k]);
      meta := meta[cols[k] := info];
      assert cols[..k + 1] == cols[..k] + [cols[k]];
    }
    assert cols[..|cols|] == cols;
  }

  // ---------------------------------------------------------------------------------------------------------
  // Input-column selection (toggleInputColumn)

  /** `prev.filter(c => c !== col)`. */
  function RemoveAll(s: seq<string>, x: string): seq<string> {
    if s == [] then [] else (if s[0] == x then [] else [s[0]]) + RemoveAll(s[1..], x)
  }

  /** `toggleInputColumn`: drop every occurrence of a selected column, or append an unselected one. */
  function ToggleInputColumn(prev: seq<string>, col: string): seq<string> {
    if col in prev then RemoveAll(prev, col) else prev + [col]
  }

  /** Filtering leaves no occurrence of `x` and keeps every other entry as often as before. */
  lemma {:induction false} RemoveAllCounts(s: seq<string>, x: string)
    ensures x !in RemoveAll(s, x)
    ensures forall y :: y != x ==> multiset(RemoveAll(s, x))[y] == multiset(s)[y]
  {
    if s != [] {
      RemoveAllCounts(s[1..], x);
      assert s == [s[0]] + s[1..];
    }
  }

  /** Filtering a concatenation filters each part: the entries kept stay in their order. */
  lemma {:induction false} RemoveAllAppend(a: seq<string>, b: seq<string>, x: string)
    ensures RemoveAll(a + b, x) == RemoveAll(a, x) + RemoveAll(b, x)
  {
    if a != [] {
      RemoveAllAppend(a[1..], b, x);
      assert (a + b)[1..] == a[1..] + b;
    } else {
      assert a + b == b;
    }
  }

  /** Filtering out a value that does not occur changes nothing. */
  lemma {:induction false} RemoveAllAbsent(s: seq<string>, x: string)
    requires x !in s
    ensures RemoveAll(s, x) == s
  {
    if s != [] {
      RemoveAllAbsent(s[1..], x);
      assert s == [s[0]] + s[1..];
    }
  }

  /**
   * Toggling a selected column removes all its occurrences and keeps the other entries and their counts;
   * toggling an unselected one appends it at the end.
   */
  lemma ToggleSpec(prev: seq<string>, col: string)
    ensures var r := ToggleInputColumn(prev, col);
      && (col in prev ==> col !in r && forall y :: y != col ==> multiset(r)[y] == multiset(prev)[y])
      && (col !in prev ==> |r| == |prev| + 1 && r[..|prev|] == prev && r[|prev|] == col)
  {
    if col in prev {
      RemoveAllCounts(prev, col);
    }
  }

  /** Toggling an unselected column twice restores the selection. */
  lemma ToggleTwice(prev: seq<string>, col: string)
    requires col !in prev
    ensures ToggleInputColumn(ToggleInputColumn(prev, col), col) == prev
  {
    RemoveAllAppend(prev, [col], col);
    RemoveAllAbsent(prev, col);
  }

  // ---------------------------------------------------------------------------------------------------------
  // The evaluation run (generatePredictions)

  /** `Math.min(length, 200)`. */
  function EvaluationSize(n: nat): nat {
    if n < EvaluationLimit then n else EvaluationLimit
  }

  /**
   * The sampling loop: `availableIndices` starts as `0 .. n-1`; each round picks a random position, adds the
   * index there to the sample and splices it out. `Math.random` is the choice of `randIdx`.
   */
  method SampleIndices(n: nat) returns (picked: seq<int>)
    ensures |picked| == EvaluationSize(n)
    ensures Distinct(picked)
    ensures forall k :: 0 <= k < |picked| ==> 0 <= picked[k] < n
  {
    var subsetSize := if n < EvaluationLimit then n else EvaluationLimit;
    picked := [];
    var availableIndices := seq(n, i => i);
    var i := 0;
    while i < subsetSize
      invariant 0 <= i <= subsetSize
      invariant |picked| == i && |availableIndices| == n - i
      invariant Distinct(picked) && Distinct(availableIndices)
      invariant forall k :: 0 <= k < |picked| ==> 0 <= picked[k] < n
      invariant forall k :: 0 <= k < |availableIndices| ==> 0 <= availableIndices[k] < n
      invariant forall k :: 0 <= k < |picked| ==> picked[k] !in availableIndices
    {
      if |availableIndices| == 0 {
        break;
      }
      var randIdx :| 0 <= randIdx < |availableIndices|;
      var chosen := availableIndices[randIdx];
      picked := picked + [chosen];
      ghost var before := availableIndices;
      availableIndices := availableIndices[..randIdx] + availableIndices[randIdx + 1..];
      assert forall k :: 0 <= k < |availableIndices| ==>
        availableIndices[k] == if k < randIdx then before[k] else before[k + 1];
      i := i + 1;
    }
  }

  /** The row's value is one the `forEach` rejects: missing or the empty string. */
  predicate MissingInput(row: Row, col: string) {
    col !in row || row[col] == Text("")
  }

  /** Every selected input of the row is present and not the empty string. */
  predicate InputsPresent(row: Row, selected: seq<string>) {
    forall c :: c in selected ==> !MissingInput(row, c)
  }

  /** The `inputs` object of a valid row: the raw value of every selected column. */
  function SampledInputs(row: Row, selected: seq<string>): map<string, Cell>
    requires InputsPresent(row, selected)
  {
    map c | c in selected :: row[c]
  }

  /** `actual`: a text `y` is parsed, a number is taken as is, and anything else is not a number. */
  function ActualOf(rt: Runtime, row: Row): Option<real> {
    match Lookup(row, TargetColumn)
    case None => None
    case Some(Text(s)) => rt.parseFloat(s)
    case Some(Number(x)) => Some(x)
    case Some(NotANumber) => None
  }

  function Abs(x: real): real {
    if x < 0.0 then -x else x
  }

  /** The result pushed for row `i`: its id, both values, the absolute error and the percent error. */
  function MakeResult(i: nat, actual: real, predicted: real): PredictionResult {
    var diff := Abs(actual - predicted);
    PredictionResult(Some(i + 1), actual, predicted, Some(diff),
                     Some(if actual != 0.0 then diff / Abs(actual) * 100.0 else 0.0))
  }

  /**
   * A result carries `id = i + 1` and a non-negative error that is zero exactly when the prediction is
   * exact; the percent error is non-negative, is the error relative to `|actual|` in percent, and 0 when
   * `actual` is 0.
   */
  lemma MakeResultSpec(i: nat, actual: real, predicted: real)
    ensures var r := MakeResult(i, actual, predicted);
      && r.id == Some(i + 1) && r.actual == actual && r.predicted == predicted
      && r.error.Some? && r.error.value >= 0.0
      && (r.error.value == 0.0 <==> actual == predicted)
      && (r.error.value == actual - predicted || r.error.value == predicted - actual)
      && r.errorPercent.Some? && r.errorPercent.value >= 0.0
      && (actual != 0.0 ==> r.errorPercent.value * Abs(actual) == r.error.value * 100.0)
      && (actual == 0.0 ==> r.errorPercent.value == 0.0)
  {
  }

  /** What the loop body yields for sampled row `i`: nothing when it is skipped, else its scored prediction. */
  function EvalRow(rt: Runtime, ml: Ml5, svc: MLService, data: seq<Row>, selected: seq<string>, metadata: Metadata,
                   i: int): Option<PredictionResult>
    reads svc
    requires svc.Valid()
    requires 0 <= i < |data|
  {
    if !InputsPresent(data[i], selected) then None
    else
      var predicted := svc.Prediction(rt, ml, SampledInputs(data[i], selected), Some(metadata));
      match ActualOf(rt, data[i])
      case None => None
      case Some(a) => Some(MakeResult(i, a, predicted))
  }

  /** A row yields a result exactly when all its inputs are present and its `y` is a number; the result is that row's. */
  lemma EvalRowSpec(rt: Runtime, ml: Ml5, svc: MLService, data: seq<Row>, selected: seq<string>, metadata: Metadata,
                    i: int)
    requires svc.Valid()
    requires 0 <= i < |data|
    ensures var r := EvalRow(rt, ml, svc, data, selected, metadata, i);
      && (r.Some? <==> InputsPresent(data[i], selected) && ActualOf(rt, data[i]).Some?)
      && (r.Some? ==>
            r.value.id == Some(i + 1) && r.value.actual == ActualOf(rt, data[i]).value
            && r.value.predicted == svc.Prediction(rt, ml, SampledInputs(data[i], selected), Some(metadata)))
  {
  }

  /** The results pushed for the sample, in sample order. */
  function EvalRows(rt: Runtime, ml: Ml5, svc: MLService, data: seq<Row>, selected: seq<string>, metadata: Metadata,
                    sample: seq<int>): seq<PredictionResult>
    reads svc
    requires svc.Valid()
    requires forall k :: 0 <= k < |sample| ==> 0 <= sample[k] < |data|
  {
    if sample == [] then []
    else
      var rest := EvalRows(rt, ml, svc, data, selected, metadata, sample[..|sample| - 1]);
      match EvalRow(rt, ml, svc, data, selected, metadata, sample[|sample| - 1])
      case None => rest
      case Some(r) => rest + [r]
  }

  /** There are no more results than sampled rows, and each result is the result of some sampled row. */
  lemma {:induction false} EvalRowsSpec(rt: Runtime, ml: Ml5, svc: MLService, data: seq<Row>, selected: seq<string>,
                                        metadata: Metadata, sample: seq<int>)
    requires svc.Valid()
    requires forall k :: 0 <= k < |sample| ==> 0 <= sample[k] < |data|
    ensures |EvalRows(rt, ml, svc, data, selected, metadata, sample)| <= |sample|
    ensures forall r :: r in EvalRows(rt, ml, svc, data, selected, metadata, sample) <==>
      exists k :: 0 <= k < |sample| && EvalRow(rt, ml, svc, data, selected, metadata, sample[k]) == Some(r)
  {
    if sample != [] {
      var init := sample[..|sample| - 1];
      EvalRowsSpec(rt, ml, svc, data, selected, metadata, init);
      assert forall k :: 0 <= k < |init| ==> init[k] == sample[k];
      var last := EvalRow(rt, ml, svc, data, selected, metadata, sample[|init|]);
      var rows := EvalRows(rt, ml, svc, data, selected, metadata, sample);
      assert rows == EvalRows(rt, ml, svc, data, selected, metadata, init) + (if last.Some? then [last.value] else []);
      forall r | exists k :: 0 <= k < |sample| && EvalRow(rt, ml, svc, data, selected, metadata, sample[k]) == Some(r)
        ensures r in rows
      {
        var k :| 0 <= k < |sample| && EvalRow(rt, ml, svc, data, selected, metadata, sample[k]) == Some(r);
        if k < |init| {
          assert init[k] == sample[k];
        } else {
          assert k == |init|;
        }
      }
    }
  }

  /** The sort key `a.id || 0`. */
  function IdKey(r: PredictionResult): int {
    r.id.GetOr(0)
  }

  predicate SortedById(rs: seq<PredictionResult>) {
    forall i, j :: 0 <= i < j < |rs| ==> IdKey(rs[i]) <= IdKey(rs[j])
  }

  /** Inserts `r` into a sequence sorted by id, before the first entry whose id is no smaller. */
  function InsertById(r: PredictionResult, rs: seq<PredictionResult>): (out: seq<PredictionResult>)
    requires SortedById(rs)
    ensures SortedById(out)
    ensures multiset(out) == multiset(rs) + multiset{r}
  {
    if rs == [] then [r]
    else if IdKey(r) <= IdKey(rs[0]) then
      [r] + rs
    else
      var rest := InsertById(r, rs[1..]);
      InsertByIdBehind(r, rs, rest);
      [rs[0]] + rest
  }

  /** The head of a sorted sequence can go in front of the insertion of a later `r` into its tail. */
  lemma InsertByIdBehind(r: PredictionResult, rs: seq<PredictionResult>, rest: seq<PredictionResult>)
    requires SortedById(rs) && rs != [] && IdKey(rs[0]) < IdKey(r)
    requires SortedById(rest) && multiset(rest) == multiset(rs[1..]) + multiset{r}
    ensures SortedById([rs[0]] + rest)
    ensures multiset([rs[0]] + rest) == multiset(rs) + multiset{r}
  {
    assert rs == [rs[0]] + rs[1..];
    forall j | 0 <= j < |rest| ensures IdKey(rs[0]) <= IdKey(rest[j]) {
      var y := rest[j];
      assert y in multiset(rest);
      if y != r {
        assert y in multiset(rs[1..]);
        var k :| 0 <= k < |rs[1..]| && rs[1..][k] == y;
        assert rs[k + 1] == y;
      }
    }
  }

  /** `results.sort((a, b) => (a.id || 0) - (b.id || 0))`: a permutation sorted by ascending id. */
  function SortById(rs: seq<PredictionResult>): (out: seq<PredictionResult>)
    ensures SortedById(out)
    ensures multiset(out) == multiset(rs)
  {
    if rs == [] then []
    else
      assert rs == [rs[0]] + rs[1..];
      InsertById(rs[0], SortById(rs[1..]))
  }

  /**
   * The `forEach` over the selected columns of one row: `inputs` collects the present values, and the row
   * turns invalid at a missing or empty one (the callback returns, but the loop goes on).
   */
  method CollectInputs(row: Row, selected: seq<string>) returns (inputs: map<string, Cell>, rowIsValid: bool)
    ensures rowIsValid <==> InputsPresent(row, selected)
    ensures rowIsValid ==> inputs == SampledInputs(row, selected)
  {
    inputs := map[];
    rowIsValid := true;
    for j := 0 to |selected|
      invariant rowIsValid <==> forall i :: 0 <= i < j ==> !MissingInput(row, selected[i])
      invariant forall c :: c in inputs <==> c in selected[..j] && c in row && row[c] != Text("")
      invariant forall c :: c in inputs ==> inputs[c] == row[c]
    {
      assert selected[..j + 1] == selected[..j] + [selected[j]];
      var col := selected[j];
      if col !in row || row[col] == Text("") {
        rowIsValid := false;
      } else {
        inputs := inputs[col := row[col]];
      }
    }
    assert selected[..|selected|] == selected;
    assert InputsPresent(row, selected) <==> forall i :: 0 <= i < |selected| ==> !MissingInput(row, selected[i]);
  }

  /** The end of `generatePredictions`: no data, the empty-results error, or the sorted results. */
  datatype EvalOutcome = NoData | NoValidResults | Evaluated(results: seq<PredictionResult>)

  /**
   * `generatePredictions`: does nothing without data; otherwise samples `min(n, 200)` distinct rows, predicts
   * on each row whose inputs are all present, keeps the rows whose `y` is a number, and ends with the
   * results sorted by id or with the error when there are none.
   */
  method GeneratePredictions(rt: Runtime, ml: Ml5, svc: MLService, data: seq<Row>, selected: seq<string>,
                             metadata: Metadata)
    returns (sample: seq<int>, outcome: EvalOutcome)
    requires svc.Valid()
    ensures |data| == 0 ==> outcome == NoData
    ensures |data| > 0 ==>
      && |sample| == EvaluationSize(|data|) && Distinct(sample)
      && (forall k :: 0 <= k < |sample| ==> 0 <= sample[k] < |data|)
      && var results := EvalRows(rt, ml, svc, data, selected, metadata, sample);
        outcome == if results == [] then NoValidResults else Evaluated(SortById(results))
  {
    if |data| == 0 {
      return [], NoData;
    }
    sample := SampleIndices(|data|);
    var results: seq<PredictionResult> := [];
    for k := 0 to |sample|
      invariant results == EvalRows(rt, ml, svc, data, selected, metadata, sample[..k])
    {
      assert sample[..k + 1][..k] == sample[..k];
      var i := sample[k];
      var row := data[i];
      var inputs, rowIsValid := CollectInputs(row, selected);
      if !rowIsValid {
        continue;
      }
      var predicted := svc.Predict(rt, ml, inputs, Some(metadata));
      var actual := ActualOf(rt, row);
      if actual.Some? {
        results := results + [MakeResult(i, actual.value, predicted)];
      }
    }
    assert sample[..|sample|] == sample;
    if |results| == 0 {
      outcome := NoValidResults;
    } else {
      outcome := Evaluated(SortById(results));
    }
  }
}
