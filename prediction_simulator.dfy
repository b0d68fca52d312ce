/**
 * The what-if panel of community-value-predictor-ai/components/PredictionSimulator.tsx: the default value
 * each selected column starts with, the merge that keeps values the user already entered, the edit of one
 * value, and the conversion of the entered values before they are handed to the prediction service.
 */
module PredictionSimulator {
  import opened JsValues
  import opened Types
  import opened MLServiceModel
  import App

  /** The starting value for a column with metadata: `meta.min || 0`, the first category, or `''`. */
  function DefaultFor(meta: ColumnMetadata): Cell {
    if meta.kind == NumberColumn then Number(if meta.min.Some? then meta.min.value else 0.0)
    else if meta.uniqueValues.Some? && |meta.uniqueValues.value| > 0 then Text(meta.uniqueValues.value[0])
    else Text("")
  }

  /** The `defaults` object: one entry per selected column that has metadata. */
  function Defaults(selected: seq<string>, metadata: Metadata): map<string, Cell> {
    map c | c in selected && c in metadata :: DefaultFor(metadata[c])
  }

  /** `parseFloat(String(val))`, with NaN as `NotANumber`. */
  function ParsedCell(rt: Runtime, v: Cell): Cell {
    match rt.parseFloat(StringOf(rt, v))
    case Some(x) => Number(x)
    case None => NotANumber
  }

  /** The conversion of one entered value: parsed for a number column, passed through otherwise. */
  function ProcessedValue(rt: Runtime, values: map<string, Cell>, metadata: Metadata): string -> Cell {
    k => if k in values then (if IsNumberColumn(metadata, k) then ParsedCell(rt, values[k]) else values[k])
         else NotANumber
  }

  /** `processedInputs`: every entered value under its own column, converted. */
  function ProcessedInputs(rt: Runtime, values: map<string, Cell>, metadata: Metadata): map<string, Cell> {
    map k | k in values :: ProcessedValue(rt, values, metadata)(k)
  }

  /**
   * The defaults hold exactly the selected columns with metadata; a number column starts at its minimum (0
   * when there is none), a category with values at its first value, and any other column at `''`.
   */
  lemma DefaultsSpec(selected: seq<string>, metadata: Metadata)
    ensures var d := Defaults(selected, metadata);
      && (forall c :: c in d <==> c in selected && c in metadata)
      && (forall c :: c in d && metadata[c].kind == NumberColumn ==>
            d[c] == Number(metadata[c].min.GetOr(0.0)))
      && (forall c :: c in d && metadata[c].kind == CategoryColumn ==>
            if metadata[c].uniqueValues.Some? && metadata[c].uniqueValues.value != []
            then d[c] == Text(metadata[c].uniqueValues.value[0]) else d[c] == Text(""))
  {
  }

  /**
   * For metadata the column analysis produced, a number column's default is its observed minimum, within
   * `[min, max]`; a category's default is its smallest observed value, or `''` when it saw none.
   */
  lemma DefaultFromAnalysis(rt: Runtime, rows: seq<Row>, col: string)
    ensures var m := App.ColumnInfo(rt, rows, col);
      && (m.kind == NumberColumn ==>
            m.min.Some? && m.max.Some? && DefaultFor(m) == Number(m.min.value) && m.min.value <= m.max.value)
      && (m.kind == CategoryColumn ==>
            m.uniqueValues.Some?
            && (m.uniqueValues.value == [] ==> DefaultFor(m) == Text(""))
            && (m.uniqueValues.value != [] ==>
                  DefaultFor(m).Text? && DefaultFor(m).s in m.uniqueValues.value
                  && forall t :: t in m.uniqueValues.value ==> StrLe(DefaultFor(m).s, t)))
  {
    var m := App.ColumnInfo(rt, rows, col);
    if m.kind == NumberColumn {
      App.ColumnInfoNumber(rt, rows, col);
    } else {
      App.ColumnInfoCategory(rt, rows, col);
      var u := m.uniqueValues.value;
      if u != [] {
        forall t | t in u ensures StrLe(u[0], t) {
          var j :| 0 <= j < |u| && u[j] == t;
          if j == 0 {
            StrLeTotal(t, t);
          }
        }
      }
    }
  }

  /** Recomputing the defaults a second time changes nothing: held values win and the defaults are the same. */
  lemma RefreshTwice(selected: seq<string>, metadata: Metadata, prev: map<string, Cell>)
    ensures var d := Defaults(selected, metadata);
      d + (d + prev) == d + prev
  {
  }

  /** The conversion keeps every column, parses exactly the values of number columns and passes the rest. */
  lemma ProcessedInputsSpec(rt: Runtime, values: map<string, Cell>, metadata: Metadata)
    ensures var p := ProcessedInputs(rt, values, metadata);
      && p.Keys == values.Keys
      && (forall k :: k in values && IsNumberColumn(metadata, k) ==>
            (p[k].Number? || p[k] == NotANumber)
            && (p[k].Number? <==> rt.parseFloat(StringOf(rt, values[k])).Some?)
            && (p[k].Number? ==> rt.parseFloat(StringOf(rt, values[k])) == Some(p[k].x)))
      && (forall k :: k in values && !IsNumberColumn(metadata, k) ==> p[k] == values[k])
  {
  }

  /** The panel's state: the entered values, the last prediction (None: `null`) and the busy flag. */
  class Simulator {
    var inputValues: map<string, Cell>
    var prediction: Option<real>
    var predicting: bool

    constructor ()
      ensures inputValues == map[] && prediction == None && !predicting
    {
      inputValues := map[];
      prediction := None;
      predicting := false;
    }

    /** The effect on `selectedInputs` or `metadata` changing: merge in the defaults, held values winning, and clear the prediction. */
    method RefreshDefaults(selected: seq<string>, metadata: Metadata)
      modifies this
      ensures inputValues == Defaults(selected, metadata) + old(inputValues)
      ensures prediction == None && predicting == old(predicting)
    {
      var defaults: map<string, Cell> := map[];
      for k := 0 to |selected|
        invariant defaults == Defaults(selected[..k], metadata)
      {
        assert selected[..k + 1] == selected[..k] + [selected[k]];
        var col := selected[k];
        if col in metadata {
          defaults := defaults[col := DefaultFor(metadata[col])];
        }
      }
      assert selected[..|selected|] == selected;
      inputValues := defaults + inputValues;
      prediction := None;
    }

    /** `handleInputChange`: replace one column's value and clear the prediction. */
    method HandleInputChange(col: string, value: Cell)
      modifies this
      ensures inputValues == old(inputValues)[col := value]
      ensures prediction == None && predicting == old(predicting)
    {
      inputValues := inputValues[col := value];
      prediction := None;
    }

    /** The `forEach` over `Object.keys(inputValues)` that fills `processedInputs`. */
    method ProcessInputs(rt: Runtime, metadata: Metadata) returns (processedInputs: map<string, Cell>)
      ensures processedInputs == ProcessedInputs(rt, inputValues, metadata)
    {
      processedInputs := map[];
      var keys := inputValues.Keys;
      while keys != {}
        invariant keys <= inputValues.Keys
        invariant processedInputs == map k | k in inputValues.Keys - keys :: ProcessedValue(rt, inputValues, metadata)(k)
        decreases keys
      {
        var key :| key in keys;
        var val := inputValues[key];
        if key in metadata && metadata[key].kind == NumberColumn {
          processedInputs := processedInputs[key := ParsedCell(rt, val)];
        } else {
          processedInputs := processedInputs[key := val];
        }
        keys := keys - {key};
      }
    }

    /**
     * `handlePredict` as written: busy while it runs, then the prediction of the service on the converted
     * values, called without the column metadata. The panel's values are left as they were.
     */
    method HandlePredict(rt: Runtime, ml: Ml5, svc: MLService, metadata: Metadata)
      requires svc.Valid()
      modifies this
      ensures prediction == Some(svc.Prediction(rt, ml, ProcessedInputs(rt, old(inputValues), metadata), None))
      ensures inputValues == old(inputValues) && !predicting
    {
      predicting := true;
      var processedInputs := ProcessInputs(rt, metadata);
      var result := svc.Predict(rt, ml, processedInputs, None);
      prediction := Some(result);
      predicting := false;
    }

    /** `handlePredict` with the column metadata handed to the service, as the evaluation run does. */
    method HandlePredictWithMetadata(rt: Runtime, ml: Ml5, svc: MLService, metadata: Metadata)
      requires svc.Valid()
      modifies this
      ensures prediction == Some(svc.Prediction(rt, ml, ProcessedInputs(rt, old(inputValues), metadata), Some(metadata)))
      ensures inputValues == old(inputValues) && !predicting
    {
      predicting := true;
      var processedInputs := ProcessInputs(rt, metadata);
      var result := svc.Predict(rt, ml, processedInputs, Some(metadata));
      prediction := Some(result);
      predicting := false;
    }
  }

  /** A host whose `parseFloat` finds no number in the texts used below. */
  function SampleRuntime(): Runtime {
    HostFunctions(s => None, x => "0")
  }

  /**
   * Without metadata a category typed into the panel reaches the network as the number 0, although
   * prepareData trained the network on that very value as text: for a category column "district" holding
   * "A", the row value is acceptable and stored as the text "A", but the panel's "A" is converted to 0
   * (with the metadata it would be the text "A").
   */
  lemma SimulatorLosesCategories()
    ensures var rt := SampleRuntime();
      var metadata := map["district" := ColumnMetadata("district", CategoryColumn, None, None, Some(["A"]))];
      var row := map["district" := Text("A")];
      var processed := ProcessedInputs(rt, map["district" := Text("A")], metadata);
      && InputAcceptable(rt, row, "district", metadata)
      && StoredFeature(rt, row, "district", metadata) == FText("A")
      && PredictFeature(rt, Lookup(processed, "district"), PredictsAsCategory(None, "district")) == FNumber(0.0)
      && PredictFeature(rt, Lookup(processed, "district"), PredictsAsCategory(Some(metadata), "district")) == FText("A")
  {
    var rt := SampleRuntime();
    var metadata := map["district" := ColumnMetadata("district", CategoryColumn, None, None, Some(["A"]))];
    var values := map["district" := Text("A")];
    assert Trim("A") == "A" by {
      assert TrimStart("A") == "A";
      assert TrimEnd("A") == "A";
    }
    assert ProcessedInputs(rt, values, metadata) == values;
  }

  /** One panel value, converted by the panel and then by `predict` with the metadata, is the feature trained for its column. */
  lemma PanelValueMatches(rt: Runtime, row: Row, c: string, metadata: Metadata, v: Cell)
    requires forall s, x :: rt.parseFloat(s) == Some(x) ==> rt.parseFloat(rt.numberText(x)) == Some(x)
    requires InputAcceptable(rt, row, c, metadata)
    requires IsCategory(metadata, c) ==> v == Text(Trim(StringOf(rt, row[c])))
    requires !IsCategory(metadata, c) ==> v.Number? && rt.parseFloat(StringOf(rt, row[c])) == Some(v.x)
    ensures var p := if IsNumberColumn(metadata, c) then ParsedCell(rt, v) else v;
      PredictFeature(rt, Some(p), PredictsAsCategory(Some(metadata), c)) == StoredFeature(rt, row, c, metadata)
  {
    if !IsCategory(metadata, c) {
      assert rt.parseFloat(rt.numberText(v.x)) == Some(v.x);
    }
  }

  /**
   * With the metadata handed over, the panel's values for a row prepareData accepted reach the network as
   * exactly the inputs it was trained with for that row. The panel holds those values as its controls write
   * them: the parsed number for a number column (`handleInputChange(col, parseFloat(...))`) and, for a
   * category, the option picked from `uniqueValues`, that is, the cell's trimmed text. The host is assumed
   * to print every number its `parseFloat` yields so that `parseFloat` reads it back unchanged.
   */
  lemma SimulatorMatchesTraining(rt: Runtime, row: Row, cols: seq<string>, outCol: string, metadata: Metadata,
                                 values: map<string, Cell>)
    requires forall s, x :: rt.parseFloat(s) == Some(x) ==> rt.parseFloat(rt.numberText(x)) == Some(x)
    requires RowExample(rt, row, cols, outCol, KeyMapFor(cols), metadata).Some?
    requires forall c :: c in cols ==> c in values && c in row
    requires forall c :: c in cols && IsCategory(metadata, c) ==>
      c in row && values[c] == Text(Trim(StringOf(rt, row[c])))
    requires forall c :: c in cols && !IsCategory(metadata, c) ==>
      c in row && values[c].Number? && rt.parseFloat(StringOf(rt, row[c])) == Some(values[c].x)
    ensures Injective(KeyMapFor(cols))
    ensures PredictInputs(rt, KeyMapFor(cols), ProcessedInputs(rt, values, metadata), Some(metadata))
      == RowExample(rt, row, cols, outCol, KeyMapFor(cols), metadata).value.inputs
  {
    var keyMap := KeyMapFor(cols);
    KeyMapForFacts(cols);
    RowExampleAccepts(rt, row, cols, outCol, keyMap, metadata);
    RowExampleContents(rt, row, cols, outCol, keyMap, metadata);
    var m := RowExample(rt, row, cols, outCol, keyMap, metadata).value.inputs;
    var processed := ProcessedInputs(rt, values, metadata);
    var f := PredictFeatureOf(rt, processed, Some(metadata));
    forall c | c in keyMap ensures keyMap[c] in m && m[keyMap[c]] == f(c) {
      assert InputAcceptable(rt, row, c, metadata);
      assert processed[c] == ProcessedValue(rt, values, metadata)(c);
      PanelValueMatches(rt, row, c, metadata, values[c]);
    }
    RekeyedUnique(keyMap, f, m);
  }
}
