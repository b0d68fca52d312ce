/**
 * The ml5 wrapper of the community value predictor (community-value-predictor-ai/services/mlService.ts):
 * safe column keys, training-row validation and conversion, the readiness flag, and the mapping of
 * prediction inputs through the same keys. The ml5 network itself is a record of what it was handed,
 * and its `predict` is a function the caller supplies.
 */
module MLServiceModel {
  import opened JsValues
  import opened Types

  /** A value handed to ml5: category inputs as strings, all other inputs as numbers. */
  datatype Feature = FText(text: string) | FNumber(number: real)

  /** One `addData(inputs, outputs)` call. */
  datatype Example = Example(inputs: map<string, Feature>, outputs: map<string, real>)

  /** Where the network's weights come from. */
  datatype Weights = Untrained | TrainingStarted | LoadedFromFiles

  /** What the ml5 network has been handed: the rows added, whether `normalizeData` ran, its weights. */
  datatype Network = Network(examples: seq<Example>, normalized: bool, weights: Weights)

  /** `ml5.neuralNetwork({task: 'regression'})` before anything is added. */
  const FreshNetwork := Network([], false, Untrained)

  /** A field of an ml5 prediction item: a number other than NaN, or anything else. */
  datatype ItemField = FieldNumber(v: real) | FieldOther
  datatype Item = Item(fields: map<string, ItemField>)

  /** The first argument of ml5's predict callback. */
  datatype ResultsArg = Absent | ErrorObject | Items(items: seq<Item>) | OtherValue

  /** How ml5's predict answered: through its callback `(results, error)`, or by throwing. */
  datatype PredictReply = Callback(results: ResultsArg, error: bool) | Threw

  /** The trained network's `predict`, which ml5 defines and this model does not. */
  datatype Ml5 = Ml5(predict: (Network, map<string, Feature>) -> PredictReply)

  /** The end of `prepareData`: one of its two errors, or the number of rows handed to ml5. */
  datatype PrepareOutcome = EmptyDataset | NoValidRows | Prepared(validRows: nat)

  /** The end of `train`: the readiness error, or the call handed to ml5. */
  datatype TrainOutcome = NotInitialized | TrainingHandedOver

  const EmptyDatasetMessage := "数据集为空"
  const NotInitializedMessage := "Model not initialized. Call prepareData first."
  const InitialOutputKey := "target_y"
  const OutputKey := "label_y"
  const KeyPrefix := "val_"

  // ---------------------------------------------------------------------------------------------------------
  // Safe keys

  /** The ASCII key `val_${index}` that stands for the `index`-th input column. */
  function SafeKey(index: nat): string {
    KeyPrefix + NatToString(index)
  }

  /** Different column positions get different safe keys. */
  lemma SafeKeyInjective(i: nat, j: nat)
    requires SafeKey(i) == SafeKey(j)
    ensures i == j
  {
    assert NatToString(i) == SafeKey(i)[|KeyPrefix|..];
    assert NatToString(j) == SafeKey(j)[|KeyPrefix|..];
    NatToStringInjective(i, j);
  }

  predicate Injective(m: map<string, string>) {
    forall a, b :: a in m && b in m && m[a] == m[b] ==> a == b
  }

  /** The key map after the `forEach` has written the first `n` input columns. */
  function KeyMapPrefix(cols: seq<string>, n: nat): map<string, string>
    requires n <= |cols|
  {
    if n == 0 then map[] else KeyMapPrefix(cols, n - 1)[cols[n - 1] := SafeKey(n - 1)]
  }

  /** The key map after the whole `forEach`: it holds exactly the input columns. */
  function KeyMapFor(cols: seq<string>): (m: map<string, string>)
    ensures forall c :: c in m <==> c in cols
  {
    KeyMapPrefixShape(cols, |cols|);
    assert cols[..|cols|] == cols;
    KeyMapPrefix(cols, |cols|)
  }

  /** `j` is the last position below `n` that holds column `c`. */
  predicate LastPosition(cols: seq<string>, n: nat, c: string, j: nat)
    requires n <= |cols|
  {
    j < n && cols[j] == c && forall k :: j < k < n ==> cols[k] != c
  }

  /**
   * The key map holds every input column and nothing else, and maps each to the safe key of the last
   * position it occupies.
   */
  lemma {:induction false} KeyMapPrefixShape(cols: seq<string>, n: nat)
    requires n <= |cols|
    ensures forall c :: c in KeyMapPrefix(cols, n) <==> c in cols[..n]
    ensures forall c :: c in KeyMapPrefix(cols, n) ==>
      exists j :: LastPosition(cols, n, c, j) && KeyMapPrefix(cols, n)[c] == SafeKey(j)
  {
    if n > 0 {
      KeyMapPrefixShape(cols, n - 1);
      var m := KeyMapPrefix(cols, n);
      assert cols[..n] == cols[..n - 1] + [cols[n - 1]];
      forall c | c in m
        ensures exists j :: LastPosition(cols, n, c, j) && m[c] == SafeKey(j)
      {
        if c == cols[n - 1] {
          assert LastPosition(cols, n, c, n - 1);
        } else {
          var j :| LastPosition(cols, n - 1, c, j) && KeyMapPrefix(cols, n - 1)[c] == SafeKey(j);
          assert LastPosition(cols, n, c, j);
        }
      }
    }
  }

  /**
   * After the key loop: the keys are exactly the input columns, different columns get different safe keys,
   * and when the columns are distinct the `i`-th one maps to `val_i`.
   */
  lemma KeyMapForFacts(cols: seq<string>)
    ensures forall c :: c in KeyMapFor(cols) <==> c in cols
    ensures Injective(KeyMapFor(cols))
    ensures Distinct(cols) ==> forall i :: 0 <= i < |cols| ==> KeyMapFor(cols)[cols[i]] == SafeKey(i)
  {
    var m := KeyMapFor(cols);
    KeyMapPrefixShape(cols, |cols|);
    assert cols[..|cols|] == cols;
    forall a, b | a in m && b in m && m[a] == m[b] ensures a == b {
      var ja :| LastPosition(cols, |cols|, a, ja) && m[a] == SafeKey(ja);
      var jb :| LastPosition(cols, |cols|, b, jb) && m[b] == SafeKey(jb);
      SafeKeyInjective(ja, jb);
    }
    if Distinct(cols) {
      forall i | 0 <= i < |cols| ensures m[cols[i]] == SafeKey(i) {
        assert cols[i] in cols;
        var j :| LastPosition(cols, |cols|, cols[i], j) && m[cols[i]] == SafeKey(j);
        assert j == i;
      }
    }
  }

  // ---------------------------------------------------------------------------------------------------------
  // Row validation and conversion in prepareData

  function Lookup(row: Row, col: string): Option<Cell> {
    if col in row then Some(row[col]) else None
  }

  /** The null check: the value is missing, or blank once converted to text and trimmed. */
  predicate IsBlankValue(rt: Runtime, raw: Option<Cell>) {
    raw.None? || Trim(StringOf(rt, raw.value)) == ""
  }

  /** One input value as prepareData stores it, or None when it makes the row invalid. */
  function ConvertInput(rt: Runtime, raw: Option<Cell>, category: bool): Option<Feature> {
    if IsBlankValue(rt, raw) then None
    else if category then Some(FText(Trim(StringOf(rt, raw.value))))
    else
      match rt.parseFloat(StringOf(rt, raw.value))
      case None => None
      case Some(x) => Some(FNumber(x))
  }

  /**
   * The object built by storing `conv(c)` under the safe key `keyMap[c]` for each of the first `n` columns `c`,
   * or None from the first column whose conversion fails.
   */
  function Collect<V>(cols: seq<string>, n: nat, keyMap: map<string, string>, conv: string -> Option<V>)
    : Option<map<string, V>>
    requires n <= |cols|
    requires forall c :: c in cols ==> c in keyMap
  {
    if n == 0 then Some(map[])
    else
      match Collect(cols, n - 1, keyMap, conv)
      case None => None
      case Some(m) =>
        match conv(cols[n - 1])
        case None => None
        case Some(f) => Some(m[keyMap[cols[n - 1]] := f])
  }

  /** The conversion prepareData applies to the value of each input column of `row`. */
  function InputConversion(rt: Runtime, row: Row, metadata: Metadata): string -> Option<Feature> {
    c => ConvertInput(rt, Lookup(row, c), IsCategory(metadata, c))
  }

  /** The `inputs` object after the first `n` input columns, or None once a column made the row invalid. */
  function ConvertInputs(rt: Runtime, row: Row, cols: seq<string>, n: nat, keyMap: map<string, string>,
                         metadata: Metadata): Option<map<string, Feature>>
    requires n <= |cols|
    requires forall c :: c in cols ==> c in keyMap
  {
    Collect(cols, n, keyMap, InputConversion(rt, row, metadata))
  }

  /** The training example prepareData builds from one row, or None when the row is skipped. */
  function RowExample(rt: Runtime, row: Row, cols: seq<string>, outCol: string, keyMap: map<string, string>,
                      metadata: Metadata): Option<Example>
    requires forall c :: c in cols ==> c in keyMap
  {
    match ConvertInputs(rt, row, cols, |cols|, keyMap, metadata)
    case None => None
    case Some(inputs) =>
      match ParseValue(rt, Lookup(row, outCol))
      case None => None
      case Some(y) => Some(Example(inputs, map[OutputKey := y]))
  }

  /** Each row's training example, or None for a skipped row. */
  function RowExamples(rt: Runtime, data: seq<Row>, cols: seq<string>, outCol: string, keyMap: map<string, string>,
                       metadata: Metadata): (r: seq<Option<Example>>)
    requires forall c :: c in cols ==> c in keyMap
    ensures |r| == |data|
  {
    seq(|data|, i requires 0 <= i < |data| => RowExample(rt, data[i], cols, outCol, keyMap, metadata))
  }

  /** The examples handed to `addData` for the first `n` rows, in row order. */
  function AcceptedExamples(rt: Runtime, data: seq<Row>, n: nat, cols: seq<string>, outCol: string,
                            keyMap: map<string, string>, metadata: Metadata): seq<Example>
    requires n <= |data|
    requires forall c :: c in cols ==> c in keyMap
  {
    Present(RowExamples(rt, data, cols, outCol, keyMap, metadata)[..n])
  }

  /** An input value passes prepareData's checks: present, not blank, and numeric unless the column is a category. */
  predicate InputAcceptable(rt: Runtime, row: Row, col: string, metadata: Metadata) {
    && col in row
    && Trim(StringOf(rt, row[col])) != ""
    && (IsCategory(metadata, col) || rt.parseFloat(StringOf(rt, row[col])).Some?)
  }

  /** A row passes prepareData's checks: every input column is acceptable and the output parses as a number. */
  predicate RowAcceptable(rt: Runtime, row: Row, cols: seq<string>, outCol: string, metadata: Metadata) {
    && (forall c :: c in cols ==> InputAcceptable(rt, row, c, metadata))
    && ParseValue(rt, Lookup(row, outCol)).Some?
  }

  /** The value prepareData stores for an acceptable input: trimmed text for categories, the parsed number otherwise. */
  function StoredFeature(rt: Runtime, row: Row, col: string, metadata: Metadata): Feature
    requires col in row
  {
    if IsCategory(metadata, col) then FText(Trim(StringOf(rt, row[col])))
    else FNumber(rt.parseFloat(StringOf(rt, row[col])).GetOr(0.0))
  }

  /** One input value converts exactly when it is acceptable, and then to the stored value. */
  lemma ConvertInputSpec(rt: Runtime, row: Row, col: string, metadata: Metadata)
    ensures var f := ConvertInput(rt, Lookup(row, col), IsCategory(metadata, col));
      && (f.Some? <==> InputAcceptable(rt, row, col, metadata))
      && (f.Some? ==> f.value == StoredFeature(rt, row, col, metadata))
  {
  }

  /** Collecting succeeds on the first `n` columns exactly when each of their conversions succeeds. */
  lemma {:induction false} CollectAccepts<V>(cols: seq<string>, n: nat, keyMap: map<string, string>,
                                             conv: string -> Option<V>)
    requires n <= |cols|
    requires forall c :: c in cols ==> c in keyMap
    ensures Collect(cols, n, keyMap, conv).Some? <==> forall i :: 0 <= i < n ==> conv(cols[i]).Some?
  {
    if n > 0 {
      CollectAccepts(cols, n - 1, keyMap, conv);
    }
  }

  /** A successful collection holds, under each column's safe key, that column's converted value. */
  lemma {:induction false} CollectValues<V>(cols: seq<string>, n: nat, keyMap: map<string, string>,
                                            conv: string -> Option<V>)
    requires n <= |cols|
    requires forall c :: c in cols ==> c in keyMap
    requires Injective(keyMap)
    requires Collect(cols, n, keyMap, conv).Some?
    ensures var m := Collect(cols, n, keyMap, conv).value;
      forall i :: 0 <= i < n ==> keyMap[cols[i]] in m && Some(m[keyMap[cols[i]]]) == conv(cols[i])
  {
    if n > 0 {
      CollectValues(cols, n - 1, keyMap, conv);
      var c := cols[n - 1];
      var m := Collect(cols, n, keyMap, conv).value;
      forall i | 0 <= i < n ensures keyMap[cols[i]] in m && Some(m[keyMap[cols[i]]]) == conv(cols[i]) {
        if keyMap[cols[i]] == keyMap[c] {
          assert cols[i] == c;
        }
      }
    }
  }

  /** A successful collection has no keys other than the safe keys of the columns seen. */
  lemma {:induction false} CollectKeys<V>(cols: seq<string>, n: nat, keyMap: map<string, string>,
                                          conv: string -> Option<V>)
    requires n <= |cols|
    requires forall c :: c in cols ==> c in keyMap
    requires Collect(cols, n, keyMap, conv).Some?
    ensures forall k :: k in Collect(cols, n, keyMap, conv).value ==> exists i :: 0 <= i < n && keyMap[cols[i]] == k
  {
    if n > 0 {
      CollectKeys(cols, n - 1, keyMap, conv);
      var m := Collect(cols, n, keyMap, conv).value;
      forall k | k in m ensures exists i :: 0 <= i < n && keyMap[cols[i]] == k {
        if k != keyMap[cols[n - 1]] {
          var i :| 0 <= i < n - 1 && keyMap[cols[i]] == k;
        }
      }
    }
  }

  /** Once a column's conversion has failed, the remaining columns do not matter. */
  lemma {:induction false} CollectStaysNone<V>(cols: seq<string>, k: nat, n: nat, keyMap: map<string, string>,
                                               conv: string -> Option<V>)
    requires k <= n <= |cols|
    requires forall c :: c in cols ==> c in keyMap
    requires Collect(cols, k, keyMap, conv) == None
    ensures Collect(cols, n, keyMap, conv) == None
    decreases n - k
  {
    if k < n {
      CollectStaysNone(cols, k + 1, n, keyMap, conv);
    }
  }

  /** The input loop succeeds on the first `n` columns exactly when each of them is acceptable. */
  lemma ConvertInputsAccepts(rt: Runtime, row: Row, cols: seq<string>, n: nat,
                             keyMap: map<string, string>, metadata: Metadata)
    requires n <= |cols|
    requires forall c :: c in cols ==> c in keyMap
    ensures ConvertInputs(rt, row, cols, n, keyMap, metadata).Some?
      <==> forall i :: 0 <= i < n ==> InputAcceptable(rt, row, cols[i], metadata)
  {
    var conv := InputConversion(rt, row, metadata);
    CollectAccepts(cols, n, keyMap, conv);
    forall i | 0 <= i < n ensures conv(cols[i]).Some? <==> InputAcceptable(rt, row, cols[i], metadata) {
      ConvertInputSpec(rt, row, cols[i], metadata);
    }
  }

  /** prepareData accepts a row exactly when it passes all three checks (the acceptance rule, both directions). */
  lemma RowExampleAccepts(rt: Runtime, row: Row, cols: seq<string>, outCol: string, keyMap: map<string, string>,
                          metadata: Metadata)
    requires forall c :: c in cols ==> c in keyMap
    ensures RowExample(rt, row, cols, outCol, keyMap, metadata).Some? <==> RowAcceptable(rt, row, cols, outCol, metadata)
  {
    ConvertInputsAccepts(rt, row, cols, |cols|, keyMap, metadata);
    if RowAcceptable(rt, row, cols, outCol, metadata) {
      assert forall i :: 0 <= i < |cols| ==> InputAcceptable(rt, row, cols[i], metadata);
    } else if ParseValue(rt, Lookup(row, outCol)).Some? {
      var c :| c in cols && !InputAcceptable(rt, row, c, metadata);
      var i :| 0 <= i < |cols| && cols[i] == c;
    }
  }

  /**
   * The example built from an accepted row holds, under the safe key of each input column, the stored value of
   * that column and nothing else, and the parsed output under `label_y`.
   */
  lemma RowExampleContents(rt: Runtime, row: Row, cols: seq<string>, outCol: string, keyMap: map<string, string>,
                           metadata: Metadata)
    requires forall c :: c in cols ==> c in keyMap
    requires Injective(keyMap)
    requires RowExample(rt, row, cols, outCol, keyMap, metadata).Some?
    ensures var e := RowExample(rt, row, cols, outCol, keyMap, metadata).value;
      && (forall c :: c in cols ==> c in row && keyMap[c] in e.inputs && e.inputs[keyMap[c]] == StoredFeature(rt, row, c, metadata))
      && (forall k :: k in e.inputs ==> exists c :: c in cols && keyMap[c] == k)
      && e.outputs == map[OutputKey := ParseValue(rt, Lookup(row, outCol)).value]
  {
    var conv := InputConversion(rt, row, metadata);
    var m := Collect(cols, |cols|, keyMap, conv).value;
    CollectValues(cols, |cols|, keyMap, conv);
    CollectKeys(cols, |cols|, keyMap, conv);
    forall c | c in cols ensures c in row && keyMap[c] in m && m[keyMap[c]] == StoredFeature(rt, row, c, metadata) {
      var i :| 0 <= i < |cols| && cols[i] == c;
      ConvertInputSpec(rt, row, c, metadata);
    }
    forall k | k in m ensures exists c :: c in cols && keyMap[c] == k {
      var i :| 0 <= i < |cols| && keyMap[cols[i]] == k;
      assert cols[i] in cols;
    }
  }

  /** One more row adds its example, if it has one, at the end. */
  lemma AcceptedExamplesStep(rt: Runtime, data: seq<Row>, n: nat, cols: seq<string>, outCol: string,
                             keyMap: map<string, string>, metadata: Metadata)
    requires n < |data|
    requires forall c :: c in cols ==> c in keyMap
    ensures var e := RowExample(rt, data[n], cols, outCol, keyMap, metadata);
      AcceptedExamples(rt, data, n + 1, cols, outCol, keyMap, metadata)
        == AcceptedExamples(rt, data, n, cols, outCol, keyMap, metadata) + (if e.Some? then [e.value] else [])
    ensures RowExample(rt, data[n], cols, outCol, keyMap, metadata).None? ==>
      AcceptedExamples(rt, data, n + 1, cols, outCol, keyMap, metadata)
        == AcceptedExamples(rt, data, n, cols, outCol, keyMap, metadata)
  {
    var all := RowExamples(rt, data, cols, outCol, keyMap, metadata);
    assert all[..n + 1][..n] == all[..n];
    var prev := AcceptedExamples(rt, data, n, cols, outCol, keyMap, metadata);
    assert prev + [] == prev;
  }

  /** The examples handed to `addData` are exactly the examples of the acceptable rows, and never exceed the rows seen. */
  lemma AcceptedExamplesSpec(rt: Runtime, data: seq<Row>, n: nat, cols: seq<string>, outCol: string,
                             keyMap: map<string, string>, metadata: Metadata)
    requires n <= |data|
    requires forall c :: c in cols ==> c in keyMap
    ensures |AcceptedExamples(rt, data, n, cols, outCol, keyMap, metadata)| <= n
    ensures forall e :: e in AcceptedExamples(rt, data, n, cols, outCol, keyMap, metadata) <==>
      exists i :: 0 <= i < n && RowExample(rt, data[i], cols, outCol, keyMap, metadata) == Some(e)
  {
    var prefix := RowExamples(rt, data, cols, outCol, keyMap, metadata)[..n];
    PresentSpec(prefix);
    assert forall i :: 0 <= i < n ==> prefix[i] == RowExample(rt, data[i], cols, outCol, keyMap, metadata);
    forall e ensures Some(e) in prefix <==>
      exists i :: 0 <= i < n && RowExample(rt, data[i], cols, outCol, keyMap, metadata) == Some(e)
    {
      if Some(e) in prefix {
        var i :| 0 <= i < n && prefix[i] == Some(e);
      }
    }
  }

  // ---------------------------------------------------------------------------------------------------------
  // Prediction input mapping and result extraction

  /** One prediction input as `predict` converts it: `String(raw || "")` for categories, else the number or 0. */
  function PredictFeature(rt: Runtime, raw: Option<Cell>, category: bool): Feature {
    if category then FText(if Truthy(raw) then StringOf(rt, raw.value) else "")
    else
      match ParseValue(rt, raw)
      case Some(x) => FNumber(x)
      case None => FNumber(0.0)
  }

  /** The column is treated as a category by `predict`: metadata was passed and says so. */
  predicate PredictsAsCategory(metadata: Option<Metadata>, col: string) {
    metadata.Some? && IsCategory(metadata.value, col)
  }

  /** The values `f(c)` of the columns `c` in `done`, each stored under its safe key `keyMap[c]`. */
  function Rekeyed<V>(keyMap: map<string, string>, done: set<string>, f: string -> V): map<string, V>
    requires Injective(keyMap)
    requires done <= keyMap.Keys
  {
    map c | c in done :: keyMap[c] := f(c)
  }

  /** Each column's value sits under its safe key. */
  lemma RekeyedAt<V>(keyMap: map<string, string>, done: set<string>, f: string -> V, c: string)
    requires Injective(keyMap)
    requires done <= keyMap.Keys && c in done
    ensures keyMap[c] in Rekeyed(keyMap, done, f) && Rekeyed(keyMap, done, f)[keyMap[c]] == f(c)
  {
  }

  /** Storing one more column adds its value under its safe key. */
  lemma RekeyedAdd<V>(keyMap: map<string, string>, done: set<string>, f: string -> V, c: string)
    requires Injective(keyMap)
    requires done <= keyMap.Keys && c in keyMap
    ensures Rekeyed(keyMap, done + {c}, f) == Rekeyed(keyMap, done, f)[keyMap[c] := f(c)]
  {
    var lhs := Rekeyed(keyMap, done + {c}, f);
    var rhs := Rekeyed(keyMap, done, f)[keyMap[c] := f(c)];
    forall k | k in lhs ensures k in rhs && lhs[k] == rhs[k] {
      var c' :| c' in done + {c} && keyMap[c'] == k;
      if c' != c {
        RekeyedAt(keyMap, done, f, c');
      }
    }
    forall k | k in rhs ensures k in lhs {
      if k != keyMap[c] {
        var c' :| c' in done && keyMap[c'] == k;
        RekeyedAt(keyMap, done + {c}, f, c');
      }
    }
  }

  /** The keys are exactly the safe keys of the columns stored. */
  lemma RekeyedKeys<V>(keyMap: map<string, string>, f: string -> V)
    requires Injective(keyMap)
    ensures Rekeyed(keyMap, keyMap.Keys, f).Keys == keyMap.Values
  {
    var m := Rekeyed(keyMap, keyMap.Keys, f);
    forall k | k in keyMap.Values ensures k in m {
      var c :| c in keyMap && keyMap[c] == k;
      RekeyedAt(keyMap, keyMap.Keys, f, c);
    }
  }

  /** A map with exactly the safe keys, holding `f(c)` under the safe key of each column `c`, is `Rekeyed`. */
  lemma RekeyedUnique<V>(keyMap: map<string, string>, f: string -> V, m: map<string, V>)
    requires Injective(keyMap)
    requires forall k :: k in m ==> exists c :: c in keyMap && keyMap[c] == k
    requires forall c :: c in keyMap ==> keyMap[c] in m && m[keyMap[c]] == f(c)
    ensures Rekeyed(keyMap, keyMap.Keys, f) == m
  {
    var r := Rekeyed(keyMap, keyMap.Keys, f);
    RekeyedKeys(keyMap, f);
    forall k | k in m ensures k in r && r[k] == m[k] {
      var c :| c in keyMap && keyMap[c] == k;
      RekeyedAt(keyMap, keyMap.Keys, f, c);
    }
    forall k | k in r ensures k in m {
      var c :| c in keyMap && keyMap[c] == k;
    }
  }

  /** The conversion `predict` applies to the input of each column. */
  function PredictFeatureOf(rt: Runtime, inputs: map<string, Cell>, metadata: Option<Metadata>): string -> Feature {
    c => PredictFeature(rt, Lookup(inputs, c), PredictsAsCategory(metadata, c))
  }

  /** `processedInputs`: one entry per key-map column, under its safe key. */
  function PredictInputs(rt: Runtime, keyMap: map<string, string>, inputs: map<string, Cell>,
                         metadata: Option<Metadata>): map<string, Feature>
    requires Injective(keyMap)
  {
    Rekeyed(keyMap, keyMap.Keys, PredictFeatureOf(rt, inputs, metadata))
  }

  /** `processedInputs` holds exactly the safe keys, and under the safe key of each column that column's converted value. */
  lemma PredictInputsSpec(rt: Runtime, keyMap: map<string, string>, inputs: map<string, Cell>,
                          metadata: Option<Metadata>)
    requires Injective(keyMap)
    ensures PredictInputs(rt, keyMap, inputs, metadata).Keys == keyMap.Values
    ensures forall c :: c in keyMap ==>
      PredictInputs(rt, keyMap, inputs, metadata)[keyMap[c]] == PredictFeature(rt, Lookup(inputs, c), PredictsAsCategory(metadata, c))
  {
    var f := PredictFeatureOf(rt, inputs, metadata);
    RekeyedKeys(keyMap, f);
    forall c | c in keyMap
      ensures PredictInputs(rt, keyMap, inputs, metadata)[keyMap[c]] == PredictFeature(rt, Lookup(inputs, c), PredictsAsCategory(metadata, c))
    {
      RekeyedAt(keyMap, keyMap.Keys, f, c);
    }
  }

  /** The first item of a callback that delivered a non-empty array of results. */
  function FirstItem(reply: PredictReply): Option<Item> {
    if reply.Callback? && reply.results.Items? && |reply.results.items| > 0 then Some(reply.results.items[0])
    else None
  }

  function NumberField(item: Item, key: string): Option<real> {
    if key in item.fields && item.fields[key].FieldNumber? then Some(item.fields[key].v) else None
  }

  /**
   * The number `predict` resolves to: 0 unless ml5 delivered a non-empty array; then the first item's numeric
   * `value`, else its numeric output-key field, else 0. An error flag next to delivered results is ignored.
   */
  function ExtractPrediction(reply: PredictReply, outputKey: string): (r: real)
    ensures FirstItem(reply).None? ==> r == 0.0
    ensures FirstItem(reply).Some? ==>
      var item := FirstItem(reply).value;
      r == NumberField(item, "value").GetOr(NumberField(item, outputKey).GetOr(0.0))
  {
    match reply
    case Threw => 0.0
    case Callback(results, error) =>
      if error && results.Absent? then 0.0
      else if results.ErrorObject? then 0.0
      else if results.Items? && |results.items| > 0 then
        var item := results.items[0];
        if NumberField(item, "value").Some? then NumberField(item, "value").value
        else if NumberField(item, outputKey).Some? then NumberField(item, outputKey).value
        else 0.0
      else 0.0
  }

  /** A prediction is 0 or a number the network reported under `value` or under the output key. */
  lemma ExtractPredictionSource(reply: PredictReply, outputKey: string)
    ensures var r := ExtractPrediction(reply, outputKey);
      r == 0.0 || (FirstItem(reply).Some? &&
        (NumberField(FirstItem(reply).value, "value") == Some(r) || NumberField(FirstItem(reply).value, outputKey) == Some(r)))
  {
  }

  /**
   * For an acceptable input whose category text is already trimmed, `predict` converts the same value to the
   * same feature that prepareData stored.
   */
  lemma PredictFeatureMatches(rt: Runtime, row: Row, c: string, metadata: Metadata, raw: Cell)
    requires InputAcceptable(rt, row, c, metadata)
    requires raw == row[c]
    requires IsCategory(metadata, c) ==> raw.Text? && Trim(raw.s) == raw.s
    ensures PredictFeature(rt, Some(raw), PredictsAsCategory(Some(metadata), c)) == StoredFeature(rt, row, c, metadata)
  {
    if IsCategory(metadata, c) {
      assert Truthy(Some(raw));
    }
  }

  /**
   * Predicting on the values of a row that prepareData accepted, with the same metadata and with category
   * values given as already-trimmed text, hands ml5 exactly the inputs it was trained with for that row.
   */
  lemma PredictMatchesTraining(rt: Runtime, row: Row, cols: seq<string>, outCol: string, metadata: Metadata,
                               inputs: map<string, Cell>)
    requires RowExample(rt, row, cols, outCol, KeyMapFor(cols), metadata).Some?
    requires forall c :: c in cols ==> c in inputs && c in row && inputs[c] == row[c]
    requires forall c :: c in cols && IsCategory(metadata, c) ==> row[c].Text? && Trim(row[c].s) == row[c].s
    ensures Injective(KeyMapFor(cols))
    ensures PredictInputs(rt, KeyMapFor(cols), inputs, Some(metadata))
      == RowExample(rt, row, cols, outCol, KeyMapFor(cols), metadata).value.inputs
  {
    var keyMap := KeyMapFor(cols);
    KeyMapForFacts(cols);
    RowExampleAccepts(rt, row, cols, outCol, keyMap, metadata);
    RowExampleContents(rt, row, cols, outCol, keyMap, metadata);
    var m := RowExample(rt, row, cols, outCol, keyMap, metadata).value.inputs;
    var f := PredictFeatureOf(rt, inputs, Some(metadata));
    forall c | c in keyMap ensures keyMap[c] in m && m[keyMap[c]] == f(c) {
      PredictFeatureMatches(rt, row, c, metadata, inputs[c]);
    }
    RekeyedUnique(keyMap, f, m);
  }

  /**
   * `predict` does not trim category text although prepareData does: a category cell " A" is trained as the
   * text "A" but predicted as " A"; converted as prepareData converts it, it is "A" again.
   */
  lemma PredictKeepsPadding()
    ensures var rt := HostFunctions(s => None, x => "0");
      var metadata := map["d" := ColumnMetadata("d", CategoryColumn, None, None, Some(["A"]))];
      var row := map["d" := Text(" A")];
      && InputAcceptable(rt, row, "d", metadata)
      && StoredFeature(rt, row, "d", metadata) == FText("A")
      && PredictFeature(rt, Lookup(row, "d"), PredictsAsCategory(Some(metadata), "d")) == FText(" A")
      && TrainedFeature(rt, Lookup(row, "d"), PredictsAsCategory(Some(metadata), "d")) == FText("A")
  {
    assert IsWhitespace(' ');
    assert Trim(" A") == "A" by {
      assert TrimStart(" A") == TrimStart("A") == "A";
      assert TrimEnd("A") == "A";
    }
  }

  /** The conversion `predict` evidently intends: each input exactly as prepareData converts it. */
  function TrainedFeature(rt: Runtime, raw: Option<Cell>, category: bool): Feature {
    if category then FText(if raw.Some? then Trim(StringOf(rt, raw.value)) else "")
    else PredictFeature(rt, raw, false)
  }

  function TrainedFeatureOf(rt: Runtime, inputs: map<string, Cell>, metadata: Option<Metadata>): string -> Feature {
    c => TrainedFeature(rt, Lookup(inputs, c), PredictsAsCategory(metadata, c))
  }

  /** `processedInputs` with every input converted as prepareData converts it. */
  function TrainedInputs(rt: Runtime, keyMap: map<string, string>, inputs: map<string, Cell>,
                         metadata: Option<Metadata>): map<string, Feature>
    requires Injective(keyMap)
  {
    Rekeyed(keyMap, keyMap.Keys, TrainedFeatureOf(rt, inputs, metadata))
  }

  /** The corrected conversion of an acceptable input, padded or not, is the feature prepareData stored. */
  lemma TrainedFeatureMatches(rt: Runtime, row: Row, c: string, metadata: Metadata)
    requires InputAcceptable(rt, row, c, metadata)
    ensures TrainedFeature(rt, Lookup(row, c), PredictsAsCategory(Some(metadata), c)) == StoredFeature(rt, row, c, metadata)
  {
  }

  /**
   * With the corrected conversion, predicting on the raw values of any row prepareData accepted, with the same
   * metadata, hands ml5 exactly the inputs it was trained with for that row.
   */
  lemma TrainedInputsMatchTraining(rt: Runtime, row: Row, cols: seq<string>, outCol: string, metadata: Metadata,
                                   inputs: map<string, Cell>)
    requires RowExample(rt, row, cols, outCol, KeyMapFor(cols), metadata).Some?
    requires forall c :: c in cols ==> c in inputs && c in row && inputs[c] == row[c]
    ensures Injective(KeyMapFor(cols))
    ensures TrainedInputs(rt, KeyMapFor(cols), inputs, Some(metadata))
      == RowExample(rt, row, cols, outCol, KeyMapFor(cols), metadata).value.inputs
  {
    var keyMap := KeyMapFor(cols);
    KeyMapForFacts(cols);
    RowExampleAccepts(rt, row, cols, outCol, keyMap, metadata);
    RowExampleContents(rt, row, cols, outCol, keyMap, metadata);
    var m := RowExample(rt, row, cols, outCol, keyMap, metadata).value.inputs;
    var f := TrainedFeatureOf(rt, inputs, Some(metadata));
    forall c | c in keyMap ensures keyMap[c] in m && m[keyMap[c]] == f(c) {
      TrainedFeatureMatches(rt, row, c, metadata);
    }
    RekeyedUnique(keyMap, f, m);
  }

  // ---------------------------------------------------------------------------------------------------------
  // The service object

  class MLService {
    var model: Option<Network>
    var keyMap: map<string, string>
    var outputKey: string
    var isReady: bool

    /** Different input columns never share a safe key. */
    ghost predicate Valid()
      reads this
    {
      Injective(keyMap)
    }

    constructor ()
      ensures Valid()
      ensures model == None && keyMap == map[] && outputKey == InitialOutputKey && !isReady
    {
      model := None;
      keyMap := map[];
      outputKey := InitialOutputKey;
      isReady := false;
    }

    /** `initModel`: a fresh network that is not ready yet; the key map and output key stay. */
    method InitModel()
      modifies this
      ensures model == Some(FreshNetwork) && !isReady
      ensures keyMap == old(keyMap) && outputKey == old(outputKey)
    {
      model := None;
      model := Some(FreshNetwork);
      isReady := false;
    }

    /** The inner loop over the input columns of one row: the `inputs` object, or invalid at the first bad value. */
    method ConvertRowInputs(rt: Runtime, row: Row, inputColumns: seq<string>, metadata: Metadata)
      returns (inputs: map<string, Feature>, isValid: bool)
      requires forall c :: c in inputColumns ==> c in keyMap
      ensures isValid <==> ConvertInputs(rt, row, inputColumns, |inputColumns|, keyMap, metadata).Some?
      ensures isValid ==> ConvertInputs(rt, row, inputColumns, |inputColumns|, keyMap, metadata) == Some(inputs)
    {
      inputs := map[];
      isValid := true;
      var k := 0;
      while k < |inputColumns|
        invariant 0 <= k <= |inputColumns|
        invariant ConvertInputs(rt, row, inputColumns, k, keyMap, metadata) == Some(inputs)
      {
        var col := inputColumns[k];
        var safeKey := keyMap[col];
        var rawVal := Lookup(row, col);
        if IsBlankValue(rt, rawVal) {
          isValid := false;
          CollectStaysNone(inputColumns, k + 1, |inputColumns|, keyMap, InputConversion(rt, row, metadata));
          return;
        }
        if IsCategory(metadata, col) {
          inputs := inputs[safeKey := FText(Trim(StringOf(rt, rawVal.value)))];
        } else {
          var numVal := rt.parseFloat(StringOf(rt, rawVal.value));
          if numVal.None? {
            isValid := false;
            CollectStaysNone(inputColumns, k + 1, |inputColumns|, keyMap, InputConversion(rt, row, metadata));
            return;
          }
          inputs := inputs[safeKey := FNumber(numVal.value)];
        }
        k := k + 1;
      }
    }

    /** The body of the row loop: the example `addData` receives for this row, or None when the row is skipped. */
    method ConvertRow(rt: Runtime, row: Row, inputColumns: seq<string>, outputColumn: string, metadata: Metadata)
      returns (example: Option<Example>)
      requires forall c :: c in inputColumns ==> c in keyMap
      requires outputKey == OutputKey
      ensures example == RowExample(rt, row, inputColumns, outputColumn, keyMap, metadata)
    {
      var inputs, isValid := ConvertRowInputs(rt, row, inputColumns, metadata);
      var outputs: map<string, real> := map[];
      var outNum := ParseValue(rt, Lookup(row, outputColumn));
      if outNum.None? {
        isValid := false;
      } else {
        outputs := outputs[outputKey := outNum.value];
      }
      example := if isValid then Some(Example(inputs, outputs)) else None;
    }

    /** The `forEach` that maps the `index`-th input column to `val_${index}`, starting from an empty map. */
    method BuildKeyMap(inputColumns: seq<string>)
      modifies this
      ensures keyMap == KeyMapFor(inputColumns) && Valid()
      ensures model == old(model) && outputKey == old(outputKey) && isReady == old(isReady)
    {
      keyMap := map[];
      var index := 0;
      while index < |inputColumns|
        invariant 0 <= index <= |inputColumns|
        invariant keyMap == KeyMapPrefix(inputColumns, index)
        invariant model == old(model) && outputKey == old(outputKey) && isReady == old(isReady)
      {
        keyMap := keyMap[inputColumns[index] := KeyPrefix + NatToString(index)];
        index := index + 1;
      }
      KeyMapForFacts(inputColumns);
    }

    /** The row loop: every row that converts is added to the network, in order, and counted. */
    method AddRows(rt: Runtime, data: seq<Row>, inputColumns: seq<string>, outputColumn: string, metadata: Metadata)
      returns (validRowCount: nat)
      requires forall c :: c in inputColumns ==> c in keyMap
      requires outputKey == OutputKey
      requires model.Some?
      modifies this
      ensures keyMap == old(keyMap) && outputKey == old(outputKey) && isReady == old(isReady)
      ensures model == Some(old(model).value.(examples := old(model).value.examples
        + AcceptedExamples(rt, data, |data|, inputColumns, outputColumn, keyMap, metadata)))
      ensures validRowCount == |AcceptedExamples(rt, data, |data|, inputColumns, outputColumn, keyMap, metadata)|
    {
      ghost var start := model.value;
      validRowCount := 0;
      var i := 0;
      assert start.examples + [] == start.examples;
      while i < |data|
        invariant 0 <= i <= |data|
        invariant keyMap == old(keyMap) && outputKey == old(outputKey) && isReady == old(isReady)
        invariant model == Some(start.(examples := start.examples
          + AcceptedExamples(rt, data, i, inputColumns, outputColumn, keyMap, metadata)))
        invariant validRowCount == |AcceptedExamples(rt, data, i, inputColumns, outputColumn, keyMap, metadata)|
      {
        var example := ConvertRow(rt, data[i], inputColumns, outputColumn, metadata);
        AcceptedExamplesStep(rt, data, i, inputColumns, outputColumn, keyMap, metadata);
        ghost var before := AcceptedExamples(rt, data, i, inputColumns, outputColumn, keyMap, metadata);
        if example.Some? {
          assert start.examples + before + [example.value] == start.examples + (before + [example.value]);
          model := Some(model.value.(examples := model.value.examples + [example.value]));
          validRowCount := validRowCount + 1;
        }
        i := i + 1;
      }
    }

    /**
     * `prepareData`: throws on an empty dataset before touching any state; otherwise resets the network, maps
     * the input columns to safe keys, hands every acceptable row to ml5 in order, and ends ready exactly when
     * at least one row was accepted.
     */
    method PrepareData(rt: Runtime, data: seq<Row>, inputColumns: seq<string>, outputColumn: string, metadata: Metadata)
      returns (outcome: PrepareOutcome)
      requires Valid()
      modifies this
      ensures Valid()
      ensures |data| == 0 ==> outcome == EmptyDataset && unchanged(this)
      ensures |data| > 0 ==>
        && keyMap == KeyMapFor(inputColumns)
        && outputKey == OutputKey
        && (forall c :: c in inputColumns ==> c in keyMap)
        && var examples := AcceptedExamples(rt, data, |data|, inputColumns, outputColumn, keyMap, metadata);
          && (examples == [] ==> outcome == NoValidRows && model == Some(FreshNetwork) && !isReady)
          && (examples != [] ==> outcome == Prepared(|examples|) && isReady
                                 && model == Some(Network(examples, true, Untrained)))
    {
      if |data| == 0 {
        return EmptyDataset;
      }
      InitModel();
      BuildKeyMap(inputColumns);
      outputKey := OutputKey;
      var validRowCount := AddRows(rt, data, inputColumns, outputColumn, metadata);
      ghost var examples := AcceptedExamples(rt, data, |data|, inputColumns, outputColumn, keyMap, metadata);
      assert FreshNetwork.examples + examples == examples;
      if validRowCount == 0 {
        return NoValidRows;
      }
      model := Some(model.value.(normalized := true));
      isReady := true;
      outcome := Prepared(validRowCount);
    }

    /** `train`: throws unless a network exists and is ready; otherwise hands training to ml5. */
    method Train() returns (outcome: TrainOutcome)
      modifies this
      ensures outcome == (if old(model).Some? && old(isReady) then TrainingHandedOver else NotInitialized)
      ensures outcome == NotInitialized ==> unchanged(this)
      ensures outcome == TrainingHandedOver ==>
        model == Some(old(model).value.(weights := TrainingStarted)) && isReady
        && keyMap == old(keyMap) && outputKey == old(outputKey)
    {
      if model.None? || !isReady {
        return NotInitialized;
      }
      model := Some(model.value.(weights := TrainingStarted));
      outcome := TrainingHandedOver;
    }

    /** `loadModel`: a fresh network whose weights come from files, marked ready; the key map is kept. */
    method LoadModel()
      modifies this
      ensures model == Some(FreshNetwork.(weights := LoadedFromFiles)) && isReady
      ensures keyMap == old(keyMap) && outputKey == old(outputKey)
    {
      InitModel();
      model := Some(model.value.(weights := LoadedFromFiles));
      isReady := true;
    }

    /** What `predict` resolves to for these inputs in the current state. */
    function Prediction(rt: Runtime, ml: Ml5, inputs: map<string, Cell>, metadata: Option<Metadata>): real
      reads this
      requires Valid()
    {
      if model.None? then 0.0
      else ExtractPrediction(ml.predict(model.value, PredictInputs(rt, keyMap, inputs, metadata)), outputKey)
    }

    /**
     * `predict`: 0 without a network; otherwise the inputs are mapped through the key map, one entry per
     * column under its safe key, handed to ml5, and its answer is reduced to a number.
     */
    method Predict(rt: Runtime, ml: Ml5, inputs: map<string, Cell>, metadata: Option<Metadata>) returns (r: real)
      requires Valid()
      ensures r == Prediction(rt, ml, inputs, metadata)
      ensures model.None? ==> r == 0.0
    {
      if model.None? {
        return 0.0;
      }
      var processedInputs: map<string, Feature> := map[];
      var inputCols := keyMap.Keys;
      while inputCols != {}
        invariant inputCols <= keyMap.Keys
        invariant processedInputs == Rekeyed(keyMap, keyMap.Keys - inputCols, PredictFeatureOf(rt, inputs, metadata))
        decreases inputCols
      {
        var originalCol :| originalCol in inputCols;
        var safeKey := keyMap[originalCol];
        var rawVal := Lookup(inputs, originalCol);
        RekeyedAdd(keyMap, keyMap.Keys - inputCols, PredictFeatureOf(rt, inputs, metadata), originalCol);
        if metadata.Some? && IsCategory(metadata.value, originalCol) {
          processedInputs := processedInputs[safeKey := FText(if Truthy(rawVal) then StringOf(rt, rawVal.value) else "")];
        } else {
          var num := ParseValue(rt, rawVal);
          processedInputs := processedInputs[safeKey := FNumber(if num.None? then 0.0 else num.value)];
        }
        assert keyMap.Keys - (inputCols - {originalCol}) == (keyMap.Keys - inputCols) + {originalCol};
        inputCols := inputCols - {originalCol};
      }
      assert keyMap.Keys - inputCols == keyMap.Keys;
      r := ExtractPrediction(ml.predict(model.value, processedInputs), outputKey);
    }

    /** What `predict` evidently intends to resolve to: ml5's answer on the inputs converted as in training. */
    function TrainedPrediction(rt: Runtime, ml: Ml5, inputs: map<string, Cell>, metadata: Option<Metadata>): real
      reads this
      requires Valid()
    {
      if model.None? then 0.0
      else ExtractPrediction(ml.predict(model.value, TrainedInputs(rt, keyMap, inputs, metadata)), outputKey)
    }

    /** `predict` with category text trimmed as prepareData trims it, `String(rawVal).trim()`. */
    method PredictAsTrained(rt: Runtime, ml: Ml5, inputs: map<string, Cell>, metadata: Option<Metadata>) returns (r: real)
      requires Valid()
      ensures r == TrainedPrediction(rt, ml, inputs, metadata)
      ensures model.None? ==> r == 0.0
    {
      if model.None? {
        return 0.0;
      }
      var processedInputs: map<string, Feature> := map[];
      var inputCols := keyMap.Keys;
      while inputCols != {}
        invariant inputCols <= keyMap.Keys
        invariant processedInputs == Rekeyed(keyMap, keyMap.Keys - inputCols, TrainedFeatureOf(rt, inputs, metadata))
        decreases inputCols
      {
        var originalCol :| originalCol in inputCols;
        var safeKey := keyMap[originalCol];
        var rawVal := Lookup(inputs, originalCol);
        RekeyedAdd(keyMap, keyMap.Keys - inputCols, TrainedFeatureOf(rt, inputs, metadata), originalCol);
        if metadata.Some? && IsCategory(metadata.value, originalCol) {
          processedInputs := processedInputs[safeKey := FText(if rawVal.Some? then Trim(StringOf(rt, rawVal.value)) else "")];
        } else {
          var num := ParseValue(rt, rawVal);
          processedInputs := processedInputs[safeKey := FNumber(if num.None? then 0.0 else num.value)];
        }
        assert keyMap.Keys - (inputCols - {originalCol}) == (keyMap.Keys - inputCols) + {originalCol};
        inputCols := inputCols - {originalCol};
      }
      assert keyMap.Keys - inputCols == keyMap.Keys;
      r := ExtractPrediction(ml.predict(model.value, processedInputs), outputKey);
    }
  }
}
