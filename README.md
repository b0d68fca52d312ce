# Community value predictor: a verified model of its data logic

This project models, in Dafny, the logic of the browser-based "community value predictor"
(`community-value-predictor-ai`). The model covers:

- its column type inference;
- the selection of input columns;
- the ml5 service wrapper, which converts CSV rows into training examples and prediction inputs;
- the evaluation run after training;
- the batch-test table;
- the what-if simulator panel.

Two small pieces from elsewhere in the repository are modelled too: the sliding-window population
forecaster of `ml-web-app/2-simple-population.js`, and the risk banding of `ml-py-app/src/utils/utils.py`.

Values and host functions:

- JavaScript is modelled with unbounded reals for numbers. A data cell is text, a number or `NaN`. A row is
  a map from column name to cell, and an absent key is `undefined`.
- `parseFloat` and `String(number)` are functions of a host value (`JsValues.Runtime`) that every operation
  receives. The only assumption about `parseFloat` is that it finds no number in the texts `"undefined"`
  and `"NaN"`.
- The ml5 network's `predict` is an uninterpreted function (`MLServiceModel.Ml5`), as is the TensorFlow.js
  model of the forecaster (`SimplePopulation.Model`).
- `Math.random` is a nondeterministic choice (`:|`).

Modules, one per source file:

| module | file | models |
|---|---|---|
| `JsValues` | `jsvalues.dfy` | cells, rows, `trim`, `${n}`, string order and `sort()` |
| `Types` | `types.dfy` | the records of `types.ts` |
| `MLServiceModel` | `mlservice.dfy` | `services/mlService.ts`; class `MLService` with the fields `model`, `keyMap`, `outputKey` and `isReady` |
| `App` | `app.dfy` | `App.tsx`: `analyzeColumns`, `toggleInputColumn`, `generatePredictions` |
| `PredictionSimulator` | `prediction_simulator.dfy` | `components/PredictionSimulator.tsx`; class `Simulator` with the component state |
| `EvaluationTable` | `evaluation_table.dfy` | `components/EvaluationTable.tsx` |
| `SimplePopulation` | `simple_population.dfy` | `ml-web-app/2-simple-population.js` |
| `RiskLevel` | `risk_level.dfy` | `calculate_risk_level` of `ml-py-app/src/utils/utils.py` |

How code that changes state is modelled:

- Code that changes state step by step, such as the row loops, the key-map `forEach`, processing the
  prediction inputs, the sampling loop and the rollout, is written as methods with loops. Each method is
  proved against a specification function.
- The properties the source promises are lemmas about those functions.

## Model

| member | source | states |
|---|---|---|
| JsValues.ParseValue | community-value-predictor-ai/services/mlService.ts:106 | `parseFloat(String(undefined))` never yields a number |
| JsValues.TrimSpec | community-value-predictor-ai/App.tsx:49-50 | `trim()` never lengthens a text, leaves no whitespace at either end, and yields `''` exactly when the text is blank |
| JsValues.TrimIdempotent | community-value-predictor-ai/App.tsx:49-50 | trimming an already trimmed value changes nothing, so the analysis's category options are their own trimmed text |
| JsValues.NatToStringInjective | community-value-predictor-ai/services/mlService.ts:65 | different column indexes print as different decimal texts |
| JsValues.SortStrings | community-value-predictor-ai/App.tsx:71 | `sort()` yields a permutation of its input in code-point order |
| JsValues.SortStringsDistinct | community-value-predictor-ai/App.tsx:71 | sorting the values of a `Set` keeps them free of repeats and keeps the same values |
| MLServiceModel.SafeKeyInjective | community-value-predictor-ai/services/mlService.ts:65 | `val_${i}` and `val_${j}` differ for different `i` and `j` |
| MLServiceModel.KeyMapFor | community-value-predictor-ai/services/mlService.ts:63-66 | the key map holds exactly the input columns |
| MLServiceModel.KeyMapForFacts | community-value-predictor-ai/services/mlService.ts:63-66 | the key map holds exactly the input columns, never maps two columns to one safe key, and maps the i-th column to `val_i` when no column repeats |
| MLServiceModel.ConvertInputSpec | community-value-predictor-ai/services/mlService.ts:79-101 | an input value converts exactly when it is present, not blank, and a category or a parsable number; it converts to the trimmed text or the parsed number |
| MLServiceModel.RowExampleAccepts | community-value-predictor-ai/services/mlService.ts:73-114 | a row is added exactly when every input value is acceptable and the output parses |
| MLServiceModel.RowExampleContents | community-value-predictor-ai/services/mlService.ts:79-112 | an added example holds each input column's value under that column's safe key, no other key, and the parsed output under `label_y` |
| MLServiceModel.AcceptedExamplesStep | community-value-predictor-ai/services/mlService.ts:114-118 | each row appends its example, if it has one, at the end |
| MLServiceModel.AcceptedExamplesSpec | community-value-predictor-ai/services/mlService.ts:73-119 | the added examples are exactly those of the acceptable rows, and there are no more of them than rows |
| MLServiceModel.PredictInputsSpec | community-value-predictor-ai/services/mlService.ts:166-180 | `processedInputs` has exactly one entry per key-map column, under its safe key, converted as text for a category and as a number or 0 otherwise |
| MLServiceModel.ExtractPrediction | community-value-predictor-ai/services/mlService.ts:182-224 | the result is 0 unless ml5 returned a non-empty array; then it is the first item's numeric `value`, else its numeric output-key field, else 0 |
| MLServiceModel.ExtractPredictionSource | community-value-predictor-ai/services/mlService.ts:202-214 | a prediction is 0 or a number the network reported |
| MLServiceModel.PredictFeatureMatches | community-value-predictor-ai/services/mlService.ts:173-178 | `predict` converts an acceptable, already trimmed value to the same feature that `prepareData` stored |
| MLServiceModel.PredictMatchesTraining | community-value-predictor-ai/services/mlService.ts:162-180 | predicting on a training row's values with the same metadata, category values given as already trimmed text, hands ml5 exactly the inputs that row was trained with |
| MLServiceModel.PredictKeepsPadding | community-value-predictor-ai/services/mlService.ts:175 | as written: a category cell " A" is trained as "A" (line 92) but handed to ml5 as " A"; the corrected conversion gives "A" |
| MLServiceModel.TrainedFeatureMatches | community-value-predictor-ai/services/mlService.ts:85-101 | the corrected conversion turns every acceptable input, padded or not, into the feature prepareData stored |
| MLServiceModel.TrainedInputsMatchTraining | community-value-predictor-ai/services/mlService.ts:162-180 | corrected: predicting on the raw values of any accepted row, with the same metadata, hands ml5 exactly the inputs that row was trained with |
| MLServiceModel.MLService.constructor | community-value-predictor-ai/services/mlService.ts:5-11 | no network, an empty key map, output key `target_y`, not ready |
| MLServiceModel.MLService.InitModel | community-value-predictor-ai/services/mlService.ts:26-43 | a fresh network that is not ready; the key map and output key are kept |
| MLServiceModel.MLService.ConvertRowInputs | community-value-predictor-ai/services/mlService.ts:79-102 | the inner column loop succeeds exactly when the conversion function does, and then agrees with it |
| MLServiceModel.MLService.ConvertRow | community-value-predictor-ai/services/mlService.ts:74-114 | one pass of the row loop yields the row's example, or nothing |
| MLServiceModel.MLService.BuildKeyMap | community-value-predictor-ai/services/mlService.ts:63-66 | the `forEach` leaves the key map for the columns, keeps the class invariant (no two columns share a key), and changes no other field |
| MLServiceModel.MLService.AddRows | community-value-predictor-ai/services/mlService.ts:69-119 | the row loop appends the accepted examples in row order and counts them |
| MLServiceModel.MLService.PrepareData | community-value-predictor-ai/services/mlService.ts:45-132 | an empty dataset throws and changes nothing; otherwise the network is reset, the key map is built, and `label_y` becomes the output key. With no accepted row the service stays not ready; with some, the network holds exactly those examples, normalized, and is ready |
| MLServiceModel.MLService.Train | community-value-predictor-ai/services/mlService.ts:134-160 | throws and changes nothing unless a ready network exists; otherwise training is handed to ml5 |
| MLServiceModel.MLService.LoadModel | community-value-predictor-ai/services/mlService.ts:233-246 | a fresh network with loaded weights that is ready; the key map is kept |
| MLServiceModel.MLService.Predict | community-value-predictor-ai/services/mlService.ts:162-225 | 0 without a network; otherwise ml5's answer on the converted inputs, whatever order the key-map columns are visited in |
| MLServiceModel.MLService.PredictAsTrained | community-value-predictor-ai/services/mlService.ts:162-225 | corrected: as `predict`, with category text trimmed as prepareData trims it; 0 without a network |
| App.SampleSize | community-value-predictor-ai/App.tsx:43 | at most 500 rows are inspected, and all of them when there are fewer |
| App.InspectedTextSpec | community-value-predictor-ai/App.tsx:46-50 | a value is skipped exactly when it is missing or blank; a kept value is trimmed |
| App.InspectedTexts | community-value-predictor-ai/App.tsx:43-46 | one inspected value per sampled row |
| App.AddUnique | community-value-predictor-ai/App.tsx:55 | `Set.add` keeps the set free of repeats and adds exactly the new value |
| App.ScanNumeric | community-value-predictor-ai/App.tsx:53-54 | the column stays numeric exactly as long as every inspected value parses |
| App.ScanBounds | community-value-predictor-ai/App.tsx:59-61 | while numeric, `min` and `max` are set exactly when a number was seen, `min <= max`, and every number seen lies between them |
| App.ScanBoundsAttained | community-value-predictor-ai/App.tsx:60-61 | while numeric, `min` and `max` are values that were seen |
| App.ScanUnique | community-value-predictor-ai/App.tsx:53-64 | the unique set holds a value exactly when it was seen at or after the first value that did not parse |
| App.ColumnInfoKind | community-value-predictor-ai/App.tsx:68-72 | a column is a number column exactly when every inspected value parses and at least one was inspected |
| App.ColumnInfoNumber | community-value-predictor-ai/App.tsx:68-69 | a number column's `min` and `max` were seen, are ordered, and bound every inspected number |
| App.ColumnInfoCategory | community-value-predictor-ai/App.tsx:70-71 | a category's `uniqueValues` are sorted and free of repeats, and hold exactly the values seen from the first non-numeric one on |
| App.CategoryOptionsTrimmed | community-value-predictor-ai/App.tsx:46-55 | every option a category offers is the non-empty trimmed text of one of its inspected cells, and trimming it again changes nothing |
| App.ColumnInfoSampleCap | community-value-predictor-ai/App.tsx:43 | rows after the first 500 never change a column's metadata |
| App.AnalyzeColumn | community-value-predictor-ai/App.tsx:36-72 | the scan loop and the closing decision produce the column's metadata |
| App.AnalyzeColumns | community-value-predictor-ai/App.tsx:32-75 | one entry per column, named after it, each that column's metadata |
| App.RemoveAllCounts | community-value-predictor-ai/App.tsx:119 | `filter` removes every occurrence of the column and keeps every other entry as often as before |
| App.RemoveAllAppend | community-value-predictor-ai/App.tsx:119 | `filter` keeps the remaining entries in their order |
| App.RemoveAllAbsent | community-value-predictor-ai/App.tsx:119 | filtering out an absent column changes nothing |
| App.ToggleSpec | community-value-predictor-ai/App.tsx:117-121 | a selected column is removed with all its occurrences; an unselected one is appended |
| App.ToggleTwice | community-value-predictor-ai/App.tsx:117-121 | toggling an unselected column twice restores the selection |
| App.SampleIndices | community-value-predictor-ai/App.tsx:157-167 | the sample holds `min(n, 200)` distinct row indexes, each in range |
| App.CollectInputs | community-value-predictor-ai/App.tsx:171-182 | a row is valid exactly when no selected value is missing or empty, and then `inputs` holds exactly the selected values |
| App.MakeResultSpec | community-value-predictor-ai/App.tsx:193-201 | id `i + 1`; the error is the absolute difference, zero exactly for an exact prediction; the percent error is relative to `|actual|`, or 0 when `actual` is 0 |
| App.EvalRowSpec | community-value-predictor-ai/App.tsx:170-202 | a sampled row yields a result exactly when its inputs are present and its `y` is a number; the result carries the service's prediction |
| App.EvalRowsSpec | community-value-predictor-ai/App.tsx:169-206 | the results are exactly the results of sampled rows, and there are no more of them than sampled rows |
| App.InsertById | community-value-predictor-ai/App.tsx:211 | inserting into results sorted by id keeps them sorted and adds exactly the one result |
| App.SortById | community-value-predictor-ai/App.tsx:211 | the results are permuted into ascending id order |
| App.GeneratePredictions | community-value-predictor-ai/App.tsx:152-213 | no data does nothing. Otherwise `min(n, 200)` distinct rows are sampled and scored in sample order, and the run ends with the error for no results or with the results sorted by id |
| PredictionSimulator.DefaultsSpec | community-value-predictor-ai/components/PredictionSimulator.tsx:23-35 | defaults exist exactly for selected columns with metadata: `min` or 0 for numbers, the first value for a category with values, `''` otherwise |
| PredictionSimulator.DefaultFromAnalysis | community-value-predictor-ai/components/PredictionSimulator.tsx:27-30 | for analysed metadata, a number column starts at its observed minimum, within `[min, max]`; a category starts at its smallest observed value, or `''` when it saw none |
| PredictionSimulator.RefreshTwice | community-value-predictor-ai/components/PredictionSimulator.tsx:36 | merging the same defaults again changes nothing |
| PredictionSimulator.ProcessedInputsSpec | community-value-predictor-ai/components/PredictionSimulator.tsx:53-62 | every entered value is kept; values of number columns are parsed (NaN when they do not parse), all others pass unchanged |
| PredictionSimulator.Simulator.constructor | community-value-predictor-ai/components/PredictionSimulator.tsx:17-19 | no values, no prediction, not busy |
| PredictionSimulator.Simulator.RefreshDefaults | community-value-predictor-ai/components/PredictionSimulator.tsx:22-38 | the defaults are merged under the held values, which win, and the prediction is cleared |
| PredictionSimulator.Simulator.HandleInputChange | community-value-predictor-ai/components/PredictionSimulator.tsx:40-47 | only the given column's value changes, and the prediction is cleared |
| PredictionSimulator.Simulator.ProcessInputs | community-value-predictor-ai/components/PredictionSimulator.tsx:53-62 | the `forEach` builds the converted inputs, whatever order the keys are visited in |
| PredictionSimulator.Simulator.HandlePredict | community-value-predictor-ai/components/PredictionSimulator.tsx:49-72 | as written: the prediction becomes the service's answer on the converted values without metadata; the values are kept and the panel ends not busy |
| PredictionSimulator.Simulator.HandlePredictWithMetadata | community-value-predictor-ai/components/PredictionSimulator.tsx:64 | corrected: the same, with the column metadata handed to the service |
| PredictionSimulator.SimulatorLosesCategories | community-value-predictor-ai/components/PredictionSimulator.tsx:64 | a category value trained as the text "A" reaches the network as the number 0 when no metadata is passed, and as "A" when it is |
| PredictionSimulator.PanelValueMatches | community-value-predictor-ai/components/PredictionSimulator.tsx:53-64 | one panel value (a parsed number, or a category's trimmed option) converted by the panel and by `predict` with the metadata is the feature trained for its column |
| PredictionSimulator.SimulatorMatchesTraining | community-value-predictor-ai/components/PredictionSimulator.tsx:53-64 | with the metadata passed, a training row entered in the panel as its controls hold it (parsed numbers, the trimmed category options) reaches the network exactly as it was trained, padded cells included, provided `parseFloat` reads back every number it yields once printed |
| SimplePopulation.TrainingWindow | ml-web-app/2-simple-population.js:36 | every window has length `sequenceLength` |
| SimplePopulation.PrepareTrainingData | ml-web-app/2-simple-population.js:31-47 | `max(0, n - L)` pairs in order; pair `k` is the window `data[k..k+L)` with label `data[k+L]` |
| SimplePopulation.WindowsSlide | ml-web-app/2-simple-population.js:35-40 | the next pair's window is this window shifted by one, ending in this pair's label |
| SimplePopulation.Round | ml-web-app/2-simple-population.js:131 | `Math.round` gives the integer within half of `x`, with halves rounded up |
| SimplePopulation.Rollout | ml-web-app/2-simple-population.js:128-134 | the rollout has exactly as many predictions as steps |
| SimplePopulation.RolloutSteps | ml-web-app/2-simple-population.js:129-133 | prediction `k` is the rounded model output on the window after `k` steps |
| SimplePopulation.RolloutPrefix | ml-web-app/2-simple-population.js:128-144 | asking for more months never changes the earlier predictions |
| SimplePopulation.WindowLengthKept | ml-web-app/2-simple-population.js:137 | every step keeps the window length |
| SimplePopulation.SlidingWindow | ml-web-app/2-simple-population.js:133-137 | after `i <= L` steps the window is the rest of the seed followed by the first `i` predictions in order |
| SimplePopulation.PredictFuture | ml-web-app/2-simple-population.js:122-145 | `predictFuture` returns the rollout of `months` steps (none for a non-positive count) |
| SimplePopulation.LastWindowSpec | ml-web-app/2-simple-population.js:109 | the seed is the last `L` populations of the series, or all of them |
| SimplePopulation.LastWindowFollowsPairs | ml-web-app/2-simple-population.js:109 | the seed is the window right after the last training pair |
| SimplePopulation.TestPrediction | ml-web-app/2-simple-population.js:108-120 | the six-month rollout starts from the last window, and the one-step guess is its first prediction |
| RiskLevel.CalculateRiskLevel | ml-py-app/src/utils/utils.py:192-207 | the result is one of the three label and class pairs, never a mixed pair |
| RiskLevel.RiskBands | ml-py-app/src/utils/utils.py:202-207 | low exactly below 0.3, medium exactly from 0.3 to below 0.7, high exactly from 0.7 on |
| RiskLevel.RiskMonotone | ml-py-app/src/utils/utils.py:202-207 | a higher probability never gets a lower band |
| EvaluationTable.DisplaySpec | community-value-predictor-ai/components/EvaluationTable.tsx:10-11 | the shown results are a prefix in original order: `min(len, limit)` of them for a non-negative limit |
| EvaluationTable.PagingAddsUp | community-value-predictor-ai/components/EvaluationTable.tsx:11-12 | for a non-negative limit, the shown rows and the leftover count add up to the list length |
| EvaluationTable.RenderSpec | community-value-predictor-ai/components/EvaluationTable.tsx:14-78 | nothing renders for an empty list; otherwise a row per shown result, and the footer exactly when results are left over; for a non-negative limit the rows and the footer's count add up to the list length, and the footer is absent exactly when the list fits |
| EvaluationTable.RenderDefaultSpec | community-value-predictor-ai/components/EvaluationTable.tsx:10-78 | with the default limit, at most 50 rows are shown and a footer counts the rest exactly when there are more than 50 |
| EvaluationTable.StatusSpec | community-value-predictor-ai/components/EvaluationTable.tsx:44-66 | good exactly below 10, bad exactly above 30, neutral exactly in `[10, 30]`; never both good and bad |
| EvaluationTable.ErrorRateSpec | community-value-predictor-ai/components/EvaluationTable.tsx:42 | a missing percent error reads as 0, any other is shown as it is; the rate is 0 exactly when the percent error is missing or 0 |
| EvaluationTable.EvaluatedRowShown | community-value-predictor-ai/components/EvaluationTable.tsx:42-53 | a result of the evaluation run shows id `i + 1`, a non-negative error rate equal to its percent error, and its absolute error |

## Left out

- The ml5 and TensorFlow.js libraries are left out because they are foreign code:
  `addData`, `normalizeData`, `train`, `fit`, `buildModel`, `save`, `load` and the tensors.
  The network's `predict` is an uninterpreted function. Training is recorded only as a change of state.
- `waitForTf`, logging, `alert` and the training callbacks `onEpoch` and `onComplete` are left out because
  they are I/O with no logic to verify.
- CSV upload and parsing with Papa (`handleFileUpload`), `handleTrain` and `handleSaveModel` are left out
  because they are I/O.
- The error metrics and their formatting (`toFixed`, `toLocaleString`, `format_percentage`) are left out
  because they are floating-point formatting.
- `generateData` is left out because it only produces random data.
- The charts and the sidebar are left out because they are rendering only.
- `parseFloat` is abstract, so its prefix parsing is not modelled. It never yields an infinite number
  here, while the real function turns the text "Infinity" into a number.
- `null` cell values are not modelled apart from missing ones. Doubles are unbounded reals, so rounding
  and overflow are not modelled.
- Python's NaN probability, which would fall into the high band, is not modelled.
- Strings compare by Unicode scalar value, while JavaScript's `sort()` compares UTF-16 code units. The two
  orders differ only for characters outside the Basic Multilingual Plane.
- Promises and React hooks are modelled as sequential state updates. Every `catch` branch is left out,
  because the modelled `predict` never throws: it resolves to 0 on every error. `loadModel`'s callback is
  taken to run at once.
- PredictionSimulator.Simulator.HandlePredict: `predicting` is shown only to end false. The `true` it holds
  while the prediction is pending is visible only to rendering, which is not modelled.
- SimplePopulation.PrepareTrainingData: the window length is a natural number. The source throws on a
  negative length, because it reads `data[i]` at a negative index.
- MLServiceModel.ExtractPrediction: a NaN number in the network's answer is not modelled, because `ItemField` holds only numbers other than NaN. The source resolves to that NaN at mlService.ts:207-210, because `typeof NaN` is `'number'`. The NaN would then make a result's `error` and `errorPercent` NaN (App.tsx:193-194), and the table would show the rate as 0 and mark the row good, because `NaN || 0` is 0 (EvaluationTable.tsx:42).
- MLServiceModel.PredictMatchesTraining: requires category values to be already trimmed text, because the source's `predict` does not trim them (see Findings). `MLServiceModel.TrainedInputsMatchTraining` states the property without that requirement for the corrected conversion. The evaluation run (`App.GeneratePredictions`) uses `predict` as written.
- MLServiceModel.MLService.PrepareData: the `config` argument and the first-row debug copy are left out,
  because the source does nothing with them.

## Findings

| source | as written | input that shows it | evidently intended | confidence | as-written member | corrected member |
|---|---|---|---|---|---|---|
| community-value-predictor-ai/components/PredictionSimulator.tsx:64 | `mlService.predict(processedInputs)` passes no column metadata, so `predict` parses every value as a number, category values included | a category column "district" trained on the text "A": the panel's "A" reaches the network as the number 0 | `mlService.predict(processedInputs, metadata)`, as the evaluation run does at App.tsx:187, so the network sees the value it was trained on | medium, not executed | PredictionSimulator.SimulatorLosesCategories | PredictionSimulator.Simulator.HandlePredictWithMetadata |
| community-value-predictor-ai/services/mlService.ts:175 | `predict` hands a category value to ml5 as `String(rawVal \|\| "")`, untrimmed, while prepareData trained on `String(rawVal).trim()` (line 92) | a category column "d" with the CSV cell " A" (Papa trims only headers, App.tsx:88): trained as "A", predicted as " A" in the evaluation run (App.tsx:178-187) | convert as prepareData does, `String(rawVal).trim()`, as the comment at line 173 says the types must match exactly | medium, not executed | MLServiceModel.PredictKeepsPadding | MLServiceModel.MLService.PredictAsTrained |

`PredictionSimulator.Simulator.HandlePredict` models the call as written. The corrected method passes the
metadata, and `PredictionSimulator.SimulatorMatchesTraining` proves what it then guarantees: a training
row's values entered in the panel reach the network exactly as the network was trained on them.
The panel's category controls offer only trimmed options (`App.CategoryOptionsTrimmed`), so `predict`'s
missing trim does not matter there.

`MLServiceModel.MLService.Predict` models `predict` as written. `MLServiceModel.PredictKeepsPadding` shows a
padded category cell trained as one text and predicted as another. The corrected method
`MLServiceModel.MLService.PredictAsTrained` converts each input as prepareData does.
`MLServiceModel.TrainedInputsMatchTraining` proves that its inputs for any accepted row, padded or not, are
exactly that row's training inputs.
