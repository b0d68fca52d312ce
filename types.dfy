/** The records the front end passes between its components (community-value-predictor-ai/types.ts). */
module Types {
  import opened JsValues

  /** `ColumnMetadata.type`: `'number' | 'category'`. */
  datatype ColumnKind = NumberColumn | CategoryColumn

  /** `ColumnMetadata`: the optional fields are `Option`s. */
  datatype ColumnMetadata = ColumnMetadata(
    name: string,
    kind: ColumnKind,
    min: Option<real>,
    max: Option<real>,
    uniqueValues: Option<seq<string>>)

  type Metadata = map<string, ColumnMetadata>

  /** `PredictionResult` without its unused `inputs` field. */
  datatype PredictionResult = PredictionResult(
    id: Option<int>,
    actual: real,
    predicted: real,
    error: Option<real>,
    errorPercent: Option<real>)

  /** True when `metadata[col]` exists and its `type` is `'category'`. */
  predicate IsCategory(metadata: Metadata, col: string) {
    col in metadata && metadata[col].kind == CategoryColumn
  }

  /** True when `metadata[col]` exists and its `type` is `'number'`. */
  predicate IsNumberColumn(metadata: Metadata, col: string) {
    col in metadata && metadata[col].kind == NumberColumn
  }
}
