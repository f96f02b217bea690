/** The shared records of the trainer: the generated problem, the user's grid and
    the grading result with its two optional enrichment fields. */
module Types {

  datatype Option<+T> = None | Some(value: T)

  /** What an operation that may fail yields: a value, or the message of the error it throws. */
  datatype Result<+T> = Success(value: T) | Failure(message: string)

  /** The four task categories offered by the selector. */
  datatype TaskType = CustomerList | ProductList | SalesData | InvoiceInfo

  datatype Difficulty = Easy | Medium | Hard

  /** A generated practice problem: `sourceData` rows are positionally aligned with
      `templateHeaders`. */
  datatype ProblemSet = ProblemSet(
    instructions: string,
    templateHeaders: seq<string>,
    sourceData: seq<seq<string>>,
    displayData: string)

  /** One row of the user's grid: header name to typed text. */
  type Row = map<string, string>

  type Grid = seq<Row>

  /** One mismatching cell, with the raw (untrimmed) values. */
  datatype CellError = CellError(
    rowIndex: nat,
    colIndex: nat,
    header: string,
    userValue: string,
    correctValue: string)

  /** The outcome of one submission; `accuracy` is kept exact, as a real. */
  datatype GradingResult = GradingResult(
    accuracy: real,
    time: nat,
    errors: seq<CellError>,
    totalEntries: nat,
    correctEntries: nat,
    aiFeedback: Option<string>,
    mistakeAnalysis: Option<string>,
    timestamp: string)

  /** JavaScript truthiness of an optional string: present and non-empty. */
  predicate Truthy(s: Option<string>)
  {
    s.Some? && s.value != ""
  }
}
