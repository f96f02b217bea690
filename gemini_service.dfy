/** The gates around the generative-model calls: problem validation, the
    no-mistakes short cut, the error listings sent in prompts, and the fixed
    messages that replace any failure.  The model call itself is an oracle whose
    reply comes in as a parameter. */
module GeminiService {
  import opened Types
  import opened Text

  /** The outcome of one SDK call: the reply, or a transport or parse failure. */
  datatype Reply<T> = Replied(value: T) | CallFailed

  /** The problem JSON as parsed: any of its four fields may be missing. */
  datatype RawProblem = RawProblem(
    instructions: Option<string>,
    templateHeaders: Option<seq<string>>,
    sourceData: Option<seq<seq<string>>>,
    displayData: Option<string>)

  const MissingFieldsMessage: string := "AI response is missing required fields."
  const GenerationFailedMessage: string := "Failed to generate a new problem. Please try again."
  const FeedbackFailedMessage: string := "Failed to generate AI feedback."
  const AnalysisFailedMessage: string := "Failed to generate mistake analysis."
  const NoMistakesMessage: string := "素晴らしいです！ミスはありませんでした。この調子で頑張りましょう。"

  /** The four fields are present and truthy: strings must be non-empty, while
      arrays, even empty ones, are always truthy. */
  predicate HasRequiredFields(raw: RawProblem)
  {
    Truthy(raw.instructions) && raw.templateHeaders.Some? && raw.sourceData.Some? && Truthy(raw.displayData)
  }

  /** The basic validation inside `generateProblem`. */
  function ValidateProblem(raw: RawProblem): (r: Result<ProblemSet>)
    ensures r.Success? <==> HasRequiredFields(raw)
    ensures r.Failure? ==> r.message == MissingFieldsMessage
    ensures r.Success? ==>
      && Some(r.value.instructions) == raw.instructions && Some(r.value.templateHeaders) == raw.templateHeaders
      && Some(r.value.sourceData) == raw.sourceData && Some(r.value.displayData) == raw.displayData
  {
    if !HasRequiredFields(raw) then Failure(MissingFieldsMessage)
    else Success(ProblemSet(raw.instructions.value, raw.templateHeaders.value, raw.sourceData.value, raw.displayData.value))
  }

  /** `generateProblem`: a failed call and a rejected reply both surface as the
      one generic error. */
  function GenerateProblem(reply: Reply<RawProblem>): (r: Result<ProblemSet>)
    ensures r.Success? <==> reply.Replied? && HasRequiredFields(reply.value)
    ensures r.Failure? ==> r.message == GenerationFailedMessage
    ensures r.Success? ==> r == ValidateProblem(reply.value)
  {
    match reply
    case CallFailed => Failure(GenerationFailedMessage)
    case Replied(raw) =>
      match ValidateProblem(raw)
      case Success(p) => Success(p)
      case Failure(_) => Failure(GenerationFailedMessage)
  }

  /** A model reply, trimmed, or the fixed message that replaces a failure. */
  function TextReply(reply: Reply<string>, failureMessage: string): (r: Result<string>)
    ensures reply.Replied? ==> r == Success(Trim(reply.value))
    ensures reply.CallFailed? ==> r == Failure(failureMessage)
  {
    match reply
    case Replied(text) => Success(Trim(text))
    case CallFailed => Failure(failureMessage)
  }

  /** `generateFeedback`: the reply text trimmed, or a fixed error. */
  function GenerateFeedback(reply: Reply<string>): (r: Result<string>)
    ensures r.Success? <==> reply.Replied?
    ensures r.Success? ==> Tight(r.value) && r.value == Trim(reply.value)
    ensures r.Failure? ==> r.message == FeedbackFailedMessage
  {
    TextReply(reply, FeedbackFailedMessage)
  }

  /** `analyzeMistakes`: with no errors it answers the fixed congratulation and
      the reply of the model plays no part; otherwise the reply trimmed, or a
      fixed error. */
  function AnalyzeMistakes(result: GradingResult, reply: Reply<string>): (r: Result<string>)
    ensures |result.errors| == 0 ==> r == Success(NoMistakesMessage)
    ensures |result.errors| > 0 ==> (r.Success? <==> reply.Replied?)
    ensures r.Success? ==> Tight(r.value)
    ensures |result.errors| > 0 && r.Success? ==> r.value == Trim(reply.value)
    ensures r.Failure? ==> r.message == AnalysisFailedMessage
  {
    if |result.errors| == 0 then
      assert NoMistakesMessage[0] == '素' && NoMistakesMessage[|NoMistakesMessage| - 1] == '。';
      Success(NoMistakesMessage)
    else TextReply(reply, AnalysisFailedMessage)
  }

  /** One line of the error summary in the feedback prompt, with a 1-based row. */
  function SummaryLine(e: CellError): string
  {
    "- 行 " + NatToString(e.rowIndex + 1) + ", 項目 「" + e.header + "」: 入力「" + e.userValue + "」, 正解「" + e.correctValue + "」"
  }

  /** A summary line opens with the 1-based row, written without a leading zero,
      and closes with the correct value. */
  lemma SummaryLineShape(e: CellError)
    ensures var digits := NatToString(e.rowIndex + 1);
      && StartsWith(SummaryLine(e), "- 行 " + digits)
      && EndsWith(SummaryLine(e), "」, 正解「" + e.correctValue + "」")
      && digits[0] != '0' && ParseDecimal(digits) == e.rowIndex + 1
  {
    OneBasedLabel(e.rowIndex);
    NinePieces("- 行 ", NatToString(e.rowIndex + 1), ", 項目 「", e.header, "」: 入力「",
      e.userValue, "」, 正解「", e.correctValue, "」");
  }

  function SummaryLines(errors: seq<CellError>): (ls: seq<string>)
    ensures |ls| == |errors|
    ensures forall i :: 0 <= i < |errors| ==> ls[i] == SummaryLine(errors[i])
  {
    if errors == [] then [] else [SummaryLine(errors[0])] + SummaryLines(errors[1..])
  }

  /** The `errorSummary` of `generateFeedback`: the first five errors only. */
  function ErrorSummary(errors: seq<CellError>): (text: string)
    ensures text == "" <==> errors == []
    ensures errors != [] ==> SummaryLine(errors[0]) <= text
  {
    JoinHead(SummaryLines(errors[..if |errors| < 5 then |errors| else 5]), "\n");
    Join(SummaryLines(errors[..if |errors| < 5 then |errors| else 5]), "\n")
  }

  predicate SingleLine(e: CellError)
  {
    '\n' !in e.header && '\n' !in e.userValue && '\n' !in e.correctValue
  }

  lemma SummaryLineSingle(e: CellError)
    requires SingleLine(e)
    ensures '\n' !in SummaryLine(e)
  {
    var digits := NatToString(e.rowIndex + 1);
    assert forall i :: 0 <= i < |digits| ==> IsDigit(digits[i]);
  }

  /** The summary lists at most five errors, the first ones, in order, one per
      line, each with its row number counted from 1. */
  lemma ErrorSummaryLines(errors: seq<CellError>)
    requires |errors| > 0 && forall i :: 0 <= i < |errors| ==> SingleLine(errors[i])
    ensures var lines := Split(ErrorSummary(errors), '\n');
      && |lines| == (if |errors| < 5 then |errors| else 5)
      && forall i :: 0 <= i < |lines| ==> lines[i] == SummaryLine(errors[i])
  {
    var shown := errors[..if |errors| < 5 then |errors| else 5];
    var ls := SummaryLines(shown);
    forall i | 0 <= i < |ls| ensures '\n' !in ls[i] {
      SummaryLineSingle(shown[i]);
    }
    SplitJoin(ls, '\n');
  }

  /** One entry of the error list in the analysis prompt, with a 1-based row. */
  function DetailEntry(e: CellError): string
  {
    "{ row: " + NatToString(e.rowIndex + 1) + ", field: \"" + e.header + "\", userInput: \"" + e.userValue
      + "\", correctAnswer: \"" + e.correctValue + "\" }"
  }

  /** An entry opens with the 1-based row, written without a leading zero, and
      closes with the quoted correct value. */
  lemma DetailEntryShape(e: CellError)
    ensures var digits := NatToString(e.rowIndex + 1);
      && StartsWith(DetailEntry(e), "{ row: " + digits)
      && EndsWith(DetailEntry(e), "\", correctAnswer: \"" + e.correctValue + "\" }")
      && digits[0] != '0' && ParseDecimal(digits) == e.rowIndex + 1
  {
    OneBasedLabel(e.rowIndex);
    NinePieces("{ row: ", NatToString(e.rowIndex + 1), ", field: \"", e.header, "\", userInput: \"",
      e.userValue, "\", correctAnswer: \"", e.correctValue, "\" }");
  }

  function DetailEntries(errors: seq<CellError>): (es: seq<string>)
    ensures |es| == |errors|
    ensures forall i :: 0 <= i < |errors| ==> es[i] == DetailEntry(errors[i])
  {
    if errors == [] then [] else [DetailEntry(errors[0])] + DetailEntries(errors[1..])
  }

  /** The `errorDetails` of `analyzeMistakes`: every error, joined by `,` and a line break. */
  function ErrorDetails(errors: seq<CellError>): (text: string)
    ensures text == "" <==> errors == []
    ensures errors != [] ==> DetailEntry(errors[0]) <= text
  {
    JoinHead(DetailEntries(errors), ",\n");
    Join(DetailEntries(errors), ",\n")
  }

  /** Every piece but the last followed by a comma. */
  function WithCommas(xs: seq<string>): (ys: seq<string>)
    ensures |ys| == |xs|
  {
    if |xs| <= 1 then xs else [xs[0] + ","] + WithCommas(xs[1..])
  }

  lemma {:induction false} JoinCommaBreak(xs: seq<string>)
    ensures Join(xs, ",\n") == Join(WithCommas(xs), "\n")
  {
    if |xs| >= 2 {
      JoinCommaBreak(xs[1..]);
      if |xs| == 2 {
        assert WithCommas(xs[1..]) == xs[1..];
      }
      assert xs[0] + ",\n" + Join(xs[1..], ",\n") == (xs[0] + ",") + "\n" + Join(WithCommas(xs[1..]), "\n");
    }
  }

  lemma {:induction false} WithCommasSingle(xs: seq<string>)
    requires NoneContain(xs, '\n')
    ensures NoneContain(WithCommas(xs), '\n')
    ensures forall i :: 0 <= i < |xs| - 1 ==> WithCommas(xs)[i] == xs[i] + ","
    ensures |xs| > 0 ==> WithCommas(xs)[|xs| - 1] == xs[|xs| - 1]
  {
    if |xs| >= 2 {
      WithCommasSingle(xs[1..]);
    }
  }

  lemma DetailEntrySingle(e: CellError)
    requires SingleLine(e)
    ensures '\n' !in DetailEntry(e)
  {
    var digits := NatToString(e.rowIndex + 1);
    assert forall i :: 0 <= i < |digits| ==> IsDigit(digits[i]);
  }

  /** The detail list holds every error, in order, one per line, each line but the
      last ending in a comma, each with its row number counted from 1. */
  lemma ErrorDetailsLines(errors: seq<CellError>)
    requires |errors| > 0 && forall i :: 0 <= i < |errors| ==> SingleLine(errors[i])
    ensures var lines := Split(ErrorDetails(errors), '\n');
      && |lines| == |errors|
      && (forall i :: 0 <= i < |errors| - 1 ==> lines[i] == DetailEntry(errors[i]) + ",")
      && lines[|errors| - 1] == DetailEntry(errors[|errors| - 1])
  {
    var es := DetailEntries(errors);
    forall i | 0 <= i < |es| ensures '\n' !in es[i] {
      DetailEntrySingle(errors[i]);
    }
    JoinCommaBreak(es);
    WithCommasSingle(es);
    SplitJoin(WithCommas(es), '\n');
  }
}
