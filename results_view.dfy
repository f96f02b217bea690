/** The results screen: the elapsed-time text, the accuracy colour band, the
    copied report, the rendering of the mistake analysis and which panels show
    a pending state. */
module ResultsView {
  import opened Types
  import opened Text

  /** `formatTime` of the results screen: `<m>分 <s>秒`, without padding. */
  function FormatDuration(totalSeconds: nat): (r: string)
    ensures |r| >= 5 && IsDigit(r[0]) && r[|r| - 1] == '秒'
  {
    NatToString(totalSeconds / 60) + "分 " + NatToString(totalSeconds % 60) + "秒"
  }

  /** Reads `<m>分 <s>秒` back as a number of seconds. */
  function ParseDuration(text: string): Option<nat>
  {
    var parts := Split(text, '分');
    if |parts| == 2 && |parts[1]| >= 2 && parts[1][0] == ' ' && parts[1][|parts[1]| - 1] == '秒'
       && AllDigits(parts[0]) && AllDigits(parts[1][1..|parts[1]| - 1])
    then Some(ParseDecimal(parts[0]) * 60 + ParseDecimal(parts[1][1..|parts[1]| - 1]))
    else None
  }

  /** The text splits at `分` into the minutes and the rest: a space, the
      seconds and `秒`. */
  lemma DurationParts(totalSeconds: nat)
    ensures Split(FormatDuration(totalSeconds), '分')
         == [NatToString(totalSeconds / 60), " " + NatToString(totalSeconds % 60) + "秒"]
  {
    var m := NatToString(totalSeconds / 60);
    var s := NatToString(totalSeconds % 60);
    assert '分' !in m by {
      assert forall i :: 0 <= i < |m| ==> IsDigit(m[i]);
    }
    var rest := " " + s + "秒";
    assert '分' !in rest by {
      assert forall i :: 0 <= i < |s| ==> IsDigit(s[i]);
      assert forall i :: 0 <= i < |rest| ==> rest[i] == ' ' || rest[i] == '秒' || IsDigit(rest[i]);
    }
    assert FormatDuration(totalSeconds) == m + ['分'] + rest;
    SplitAtFirst(m, '分', rest);
    SplitWithout(rest, '分');
  }

  /** The minutes before `分` and the seconds, below 60, between the space and
      `秒` read back as the minutes and seconds of the elapsed time. */
  lemma DurationShape(totalSeconds: nat)
    ensures var parts := Split(FormatDuration(totalSeconds), '分');
      && |parts| == 2 && AllDigits(parts[0]) && ParseDecimal(parts[0]) == totalSeconds / 60
      && parts[1] == " " + NatToString(totalSeconds % 60) + "秒"
      && ParseDecimal(NatToString(totalSeconds % 60)) == totalSeconds % 60 < 60
  {
    DurationParts(totalSeconds);
    ParseNatToString(totalSeconds / 60);
    ParseNatToString(totalSeconds % 60);
  }

  /** Reading the text back gives the elapsed seconds: `m * 60 + s`. */
  lemma DurationRoundTrip(totalSeconds: nat)
    ensures ParseDuration(FormatDuration(totalSeconds)) == Some(totalSeconds)
  {
    DurationShape(totalSeconds);
    var s := NatToString(totalSeconds % 60);
    var rest := " " + s + "秒";
    assert rest[1..|rest| - 1] == s;
  }

  datatype Color = Green | Yellow | Red

  /** The accuracy colour band: 95 and above, from 80 up to 95, below 80. */
  function AccuracyColor(accuracy: real): (c: Color)
    ensures c == Green <==> accuracy >= 95.0
    ensures c == Yellow <==> 80.0 <= accuracy < 95.0
    ensures c == Red <==> accuracy < 80.0
  {
    if accuracy >= 95.0 then Green else if accuracy >= 80.0 then Yellow else Red
  }

  function ColorRank(c: Color): nat
  {
    match c
    case Red => 0
    case Yellow => 1
    case Green => 2
  }

  /** A higher accuracy never gets a worse colour. */
  lemma ColorMonotone(a: real, b: real)
    requires a <= b
    ensures ColorRank(AccuracyColor(a)) <= ColorRank(AccuracyColor(b))
  {
  }

  const ReportTitle: string := "■□■ データ入力スキル評価結果 ■□■"
  const SummaryHeading: string := "--- 概要 ---"
  const FeedbackHeading: string := "--- AIからのフィードバック ---"
  const AnalysisHeading: string := "--- ケアレスミス分析 ---"
  const DetailHeading: string := "--- ミスの詳細 ---"

  /** The opening lines of the report.  The date and the accuracy with two
      decimals are formatted by the caller. */
  function SummarySection(result: GradingResult, dateText: string, accuracyText: string): (ls: seq<string>)
    ensures |ls| == 8 && ls[0] == ReportTitle && ls[3] == SummaryHeading
    ensures ls[2] == "" && ls[7] == ""
  {
    [ ReportTitle,
      "実施日時: " + dateText,
      "",
      SummaryHeading,
      "正答率: " + accuracyText + "% (" + NatToString(result.correctEntries) + " / " + NatToString(result.totalEntries) + ")",
      "入力時間: " + FormatDuration(result.time),
      "ミスした箇所: " + NatToString(|result.errors|) + "件",
      "" ]
  }

  function FeedbackSection(result: GradingResult): seq<string>
  {
    if Truthy(result.aiFeedback) then [FeedbackHeading, result.aiFeedback.value, ""] else []
  }

  function AnalysisSection(result: GradingResult): seq<string>
  {
    if Truthy(result.mistakeAnalysis) && |result.errors| > 0 then
      [AnalysisHeading, StripBold(result.mistakeAnalysis.value), ""]
    else []
  }

  /** `err.userValue || '""'`: an empty input is shown as a pair of quotes. */
  function ShownInput(userValue: string): (s: string)
    ensures s != ""
    ensures userValue == "" ==> s == "\"\""
    ensures userValue != "" ==> s == userValue
  {
    if userValue == "" then "\"\"" else userValue
  }

  /** One line of the error details, with the row counted from 1. */
  function DetailLine(e: CellError): string
  {
    "・行 " + NatToString(e.rowIndex + 1) + ", 項目「" + e.header + "」: 入力「" + ShownInput(e.userValue)
      + "」, 正解「" + e.correctValue + "」"
  }

  function DetailLines(errors: seq<CellError>): (ls: seq<string>)
    ensures |ls| == |errors|
  {
    if errors == [] then [] else [DetailLine(errors[0])] + DetailLines(errors[1..])
  }

  lemma {:induction false} DetailLinesAt(errors: seq<CellError>)
    ensures forall i :: 0 <= i < |errors| ==> DetailLines(errors)[i] == DetailLine(errors[i])
  {
    if errors != [] {
      DetailLinesAt(errors[1..]);
    }
  }

  function DetailSection(result: GradingResult): seq<string>
  {
    if |result.errors| > 0 then [DetailHeading] + DetailLines(result.errors) + [""] else []
  }

  /** The sections of the report, in the order `handleCopy` pushes them. */
  function ReportLines(result: GradingResult, dateText: string, accuracyText: string): (ls: seq<string>)
    ensures |ls| == 8 + (if Truthy(result.aiFeedback) then 3 else 0)
                      + (if Truthy(result.mistakeAnalysis) && |result.errors| > 0 then 3 else 0)
                      + (if |result.errors| > 0 then |result.errors| + 2 else 0)
    ensures ls[..8] == SummarySection(result, dateText, accuracyText)
    ensures ls[|ls| - 1] == ""
  {
    SummarySection(result, dateText, accuracyText) + FeedbackSection(result) + AnalysisSection(result) + DetailSection(result)
  }

  /** `handleCopy` without the clipboard: the parts pushed one after another,
      then joined by line breaks. */
  method BuildReport(result: GradingResult, dateText: string, accuracyText: string)
    returns (reportParts: seq<string>, reportText: string)
    ensures reportParts == ReportLines(result, dateText, accuracyText)
    ensures reportText == Join(reportParts, "\n")
  {
    reportParts := SummarySection(result, dateText, accuracyText);
    reportParts := AppendFeedback(reportParts, result);
    reportParts := AppendAnalysis(reportParts, result);
    reportParts := AppendDetails(reportParts, result);
    reportText := Join(reportParts, "\n");
  }

  /** The feedback push of `handleCopy`, taken only with feedback text. */
  method AppendFeedback(parts: seq<string>, result: GradingResult) returns (out: seq<string>)
    ensures out == parts + FeedbackSection(result)
  {
    out := parts;
    if result.aiFeedback.Some? && result.aiFeedback.value != "" {
      out := out + [FeedbackHeading, result.aiFeedback.value, ""];
    }
  }

  /** The analysis push of `handleCopy`, taken only with analysis text and
      errors, with the `**` markers removed. */
  method AppendAnalysis(parts: seq<string>, result: GradingResult) returns (out: seq<string>)
    ensures out == parts + AnalysisSection(result)
  {
    out := parts;
    if result.mistakeAnalysis.Some? && result.mistakeAnalysis.value != "" && |result.errors| > 0 {
      var plainAnalysis := StripBold(result.mistakeAnalysis.value);
      out := out + [AnalysisHeading, plainAnalysis, ""];
    }
  }

  /** The detail push of `handleCopy`, taken only with errors. */
  method AppendDetails(parts: seq<string>, result: GradingResult) returns (out: seq<string>)
    ensures out == parts + DetailSection(result)
  {
    out := parts;
    if |result.errors| > 0 {
      out := out + [DetailHeading];
      out := AppendDetailLines(out, result.errors);
      out := out + [""];
    }
  }

  /** The `forEach` over the errors in `handleCopy`: one detail line per error, in order. */
  method AppendDetailLines(parts: seq<string>, errors: seq<CellError>) returns (out: seq<string>)
    ensures out == parts + DetailLines(errors)
  {
    out := parts;
    var i := 0;
    while i < |errors|
      invariant 0 <= i <= |errors|
      invariant out == parts + DetailLines(errors[..i])
    {
      var err := errors[i];
      out := out + [DetailLine(err)];
      DetailLinesSnoc(errors[..i], err);
      assert errors[..i + 1] == errors[..i] + [err];
      i := i + 1;
    }
    assert errors[..i] == errors;
  }

  lemma {:induction false} DetailLinesSnoc(es: seq<CellError>, e: CellError)
    ensures DetailLines(es + [e]) == DetailLines(es) + [DetailLine(e)]
  {
    if es != [] {
      assert (es + [e])[1..] == es[1..] + [e];
      DetailLinesSnoc(es[1..], e);
    }
  }

  /** The feedback section is there exactly when there is feedback text, and holds it. */
  lemma FeedbackSectionShown(result: GradingResult)
    ensures FeedbackSection(result) != [] <==> Truthy(result.aiFeedback)
    ensures FeedbackSection(result) != [] ==> FeedbackSection(result)[1] == result.aiFeedback.value
  {
  }

  /** The analysis section is there only with analysis text and at least one
      error, and none of its `**` markers survive. */
  lemma AnalysisSectionShown(result: GradingResult)
    ensures AnalysisSection(result) != [] <==> Truthy(result.mistakeAnalysis) && |result.errors| > 0
    ensures AnalysisSection(result) != [] ==>
      AnalysisSection(result)[1] == StripBold(result.mistakeAnalysis.value) && !HasDoubleStar(AnalysisSection(result)[1])
  {
    if AnalysisSection(result) != [] {
      StripBoldRemovesAll(result.mistakeAnalysis.value);
    }
  }

  /** A detail line opens with `・行 ` and the row number counted from 1,
      written without a leading zero, so that it reads back as that row. */
  lemma DetailLineShape(e: CellError)
    ensures var digits := NatToString(e.rowIndex + 1);
      && "・行 " + digits <= DetailLine(e)
      && AllDigits(digits) && digits[0] != '0' && ParseDecimal(digits) == e.rowIndex + 1
  {
    var digits := NatToString(e.rowIndex + 1);
    ParseNatToString(e.rowIndex + 1);
    var head := "・行 " + digits;
    var tail := ", 項目「" + e.header + "」: 入力「" + ShownInput(e.userValue) + "」, 正解「" + e.correctValue + "」";
    assert DetailLine(e) == head + tail;
  }

  /** A detail line closes with the correct value, right after the shown input. */
  lemma DetailLineAnswer(e: CellError)
    ensures EndsWith(DetailLine(e), "」, 正解「" + e.correctValue + "」")
  {
    NinePieces("・行 ", NatToString(e.rowIndex + 1), ", 項目「", e.header, "」: 入力「",
      ShownInput(e.userValue), "」, 正解「", e.correctValue, "」");
  }

  /** The details hold a heading and then one line per error, in the errors' order. */
  lemma DetailSectionLines(result: GradingResult)
    ensures |result.errors| == 0 ==> DetailSection(result) == []
    ensures |result.errors| > 0 ==>
      && |DetailSection(result)| == |result.errors| + 2
      && DetailSection(result)[0] == DetailHeading
      && DetailSection(result)[|result.errors| + 1] == ""
      && forall i :: 0 <= i < |result.errors| ==> DetailSection(result)[i + 1] == DetailLine(result.errors[i])
  {
    DetailLinesAt(result.errors);
  }

  /** A block of the rendered analysis. */
  datatype Block = Heading(text: string) | Paragraph(text: string)

  predicate IsBlank(line: string)
  {
    Trim(line) == ""
  }

  /** `lines.filter(line => line.trim() !== '')`. */
  function NonBlankLines(lines: seq<string>): (kept: seq<string>)
    ensures |kept| <= |lines|
    ensures forall i :: 0 <= i < |kept| ==> !IsBlank(kept[i])
    ensures forall l :: l in kept <==> l in lines && !IsBlank(l)
  {
    if lines == [] then []
    else if IsBlank(lines[0]) then NonBlankLines(lines[1..])
    else [lines[0]] + NonBlankLines(lines[1..])
  }

  /** A line starting and ending with `**` becomes a heading of `substring(2, length - 2)`
      (JavaScript semantics, so "**" and "***" give "**" and "*"); any other line a paragraph. */
  function Classify(line: string): (b: Block)
    ensures b.Heading? <==> StartsWith(line, "**") && EndsWith(line, "**")
    ensures b.Paragraph? ==> b.text == line
    ensures b.Heading? && |line| >= 4 ==> line == "**" + b.text + "**"
    ensures |b.text| <= |line|
  {
    if StartsWith(line, "**") && EndsWith(line, "**") then Heading(Substring(line, 2, |line| - 2))
    else Paragraph(line)
  }

  function ClassifyAll(lines: seq<string>): (bs: seq<Block>)
    ensures |bs| == |lines|
    ensures forall i :: 0 <= i < |lines| ==> bs[i] == Classify(lines[i])
  {
    if lines == [] then [] else [Classify(lines[0])] + ClassifyAll(lines[1..])
  }

  /** The filter keeps the order: filtering a concatenation filters each part. */
  lemma {:induction false} NonBlankLinesAppend(a: seq<string>, b: seq<string>)
    ensures NonBlankLines(a + b) == NonBlankLines(a) + NonBlankLines(b)
  {
    if a == [] {
      assert a + b == b;
    } else {
      assert (a + b)[0] == a[0] && (a + b)[1..] == a[1..] + b;
      NonBlankLinesAppend(a[1..], b);
    }
  }

  /** A single line is kept exactly when it is not blank. */
  lemma NonBlankLinesSingle(line: string)
    ensures NonBlankLines([line]) == if IsBlank(line) then [] else [line]
  {
    assert [line][1..] == [];
  }

  /** Lines none of which is blank are all kept, in order. */
  lemma {:induction false} NonBlankLinesKeepsAll(lines: seq<string>)
    requires forall i :: 0 <= i < |lines| ==> !IsBlank(lines[i])
    ensures NonBlankLines(lines) == lines
  {
    if lines != [] {
      NonBlankLinesKeepsAll(lines[1..]);
    }
  }

  /** `renderAnalysis`: split into lines, drop the blank ones, classify the rest. */
  function RenderAnalysis(text: string): (bs: seq<Block>)
    ensures |bs| <= |Split(text, '\n')|
    ensures forall i :: 0 <= i < |bs| && bs[i].Paragraph? ==> !IsBlank(bs[i].text)
  {
    ClassifyAll(NonBlankLines(Split(text, '\n')))
  }

  /** A line written as `**H**` renders as the heading H. */
  lemma HeadingRoundTrip(h: string)
    ensures Classify("**" + h + "**") == Heading(h)
  {
    var line := "**" + h + "**";
    assert line[..2] == "**" && line[|line| - 2..] == "**";
    assert line[2..|line| - 2] == h;
  }

  /** A line without the `**` delimiters at both ends stays a paragraph, unchanged. */
  lemma ParagraphKept(line: string)
    requires !(StartsWith(line, "**") && EndsWith(line, "**"))
    ensures Classify(line) == Paragraph(line)
  {
  }

  /** The two lines too short for `substring(2, length - 2)` to be in order. */
  lemma ShortHeadings()
    ensures Classify("**") == Heading("**")
    ensures Classify("***") == Heading("*")
  {
    assert "**"[..2] == "**" && "**"[0..2] == "**";
    assert "***"[..2] == "**" && "***"[1..] == "**" && "***"[1..2] == "*";
  }

  /** Rendering a text of lines renders each non-blank line, in order. */
  lemma RenderLines(lines: seq<string>)
    requires |lines| >= 1 && NoneContain(lines, '\n')
    ensures RenderAnalysis(Join(lines, "\n")) == ClassifyAll(NonBlankLines(lines))
  {
    SplitJoin(lines, '\n');
  }

  /** Which panel the feedback box shows. */
  datatype FeedbackPanel = FeedbackPending | FeedbackShown(text: string)

  /** Which panel the mistake-analysis box shows, when it is shown at all. */
  datatype AnalysisPanel = AnalysisPending | AnalysisShown(blocks: seq<Block>)

  /** The feedback box: the text once it is there and non-empty, else the spinner. */
  function FeedbackView(result: GradingResult): (panel: FeedbackPanel)
    ensures panel.FeedbackPending? <==> !Truthy(result.aiFeedback)
    ensures panel.FeedbackShown? ==> panel.text == result.aiFeedback.value
  {
    if result.aiFeedback.Some? && result.aiFeedback.value != "" then FeedbackShown(result.aiFeedback.value)
    else FeedbackPending
  }

  /** The analysis box appears only when there are errors; it renders the
      analysis once it is there and non-empty, else the spinner. */
  function MistakeView(result: GradingResult): (panel: Option<AnalysisPanel>)
    ensures panel.Some? <==> |result.errors| > 0
    ensures panel.Some? ==> (panel.value.AnalysisPending? <==> !Truthy(result.mistakeAnalysis))
    ensures panel.Some? && panel.value.AnalysisShown? ==> panel.value.blocks == RenderAnalysis(result.mistakeAnalysis.value)
  {
    if |result.errors| > 0 then
      Some(if result.mistakeAnalysis.Some? && result.mistakeAnalysis.value != ""
           then AnalysisShown(RenderAnalysis(result.mistakeAnalysis.value))
           else AnalysisPending)
    else None
  }

  /** One row of the on-screen error table: row from 1, header, input as shown, answer. */
  datatype ErrorRow = ErrorRow(row: nat, header: string, input: string, answer: string)

  function ErrorTable(errors: seq<CellError>): (rows: seq<ErrorRow>)
    ensures |rows| == |errors|
    ensures forall i :: 0 <= i < |errors| ==>
      rows[i].row == errors[i].rowIndex + 1 && rows[i].header == errors[i].header
      && rows[i].input == ShownInput(errors[i].userValue) && rows[i].answer == errors[i].correctValue
  {
    if errors == [] then []
    else
      var e := errors[0];
      [ErrorRow(e.rowIndex + 1, e.header, ShownInput(e.userValue), e.correctValue)] + ErrorTable(errors[1..])
  }
}
