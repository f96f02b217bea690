# Data-entry trainer: verified model

This project is a Dafny model of the practice-and-grade loop of DCITEX/data-entry-app, a browser trainer for data entry. The loop runs as follows:

1. The user picks a task type and a difficulty.
2. A generative model provides a problem: instructions, template headers, ground-truth records and a display text.
3. The user starts a one-second timer and types the records into a grid of `header -> value` rows.
4. The grid is graded cell by cell against the ground truth.
5. A results screen shows the accuracy, the elapsed time, the errors and two texts that the model writes afterwards: feedback and a mistake analysis.
6. The user resets to pick another problem.

The modules follow the program's files:

- `Types`: the shared records of `types.ts`: `ProblemSet`, `CellError`, `GradingResult` with its two optional AI texts, plus `Option`/`Result` and JavaScript truthiness of an optional string.
- `Text`: the JavaScript string built-ins the code relies on:
  - `trim`, over ECMAScript's whitespace and line terminators;
  - `split` on one character, and `join` on any separator;
  - `replace(/\*\*/g, '')`;
  - `substring` with JavaScript's clamping and argument swap;
  - `padStart`;
  - `String(n)` and parsing decimal digits back.
- `Grading`: the grading loops of `handleGrade`:
  - two imperative loops, proved against the specification functions `RowErrors`, `ErrorsBefore` and `Mismatches`;
  - soundness, completeness and row-major order proved about those functions.
- `Session`: the component state of `App.tsx` as a class:
  - screen state machine, grid, timer ref, results and error;
  - `startTimer`, `stopTimer`, the interval tick, problem generation, cell change, start, grade and reset are methods;
  - the two enrichment updaters are pure functions, applied by two methods.
- `InputTable`: `handleKeyDown` as a method. It steps through the same switch and wrap adjustments, and is proved against a reading-order reference (`CellAt` of `row * cols + col + step`). The tab-separated copy is modelled as a function with a parse-back round trip.
- `ResultsView`:
  - `formatTime` (`<m>分 <s>秒`), the accuracy colour band, the report that `handleCopy` assembles by successive pushes, and the `renderAnalysis` line classification;
  - which panels show a pending state;
  - the error table.
- `TimerDisplay`: the `MM:SS` clock of `Timer.tsx`.
- `GeminiService`:
  - validation of the generated problem;
  - the no-error short cut of `analyzeMistakes`;
  - the five-error summary and the full error listing sent in prompts;
  - the fixed messages that replace every failure.
  
  The model call itself is an oracle. Its reply (`Replied(v)` or `CallFailed`) is a parameter.

## Model

| member | source | states |
|---|---|---|
| Grading.UserValue | App.tsx:104 | a missing row or a missing key reads as ""; a present key reads as its stored value; a non-empty value is the one stored at that row and header |
| Grading.CorrectValue | App.tsx:103 | a column past the end of the ground-truth row reads as ""; otherwise it is the stored value |
| Grading.CellMatchesExact | App.tsx:106 | equal values always match; values with no surrounding whitespace match exactly when they are equal |
| Grading.Mismatches | App.tsx:101-117 | at most rows times headers errors are recorded |
| Grading.ErrorsBeforeSize | App.tsx:101-117 | the first m rows record at most m times headers errors |
| Grading.GradeRow | App.tsx:102-117 | the inner loop yields exactly the row's mismatching cells in header order, and the correct count plus the errors is the number of headers |
| Grading.Grade | App.tsx:97-122 | errors are the problem's mismatches in row-major order; totalEntries is rows times headers; correctEntries + errors = totalEntries; accuracy, time and timestamp as given; no AI texts yet |
| Grading.Accuracy | App.tsx:120 | accuracy lies in [0, 100] when correct <= total; it is 100 with no cells, 100 when all are correct and 0 when none are |
| Grading.MismatchesSound | App.tsx:101-117 | every recorded error is an in-shape cell whose trimmed values differ; it carries its header and the raw untrimmed user and correct values; the list is in row-major, then header, order |
| Grading.MismatchesComplete | App.tsx:101-117 | every cell whose trimmed values differ is recorded |
| Grading.ErrorsBeforeOrdered | App.tsx:101-102 | the errors of the first m rows are in row-major order |
| Grading.RowErrorsElems | App.tsx:102-115 | every error of a row's first n headers is a recorded mismatch of that row at a column below n |
| Grading.RowErrorsComplete | App.tsx:102-115 | every mismatching cell of the row among the first n headers is recorded |
| Grading.PaddedAnswerIsCorrect | App.tsx:103-107 | a typed value that equals the answer up to surrounding whitespace is not an error |
| Grading.ScoringExample | App.tsx:97-120 | records [["A","1"],["B","2"]] with "x" typed for the first Code give the single error (0, 1, "Code", "x", "1") and 75% |
| Grading.ExampleCells | App.tsx:103-106 | in that example only cell (0, 1) mismatches, and its error holds the raw "x" and "1" |
| Session.InitialGrid | App.tsx:69-71 | one row per ground-truth record, each mapping exactly the template headers to "" |
| Session.FreshGridErrors | App.tsx:69-71 | on a fresh grid every cell reads as "", so a cell is an error iff its answer is not blank |
| Session.UpdateCell | App.tsx:80-86 | the cell gets the value; other keys of the row and all other rows are unchanged; the length is unchanged unless the index is past the end, where JavaScript lengthens the array |
| Session.UpdateCellReads | App.tsx:80-86 | after a change grading reads the new value at that cell and the old value everywhere else |
| Session.WithFeedback | App.tsx:127-134 | a null result stays null; otherwise aiFeedback becomes the reply or the fixed placeholder, and every other field is kept |
| Session.WithAnalysis | App.tsx:136-143 | a null result stays null; otherwise mistakeAnalysis becomes the reply or the fixed placeholder, and every other field is kept |
| Session.EnrichmentCommutes | App.tsx:127-143 | the two replies give the same result in either order of arrival |
| Session.EnrichmentIdempotent | App.tsx:129-142 | applying a reply twice equals applying it once |
| Session.PanelsAfterEnrichment | App.tsx:127-143 | after both replies the feedback panel is pending only for an empty reply and shows the placeholder on failure; the analysis panel exists iff there are errors, pending likewise |
| Session.Session.constructor | App.tsx:24-38 | the initial state: selecting, nothing loaded, time 0, timer not running, no interval |
| Session.Session.StartTimer | App.tsx:40-46 | the live interval is cleared, time reset to 0, and a fresh interval becomes the only live one; nothing else changes |
| Session.Session.StopTimer | App.tsx:48-53 | no interval is left live and the ref is empty; with none live it changes nothing (idempotent) |
| Session.Session.Tick | App.tsx:43-45 | a tick of the live interval adds one second and changes nothing else |
| Session.Session.HandleGenerateProblem | App.tsx:61-78 | the selection is recorded and the error cleared; a problem leads to typing on a fresh grid; a failure returns to selecting with its message |
| Session.Session.HandleDataChange | App.tsx:80-86 | only the grid changes, by one cell |
| Session.Session.HandleStart | App.tsx:88-91 | the running flag is set and the timer restarted from 0 |
| Session.Session.HandleGrade | App.tsx:93-124 | the timer stops; without a problem, task type and difficulty nothing else changes; otherwise the results screen shows the graded grid with the elapsed time |
| Session.Session.ApplyFeedback | App.tsx:127-134 | only the result changes, by the feedback updater on whatever result is current |
| Session.Session.ApplyAnalysis | App.tsx:136-143 | only the result changes, by the analysis updater on whatever result is current |
| Session.Session.HandleReset | App.tsx:146-158 | back to selecting with problem, grid, time, result, error and selection cleared, the timer stopped and not running |
| InputTable.HandleKeyDown | src/assets/components/IuputTable.tsx:13-74 | composing keys do nothing and are not consumed; a key fires iff vertical, or horizontal with the caret at the matching end; a fired key is consumed and focuses the cell Step positions away in reading order, or nothing past the sheet; any focus is inside the sheet |
| InputTable.CellAt | src/assets/components/IuputTable.tsx:55-72 | a produced cell lies within rows x cols |
| InputTable.ExportValue | src/assets/components/IuputTable.tsx:79 | the exported value is "" iff the key is missing or holds ""; otherwise it is the stored value |
| InputTable.Tsv | src/assets/components/IuputTable.tsx:76-80 | the copy opens with the tab-joined headers, and with no rows it is just that line |
| InputTable.TsvRoundTrip | src/assets/components/IuputTable.tsx:76-80 | the copy has rows + 1 lines; parsing it back gives the headers and then each row's values in header order, missing values as "" |
| InputTable.TsvLines | src/assets/components/IuputTable.tsx:77-80 | the copy splits into exactly the header line and one line per row |
| InputTable.TsvTabCount | src/assets/components/IuputTable.tsx:77-80 | each line of a tab-free copy holds exactly headers - 1 tabs |
| ResultsView.FormatDuration | src/assets/components/Results.tsx:12-16 | the text is at least five characters, opens with a digit and ends with 秒 |
| ResultsView.DurationShape | src/assets/components/Results.tsx:12-16 | minutes before 分 read back as t div 60; seconds below 60 read back as t mod 60 |
| ResultsView.DurationRoundTrip | src/assets/components/Results.tsx:12-16 | reading the text back gives m * 60 + s == t |
| ResultsView.AccuracyColor | src/assets/components/Results.tsx:18 | green iff >= 95, yellow iff in [80, 95), red iff < 80 |
| ResultsView.ColorMonotone | src/assets/components/Results.tsx:18 | a higher accuracy never gets a worse colour |
| ResultsView.SummarySection | src/assets/components/Results.tsx:21-31 | eight lines: the title first, the summary heading fourth, blank third and last |
| ResultsView.ReportLines | src/assets/components/Results.tsx:21-52 | the summary's eight lines, then three feedback lines iff there is feedback, three analysis lines iff there is analysis and errors, and a heading, one line per error and a blank iff there are errors; the last line is blank |
| ResultsView.BuildReport | src/assets/components/Results.tsx:20-54 | the pushed parts are the summary, feedback, analysis and detail sections in that order, and the text is them joined by line breaks |
| ResultsView.AppendFeedback | src/assets/components/Results.tsx:33-37 | the feedback lines are pushed exactly when there is feedback text |
| ResultsView.AppendAnalysis | src/assets/components/Results.tsx:39-44 | the analysis lines are pushed exactly with analysis text and errors, bold markers removed |
| ResultsView.AppendDetails | src/assets/components/Results.tsx:46-52 | the detail lines are pushed exactly when there are errors |
| ResultsView.AppendDetailLines | src/assets/components/Results.tsx:48-50 | one detail line per error is pushed, in order |
| ResultsView.FeedbackSectionShown | src/assets/components/Results.tsx:33-37 | the feedback section appears iff the feedback is non-empty, and holds it |
| ResultsView.AnalysisSectionShown | src/assets/components/Results.tsx:39-44 | the analysis section appears iff the analysis is non-empty and there are errors; no `**` is left in it |
| ResultsView.DetailSectionLines | src/assets/components/Results.tsx:46-52 | no errors, no section; otherwise a heading, one line per error in order, and a blank line |
| ResultsView.DetailLineShape | src/assets/components/Results.tsx:49 | a detail line opens with `・行 ` and the 1-based row without a leading zero |
| ResultsView.DetailLineAnswer | src/assets/components/Results.tsx:49 | a detail line ends with the shown input's closing bracket and then the correct value in brackets |
| ResultsView.ShownInput | src/assets/components/Results.tsx:49 | an empty input is shown as exactly `""`; any other input as it is; the shown text is never empty |
| ResultsView.NonBlankLines | src/assets/components/Results.tsx:75 | the kept lines are exactly the non-blank lines, none blank, and no more than the input |
| ResultsView.NonBlankLinesAppend | src/assets/components/Results.tsx:75 | filtering a concatenation gives the two filtered parts, in order |
| ResultsView.NonBlankLinesSingle | src/assets/components/Results.tsx:75 | a single line is kept iff it is not blank |
| ResultsView.NonBlankLinesKeepsAll | src/assets/components/Results.tsx:75 | lines none of which is blank are all kept, in order |
| ResultsView.Classify | src/assets/components/Results.tsx:79-86 | a heading iff the line starts and ends with `**`; a paragraph holds the line; a heading of a line of four or more characters is the line without its markers; the text is never longer than the line |
| ResultsView.RenderAnalysis | src/assets/components/Results.tsx:74-87 | no more blocks than lines, and no paragraph is blank |
| ResultsView.HeadingRoundTrip | src/assets/components/Results.tsx:79-83 | a line `**H**` renders as heading H |
| ResultsView.ParagraphKept | src/assets/components/Results.tsx:79-86 | a line without `**` at both ends is a paragraph, unchanged |
| ResultsView.ShortHeadings | src/assets/components/Results.tsx:79-83 | `**` and `***` render as headings `**` and `*`, through the argument swap of substring |
| ResultsView.RenderLines | src/assets/components/Results.tsx:74-87 | rendering a text of lines classifies each non-blank line, in order |
| ResultsView.FeedbackView | src/assets/components/Results.tsx:133-137 | the feedback panel is pending iff the feedback is absent or empty, and otherwise shows it |
| ResultsView.MistakeView | src/assets/components/Results.tsx:142-158 | the analysis panel exists iff there are errors; it is pending iff the analysis is absent or empty, and otherwise shows the rendered analysis |
| ResultsView.ErrorTable | src/assets/components/Results.tsx:177-184 | one table row per error, in order: the 1-based row, header, input as shown and answer |
| TimerDisplay.FormatClock | src/assets/components/Timer.tsx:8-12 | the clock is at least five characters with the colon third from the end |
| TimerDisplay.ClockShape | src/assets/components/Timer.tsx:8-12 | two groups around one colon, each at least two digits; the seconds exactly two and below 60; they read back as s div 60 and s mod 60 |
| TimerDisplay.ClockRoundTrip | src/assets/components/Timer.tsx:8-12 | reading the clock back gives m * 60 + sec == s |
| TimerDisplay.ClockWidth | src/assets/components/Timer.tsx:8-12 | below 6000 seconds the clock is exactly five characters with the colon at index 2 |
| GeminiService.ValidateProblem | src/assets/services/geminiService.ts:72-76 | accepted iff all four fields are present and truthy; the accepted problem carries them; rejection gives the missing-fields message |
| GeminiService.GenerateProblem | src/assets/services/geminiService.ts:58-80 | success iff the call answered with a valid problem; every failure is the one generic message |
| GeminiService.GenerateFeedback | src/assets/services/geminiService.ts:119-128 | success iff the call answered, with the reply trimmed; a failure is the fixed feedback message |
| GeminiService.AnalyzeMistakes | src/assets/services/geminiService.ts:131-180 | with no errors, the fixed congratulation whatever the model would say; otherwise the trimmed reply on success or the fixed analysis message |
| GeminiService.ErrorSummary | src/assets/services/geminiService.ts:90-92 | the summary is empty iff there are no errors, and otherwise opens with the first error's line |
| GeminiService.ErrorDetails | src/assets/services/geminiService.ts:137-139 | the listing is empty iff there are no errors, and otherwise opens with the first error's entry |
| GeminiService.SummaryLineShape | src/assets/services/geminiService.ts:91 | a summary line opens with `- 行 ` and the 1-based row without a leading zero, and ends with the correct value in brackets |
| GeminiService.DetailEntryShape | src/assets/services/geminiService.ts:138 | an entry opens with `{ row: ` and the 1-based row without a leading zero, and ends with the quoted correct value |
| GeminiService.ErrorSummaryLines | src/assets/services/geminiService.ts:90-92 | the summary has min(errors, 5) lines, the first errors in order, with 1-based rows |
| GeminiService.ErrorDetailsLines | src/assets/services/geminiService.ts:137-139 | the detail list has one line per error, in order, each but the last ending in a comma, with 1-based rows |
| Text.Trim | App.tsx:106 | the trimmed text has no whitespace at either end and is no longer than the input |
| Text.TrimSplit | App.tsx:106 | the input is a whitespace prefix, then the trimmed text, then a whitespace suffix |
| Text.TrimIgnoresPadding | App.tsx:106 | whitespace added at either end does not change the trimmed value |
| Text.Join | src/assets/components/IuputTable.tsx:77-80 | a single piece joins to itself |
| Text.JoinHead | src/assets/components/IuputTable.tsx:77-80 | no pieces join to ""; otherwise the join opens with the first piece |
| Text.Split | src/assets/components/Results.tsx:75 | a split always yields at least one piece |
| Text.SplitPair | src/assets/components/Timer.tsx:11 | two separator-free pieces around one separator split back into exactly those pieces |
| Text.SplitJoin | src/assets/components/IuputTable.tsx:77-80 | splitting a join of separator-free pieces on the separator gives the pieces back |
| Text.StripBold | src/assets/components/Results.tsx:41 | removing `**` never lengthens the text |
| Text.StripBoldMarker | src/assets/components/Results.tsx:41 | star-free text before a `**` is kept as it is, the marker is dropped, and removal goes on after it |
| Text.StripBoldHeading | src/assets/components/Results.tsx:41 | a star-free heading `**H**` becomes `H` |
| Text.StripBoldRemovesAll | src/assets/components/Results.tsx:41 | no `**` survives the global removal |
| Text.StripBoldKeepsPlain | src/assets/components/Results.tsx:41 | a text without `**` is left as it is |
| Text.Substring | src/assets/components/Results.tsx:82 | for ordered in-range indices it is the slice, and never longer than the text |
| Text.NatToString | src/assets/components/Timer.tsx:11 | at least one digit and only digits; one digit iff below 10, two from 10 to 99; no leading zero |
| Text.PadStart | src/assets/components/Timer.tsx:11 | the padded text has the width, or the original length if longer; it ends with the original and the added characters are all the fill |
| Text.PaddedNumberParses | src/assets/components/Timer.tsx:11 | a zero-padded number is all digits and reads back as the number |

## Left out

- I/O is not modelled: `navigator.clipboard`, the `setTimeout` label resets of the copy buttons, and `console.error` calls. `handleCopy` of both components is modelled up to the text it would write.
- The generative-model SDK, `JSON.parse` and the prompt wording are not modelled. A call is a parameter that either answers or fails. The problem JSON arrives already parsed, with each of the four fields possibly missing.
- `toFixed(2)`, `Date`, `toISOString`, `toLocaleString` and `toLocaleTimeString` are locale and floating-point formatting. The timestamp, the date text and the two-decimal accuracy text are parameters. `accuracy` itself is an exact `real`.
- `Text.IsSpace`: it lists ECMAScript's white space and line terminators, with the space separators (category Zs) as of Unicode 15; an engine built on another Unicode version may differ.
- React scheduling and promises are not modelled. The two enrichment replies are two independent updates, applied in either order, each to whatever result is current when it lands; they are not bound to the result they were started for, as in the code. `setInterval`/`clearInterval` become a set of live interval ids and a `Tick` method.
- The unmount cleanup effect (App.tsx:55-59) is a call of `stopTimer`, which is modelled.
- Presentational state is not modelled: `showGuide`, `showTimer`, `isSourceVisible`, the copy-button labels and all JSX layout. `handleReset` setting `isSourceVisible` is therefore not in `Session.Session.HandleReset`.
- Session.Session.HandleGenerateProblem: it requires the selecting screen. The selector button is disabled while a problem is generating, so a second generation can only start from selecting; the transient generating screen is not observable without concurrency.
- Session.Session.HandleGrade: the grade button is disabled while the timer is not running (App.tsx:208). The method does not require this, because the handler itself does not check it.
- InputTable.HandleKeyDown: the DOM lookup of the next input is modelled by the sheet rendering an input at every in-range cell, and focusing it selects its text; the modelled caret is `selectionStart`.
- The navigation and copy of the input sheet assume the rendered rows are the grid rows.

## Behaviour worth knowing

- The enrichment updaters patch the current result, whatever it is: `prev ? { ...prev, field } : null`. A late reply after reset finds `null` and leaves it so; a late reply after a new grading lands on the newer result.
- A reply that trims to the empty string is stored as `""`, which is falsy, so its panel stays pending and its report section is dropped (`Session.PanelsAfterEnrichment`).
- Problem validation uses truthiness: an empty `templateHeaders` or `sourceData` array is accepted, while an empty `instructions` or `displayData` string is rejected.
- `handleGrade` does not clear `isTimerRunning`; only `handleReset` does.
- `handleDataChange` with a row index past the end lengthens the array, leaving holes; grading reads them as "" (`userInput[rowIndex]?.[header]`). A later `[...prev]` turns the holes into `undefined` entries, on which the sheet render and `handleCopy` (`row[header]`, IuputTable.tsx:79 and :122) would throw; the model exports them as empty rows instead. The case does not arise, because the sheet only passes in-range row indices.
