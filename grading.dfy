/** The grading engine of the trainer (`handleGrade`): the user's grid is compared
    with the ground truth cell by cell, in row-major order. */
module Grading {
  import opened Types
  import opened Text

  /** `userInput[rowIndex]?.[header] ?? ''`: a missing row or key reads as empty. */
  function UserValue(grid: Grid, r: nat, header: string): (v: string)
    ensures r >= |grid| ==> v == ""
    ensures r < |grid| && header !in grid[r] ==> v == ""
    ensures r < |grid| && header in grid[r] ==> v == grid[r][header]
    ensures v != "" ==> r < |grid| && header in grid[r] && v == grid[r][header]
  {
    if r < |grid| && header in grid[r] then grid[r][header] else ""
  }

  /** `correctRow[colIndex] ?? ''`: a short ground-truth row reads as empty. */
  function CorrectValue(row: seq<string>, c: nat): (v: string)
    ensures c >= |row| ==> v == ""
    ensures c < |row| ==> v == row[c]
  {
    if c < |row| then row[c] else ""
  }

  /** A cell is correct when both values agree once trimmed. */
  predicate CellMatches(correct: string, user: string)
  {
    Trim(correct) == Trim(user)
  }

  /** Equal raw values always match, and values without surrounding
      whitespace match exactly when they are equal. */
  lemma CellMatchesExact(correct: string, user: string)
    ensures correct == user ==> CellMatches(correct, user)
    ensures Tight(correct) && Tight(user) ==> (CellMatches(correct, user) <==> correct == user)
  {
    if Tight(correct) && Tight(user) {
      TrimOfTight(correct);
      TrimOfTight(user);
    }
  }

  predicate InShape(p: ProblemSet, r: nat, c: nat)
  {
    r < |p.sourceData| && c < |p.templateHeaders|
  }

  predicate Mismatch(p: ProblemSet, grid: Grid, r: nat, c: nat)
    requires InShape(p, r, c)
  {
    !CellMatches(CorrectValue(p.sourceData[r], c), UserValue(grid, r, p.templateHeaders[c]))
  }

  /** The error recorded for cell (r, c): raw, untrimmed values. */
  function ErrorAt(p: ProblemSet, grid: Grid, r: nat, c: nat): CellError
    requires InShape(p, r, c)
  {
    var h := p.templateHeaders[c];
    CellError(r, c, h, UserValue(grid, r, h), CorrectValue(p.sourceData[r], c))
  }

  /** The errors of row `r` among its first `n` headers, in header order. */
  function RowErrors(p: ProblemSet, grid: Grid, r: nat, n: nat): (es: seq<CellError>)
    requires r < |p.sourceData| && n <= |p.templateHeaders|
    ensures |es| <= n
  {
    if n == 0 then []
    else RowErrors(p, grid, r, n - 1) + (if Mismatch(p, grid, r, n - 1) then [ErrorAt(p, grid, r, n - 1)] else [])
  }

  /** The errors of the first `m` rows, row after row. */
  function ErrorsBefore(p: ProblemSet, grid: Grid, m: nat): (es: seq<CellError>)
    requires m <= |p.sourceData|
  {
    if m == 0 then []
    else ErrorsBefore(p, grid, m - 1) + RowErrors(p, grid, m - 1, |p.templateHeaders|)
  }

  /** Every mismatching cell of the problem, in row-major order. */
  function Mismatches(p: ProblemSet, grid: Grid): (es: seq<CellError>)
    ensures |es| <= |p.sourceData| * |p.templateHeaders|
  {
    ErrorsBeforeSize(p, grid, |p.sourceData|);
    ErrorsBefore(p, grid, |p.sourceData|)
  }

  /** The first `m` rows hold at most one error per cell. */
  lemma {:induction false} ErrorsBeforeSize(p: ProblemSet, grid: Grid, m: nat)
    requires m <= |p.sourceData|
    ensures |ErrorsBefore(p, grid, m)| <= m * |p.templateHeaders|
  {
    if m > 0 {
      ErrorsBeforeSize(p, grid, m - 1);
      assert (m - 1) * |p.templateHeaders| + |p.templateHeaders| == m * |p.templateHeaders|;
    }
  }

  /** `totalEntries > 0 ? correctEntries / totalEntries * 100 : 100`, exactly. */
  function Accuracy(correct: nat, total: nat): (a: real)
    ensures correct <= total ==> 0.0 <= a <= 100.0
    ensures total == 0 ==> a == 100.0
    ensures 0 < total && correct == total ==> a == 100.0
    ensures 0 < total && correct == 0 ==> a == 0.0
  {
    if total > 0 then (correct as real / total as real) * 100.0 else 100.0
  }

  /** The inner `forEach` of `handleGrade` over the headers of row `r`: the
      row's mismatches in header order, and how many of its cells are correct. */
  method GradeRow(p: ProblemSet, grid: Grid, r: nat) returns (rowErrors: seq<CellError>, correct: nat)
    requires r < |p.sourceData|
    ensures rowErrors == RowErrors(p, grid, r, |p.templateHeaders|)
    ensures correct + |rowErrors| == |p.templateHeaders|
  {
    var headers := p.templateHeaders;
    rowErrors, correct := [], 0;
    var c := 0;
    while c < |headers|
      invariant 0 <= c <= |headers|
      invariant rowErrors == RowErrors(p, grid, r, c)
      invariant correct + |rowErrors| == c
    {
      var correctValue := CorrectValue(p.sourceData[r], c);
      var userValue := UserValue(grid, r, headers[c]);
      if CellMatches(correctValue, userValue) {
        correct := correct + 1;
      } else {
        rowErrors := rowErrors + [CellError(r, c, headers[c], userValue, correctValue)];
      }
      c := c + 1;
    }
  }

  /** The grading of `handleGrade`: the result holds every mismatching cell in
      row-major order, and every other cell is counted as correct. */
  method Grade(p: ProblemSet, grid: Grid, time: nat, timestamp: string) returns (result: GradingResult)
    ensures result.errors == Mismatches(p, grid)
    ensures result.totalEntries == |p.sourceData| * |p.templateHeaders|
    ensures result.correctEntries + |result.errors| == result.totalEntries
    ensures result.accuracy == Accuracy(result.correctEntries, result.totalEntries)
    ensures result.time == time && result.timestamp == timestamp
    ensures result.aiFeedback == None && result.mistakeAnalysis == None
  {
    var n := |p.templateHeaders|;
    var errors: seq<CellError> := [];
    var correct: nat := 0;
    var total := |p.sourceData| * n;
    var r := 0;
    while r < |p.sourceData|
      invariant 0 <= r <= |p.sourceData|
      invariant errors == ErrorsBefore(p, grid, r)
      invariant correct + |errors| == r * n
    {
      var rowErrors, rowCorrect := GradeRow(p, grid, r);
      errors := errors + rowErrors;
      correct := correct + rowCorrect;
      assert r * n + n == (r + 1) * n;
      r := r + 1;
    }
    var accuracy := if total > 0 then (correct as real / total as real) * 100.0 else 100.0;
    result := GradingResult(accuracy, time, errors, total, correct, None, None, timestamp);
  }

  /** Row-major order: earlier row first, then earlier column. */
  predicate Precedes(a: CellError, b: CellError)
  {
    a.rowIndex < b.rowIndex || (a.rowIndex == b.rowIndex && a.colIndex < b.colIndex)
  }

  predicate RowMajor(es: seq<CellError>)
  {
    forall i, j :: 0 <= i < j < |es| ==> Precedes(es[i], es[j])
  }

  /** An error that `handleGrade` records: a mismatching cell holding its raw values. */
  predicate Recorded(p: ProblemSet, grid: Grid, e: CellError)
  {
    InShape(p, e.rowIndex, e.colIndex) && Mismatch(p, grid, e.rowIndex, e.colIndex)
    && e == ErrorAt(p, grid, e.rowIndex, e.colIndex)
  }

  /** What each recorded error of row `r` is. */
  lemma {:induction false} RowErrorsElems(p: ProblemSet, grid: Grid, r: nat, n: nat)
    requires r < |p.sourceData| && n <= |p.templateHeaders|
    ensures forall i :: 0 <= i < |RowErrors(p, grid, r, n)| ==>
      RowErrors(p, grid, r, n)[i].rowIndex == r && RowErrors(p, grid, r, n)[i].colIndex < n
      && Recorded(p, grid, RowErrors(p, grid, r, n)[i])
  {
    if n > 0 {
      RowErrorsElems(p, grid, r, n - 1);
      var prev := RowErrors(p, grid, r, n - 1);
      var es := RowErrors(p, grid, r, n);
      if Mismatch(p, grid, r, n - 1) {
        var e := ErrorAt(p, grid, r, n - 1);
        assert es == prev + [e];
        assert e.rowIndex == r && e.colIndex == n - 1;
        assert Recorded(p, grid, e);
        forall i | 0 <= i < |es| ensures es[i].rowIndex == r && es[i].colIndex < n && Recorded(p, grid, es[i]) {
          if i < |prev| { assert es[i] == prev[i]; }
        }
      } else {
        assert es == prev;
      }
    }
  }

  /** Where the errors of row `r` sit: in that row, among its first `n` columns. */
  lemma {:induction false} RowErrorsPositions(p: ProblemSet, grid: Grid, r: nat, n: nat)
    requires r < |p.sourceData| && n <= |p.templateHeaders|
    ensures forall i :: 0 <= i < |RowErrors(p, grid, r, n)| ==>
      RowErrors(p, grid, r, n)[i].rowIndex == r && RowErrors(p, grid, r, n)[i].colIndex < n
  {
    if n > 0 {
      RowErrorsPositions(p, grid, r, n - 1);
    }
  }

  lemma {:induction false} ErrorsBeforeRows(p: ProblemSet, grid: Grid, m: nat)
    requires m <= |p.sourceData|
    ensures forall i :: 0 <= i < |ErrorsBefore(p, grid, m)| ==> ErrorsBefore(p, grid, m)[i].rowIndex < m
  {
    if m > 0 {
      var prev := ErrorsBefore(p, grid, m - 1);
      var row := RowErrors(p, grid, m - 1, |p.templateHeaders|);
      ErrorsBeforeRows(p, grid, m - 1);
      RowErrorsPositions(p, grid, m - 1, |p.templateHeaders|);
      var es := prev + row;
      assert ErrorsBefore(p, grid, m) == es;
      forall i | 0 <= i < |es| ensures es[i].rowIndex < m {
        if i < |prev| { assert es[i] == prev[i]; } else { assert es[i] == row[i - |prev|]; }
      }
    }
  }

  /** The errors of a row come in header order. */
  lemma {:induction false} RowErrorsOrdered(p: ProblemSet, grid: Grid, r: nat, n: nat)
    requires r < |p.sourceData| && n <= |p.templateHeaders|
    ensures RowMajor(RowErrors(p, grid, r, n))
  {
    if n > 0 {
      var prev := RowErrors(p, grid, r, n - 1);
      RowErrorsOrdered(p, grid, r, n - 1);
      RowErrorsPositions(p, grid, r, n - 1);
      if Mismatch(p, grid, r, n - 1) {
        var es := prev + [ErrorAt(p, grid, r, n - 1)];
        assert RowErrors(p, grid, r, n) == es;
        forall i, j | 0 <= i < j < |es| ensures Precedes(es[i], es[j]) {
          if j < |prev| {
            assert Precedes(prev[i], prev[j]);
          } else {
            assert es[i] == prev[i] && prev[i].colIndex < n - 1;
          }
        }
      } else {
        assert RowErrors(p, grid, r, n) == prev;
      }
    }
  }

  /** Every mismatching cell among the first `n` headers of row `r` is recorded. */
  lemma {:induction false} RowErrorsComplete(p: ProblemSet, grid: Grid, r: nat, n: nat, c: nat)
    requires r < |p.sourceData| && c < n <= |p.templateHeaders|
    requires Mismatch(p, grid, r, c)
    ensures ErrorAt(p, grid, r, c) in RowErrors(p, grid, r, n)
  {
    var prev := RowErrors(p, grid, r, n - 1);
    if c < n - 1 {
      RowErrorsComplete(p, grid, r, n - 1, c);
      assert ErrorAt(p, grid, r, c) in prev;
    } else {
      assert RowErrors(p, grid, r, n) == prev + [ErrorAt(p, grid, r, c)];
    }
  }

  lemma {:induction false} ErrorsBeforeElems(p: ProblemSet, grid: Grid, m: nat)
    requires m <= |p.sourceData|
    ensures forall i :: 0 <= i < |ErrorsBefore(p, grid, m)| ==>
      ErrorsBefore(p, grid, m)[i].rowIndex < m && Recorded(p, grid, ErrorsBefore(p, grid, m)[i])
  {
    if m > 0 {
      var prev := ErrorsBefore(p, grid, m - 1);
      var row := RowErrors(p, grid, m - 1, |p.templateHeaders|);
      ErrorsBeforeElems(p, grid, m - 1);
      RowErrorsElems(p, grid, m - 1, |p.templateHeaders|);
      var es := prev + row;
      assert ErrorsBefore(p, grid, m) == es;
      forall i | 0 <= i < |es| ensures es[i].rowIndex < m && Recorded(p, grid, es[i]) {
        if i < |prev| { assert es[i] == prev[i]; } else { assert es[i] == row[i - |prev|]; }
      }
    }
  }

  /** Errors of earlier rows followed by errors of row `k`, each list in order, are in order. */
  lemma ConcatRowMajor(a: seq<CellError>, b: seq<CellError>, k: nat)
    requires RowMajor(a) && RowMajor(b)
    requires forall i :: 0 <= i < |a| ==> a[i].rowIndex < k
    requires forall j :: 0 <= j < |b| ==> b[j].rowIndex == k
    ensures RowMajor(a + b)
  {
    var es := a + b;
    forall i, j | 0 <= i < j < |es| ensures Precedes(es[i], es[j]) {
      if j < |a| {
        assert Precedes(a[i], a[j]);
      } else if i >= |a| {
        assert Precedes(b[i - |a|], b[j - |a|]);
      } else {
        assert es[i] == a[i] && es[j] == b[j - |a|];
      }
    }
  }

  lemma {:induction false} ErrorsBeforeOrdered(p: ProblemSet, grid: Grid, m: nat)
    requires m <= |p.sourceData|
    ensures RowMajor(ErrorsBefore(p, grid, m))
  {
    if m > 0 {
      ErrorsBeforeOrdered(p, grid, m - 1);
      ErrorsBeforeExtendOrdered(p, grid, m);
    }
  }

  /** Appending row `m - 1`'s errors to those of the earlier rows keeps the order. */
  lemma ErrorsBeforeExtendOrdered(p: ProblemSet, grid: Grid, m: nat)
    requires 0 < m <= |p.sourceData| && RowMajor(ErrorsBefore(p, grid, m - 1))
    ensures RowMajor(ErrorsBefore(p, grid, m))
  {
    var prev := ErrorsBefore(p, grid, m - 1);
    var row := RowErrors(p, grid, m - 1, |p.templateHeaders|);
    ErrorsBeforeRows(p, grid, m - 1);
    RowErrorsPositions(p, grid, m - 1, |p.templateHeaders|);
    RowErrorsOrdered(p, grid, m - 1, |p.templateHeaders|);
    ConcatRowMajor(prev, row, m - 1);
    ErrorsBeforeStep(p, grid, m);
  }

  /** The errors of `m` rows are those of the first `m - 1` rows, then row `m - 1`'s. */
  lemma ErrorsBeforeStep(p: ProblemSet, grid: Grid, m: nat)
    requires 0 < m <= |p.sourceData|
    ensures ErrorsBefore(p, grid, m) == ErrorsBefore(p, grid, m - 1) + RowErrors(p, grid, m - 1, |p.templateHeaders|)
  {
  }

  /** Soundness and order: each reported error is a mismatching cell with its raw
      values, and the errors are in row-major, then header, order. */
  lemma MismatchesSound(p: ProblemSet, grid: Grid)
    ensures var es := Mismatches(p, grid);
      && RowMajor(es)
      && forall i :: 0 <= i < |es| ==>
           InShape(p, es[i].rowIndex, es[i].colIndex)
           && es[i].header == p.templateHeaders[es[i].colIndex]
           && Mismatch(p, grid, es[i].rowIndex, es[i].colIndex)
           && es[i] == ErrorAt(p, grid, es[i].rowIndex, es[i].colIndex)
  {
    ErrorsBeforeElems(p, grid, |p.sourceData|);
    ErrorsBeforeOrdered(p, grid, |p.sourceData|);
  }

  /** Completeness: every mismatching cell is reported. */
  lemma {:induction false} MismatchesComplete(p: ProblemSet, grid: Grid, r: nat, c: nat)
    requires InShape(p, r, c) && Mismatch(p, grid, r, c)
    ensures ErrorAt(p, grid, r, c) in Mismatches(p, grid)
  {
    ErrorsBeforeComplete(p, grid, |p.sourceData|, r, c);
  }

  lemma {:induction false} ErrorsBeforeComplete(p: ProblemSet, grid: Grid, m: nat, r: nat, c: nat)
    requires r < m <= |p.sourceData| && c < |p.templateHeaders| && Mismatch(p, grid, r, c)
    ensures ErrorAt(p, grid, r, c) in ErrorsBefore(p, grid, m)
  {
    var e := ErrorAt(p, grid, r, c);
    var prev := ErrorsBefore(p, grid, m - 1);
    var row := RowErrors(p, grid, m - 1, |p.templateHeaders|);
    assert ErrorsBefore(p, grid, m) == prev + row;
    if r < m - 1 {
      ErrorsBeforeComplete(p, grid, m - 1, r, c);
      assert e in prev;
    } else {
      RowErrorsComplete(p, grid, r, |p.templateHeaders|, c);
      assert e in row;
    }
  }

  /** A cell whose typed value differs from the answer only by surrounding
      whitespace is not an error. */
  lemma PaddedAnswerIsCorrect(p: ProblemSet, grid: Grid, r: nat, c: nat, w1: string, w2: string)
    requires InShape(p, r, c) && AllSpace(w1) && AllSpace(w2)
    requires UserValue(grid, r, p.templateHeaders[c]) == w1 + CorrectValue(p.sourceData[r], c) + w2
    ensures !Mismatch(p, grid, r, c)
    ensures ErrorAt(p, grid, r, c) !in Mismatches(p, grid)
  {
    TrimIgnoresPadding(w1, CorrectValue(p.sourceData[r], c), w2);
    MismatchesSound(p, grid);
  }

  /** Records [["A","1"],["B","2"]] under headers Name, Code, with "x" typed for
      the first Code: one error at (0, 1), three correct cells of four, 75%. */
  lemma ScoringExample()
    ensures var p := ProblemSet("", ["Name", "Code"], [["A", "1"], ["B", "2"]], "");
      var grid := [map["Name" := "A", "Code" := "x"], map["Name" := "B", "Code" := "2"]];
      && Mismatches(p, grid) == [CellError(0, 1, "Code", "x", "1")]
      && Accuracy(4 - |Mismatches(p, grid)|, 4) == 75.0
  {
    var p := ProblemSet("", ["Name", "Code"], [["A", "1"], ["B", "2"]], "");
    var grid := [map["Name" := "A", "Code" := "x"], map["Name" := "B", "Code" := "2"]];
    ExampleCells(p, grid);
    assert RowErrors(p, grid, 0, 1) == [];
    assert RowErrors(p, grid, 0, 2) == [CellError(0, 1, "Code", "x", "1")];
    assert RowErrors(p, grid, 1, 1) == [];
    assert RowErrors(p, grid, 1, 2) == [];
    assert ErrorsBefore(p, grid, 1) == [CellError(0, 1, "Code", "x", "1")];
  }

  lemma ExampleCells(p: ProblemSet, grid: Grid)
    requires p == ProblemSet("", ["Name", "Code"], [["A", "1"], ["B", "2"]], "")
    requires grid == [map["Name" := "A", "Code" := "x"], map["Name" := "B", "Code" := "2"]]
    ensures !Mismatch(p, grid, 0, 0) && Mismatch(p, grid, 0, 1)
    ensures !Mismatch(p, grid, 1, 0) && !Mismatch(p, grid, 1, 1)
    ensures ErrorAt(p, grid, 0, 1) == CellError(0, 1, "Code", "x", "1")
  {
    assert UserValue(grid, 0, "Name") == "A" && UserValue(grid, 0, "Code") == "x";
    assert UserValue(grid, 1, "Name") == "B" && UserValue(grid, 1, "Code") == "2";
    TrimOfTight("A"); TrimOfTight("B"); TrimOfTight("1"); TrimOfTight("2"); TrimOfTight("x");
  }
}
