/** The input sheet: spreadsheet-style keyboard navigation between cells
    (`handleKeyDown`) and the tab-separated copy of the grid (`handleCopy`). */
module InputTable {
  import opened Types
  import opened Text

  /** The keys the handler distinguishes; every other key is `OtherKey`. */
  datatype Key = Enter | ArrowDown | ArrowUp | ArrowRight | ArrowLeft | OtherKey

  datatype Cell = Cell(row: nat, col: nat)

  /** The key code browsers report for a keystroke that belongs to an IME composition. */
  const ImeKeyCode: int := 229

  /** Whether a key moves the focus: vertical keys always, horizontal keys only
      with the caret at the matching end of the text. */
  predicate Fires(key: Key, caret: nat, textLength: nat)
  {
    match key
    case Enter => true
    case ArrowDown => true
    case ArrowUp => true
    case ArrowRight => caret == textLength
    case ArrowLeft => caret == 0
    case OtherKey => false
  }

  /** The move of a firing key, in cells of reading order. */
  function Step(key: Key, cols: nat): int
  {
    match key
    case Enter => cols
    case ArrowDown => cols
    case ArrowUp => -(cols as int)
    case ArrowRight => 1
    case ArrowLeft => -1
    case OtherKey => 0
  }

  /** The cell at position `t` of the grid read row by row, if there is one. */
  function CellAt(t: int, rows: nat, cols: nat): (c: Option<Cell>)
    ensures c.Some? ==> c.value.row < rows && c.value.col < cols
  {
    if cols > 0 && 0 <= t < rows * cols then
      LinearBound(t, rows, cols);
      Some(Cell(t / cols, t % cols))
    else None
  }

  lemma LinearBound(t: int, rows: nat, cols: nat)
    requires cols > 0 && 0 <= t < rows * cols
    ensures t / cols < rows
  {
    var q := t / cols;
    assert q * cols <= t;
    MulSign(q - rows + 1, cols);
    assert (q - rows) * cols < 0;
  }

  lemma MulSign(k: int, n: nat)
    ensures k >= 1 ==> k * n >= n
    ensures k <= -1 ==> k * n <= -(n as int)
  {
    if k >= 1 { assert k * n == (k - 1) * n + n; }
    if k <= -1 { assert k * n == (k + 1) * n - n; }
  }

  lemma MulZero(k: int, n: int)
    requires n > 0 && -n < k * n < n
    ensures k == 0
  {
    MulSign(k, n);
  }

  lemma MulStep(a: int, n: int)
    ensures (a + 1) * n == a * n + n && (a - 1) * n == a * n - n
  {
  }

  /** Position `q * cols + r` of reading order is cell (q, r), when q is a row. */
  lemma CellAtRowCol(q: int, r: int, rows: nat, cols: nat)
    requires 0 <= r < cols
    ensures CellAt(q * cols + r, rows, cols) == if 0 <= q < rows then Some(Cell(q, r)) else None
  {
    var t := q * cols + r;
    if q < 0 {
      MulSign(q, cols);
      assert t < 0;
    } else if q >= rows {
      MulNonneg(q - rows, cols);
      MulSub(q, rows, cols);
      assert t >= rows * cols;
    } else {
      MulNonneg(q, cols);
      MulNonneg(rows - q - 1, cols);
      MulSub(rows - 1, q, cols);
      MulSub(rows, 1, cols);
      assert t < rows * cols;
      DivModOf(q, r, cols);
    }
  }

  lemma MulNonneg(a: int, n: nat)
    requires a >= 0
    ensures a * n >= 0
  {
  }

  lemma MulSub(a: int, b: int, n: int)
    ensures (a - b) * n == a * n - b * n
  {
  }

  lemma DivModOf(q: nat, r: nat, n: nat)
    requires r < n
    ensures (q * n + r) / n == q && (q * n + r) % n == r
  {
    var t := q * n + r;
    var q', r' := t / n, t % n;
    assert (q' - q) * n == r - r';
    MulZero(q' - q, n);
  }

  /** `handleKeyDown` on the input at (rowIndex, colIndex) of a `rows` x `cols`
      sheet.  A composing keystroke is left alone.  A key that fires is consumed
      (its default action prevented) and moves to the cell `Step` positions away
      in reading order, so that moving right past the last column lands on the
      next row's first cell and left past the first column on the previous row's
      last cell; past the first or last cell nothing moves.  A horizontal arrow
      with the caret inside the text, or any other key, is neither consumed nor
      moves.  A produced focus is where the handler focuses and selects. */
  method HandleKeyDown(key: Key, isComposing: bool, keyCode: int, selectionStart: nat, textLength: nat,
                       rowIndex: nat, colIndex: nat, rows: nat, cols: nat)
    returns (focus: Option<Cell>, consumed: bool)
    requires rowIndex < rows && colIndex < cols
    ensures isComposing || keyCode == ImeKeyCode ==> focus == None && !consumed
    ensures !(isComposing || keyCode == ImeKeyCode) ==>
      && consumed == Fires(key, selectionStart, textLength)
      && focus == if consumed then CellAt(rowIndex * cols + colIndex + Step(key, cols), rows, cols) else None
    ensures focus.Some? ==> focus.value.row < rows && focus.value.col < cols
  {
    if isComposing || keyCode == ImeKeyCode {
      return None, false;
    }
    var nextRow: int := rowIndex;
    var nextCol: int := colIndex;
    var shouldMove := true;
    ghost var target := rowIndex * cols + colIndex + Step(key, cols);
    MulStep(rowIndex, cols);
    match key {
      case Enter =>
        nextRow := nextRow + 1;
      case ArrowDown =>
        nextRow := nextRow + 1;
      case ArrowUp =>
        nextRow := nextRow - 1;
      case ArrowRight =>
        if selectionStart == textLength {
          nextCol := nextCol + 1;
        } else {
          shouldMove := false;
        }
      case ArrowLeft =>
        if selectionStart == 0 {
          nextCol := nextCol - 1;
        } else {
          shouldMove := false;
        }
      case OtherKey =>
        shouldMove := false;
    }
    assert shouldMove ==> nextRow * cols + nextCol == target;
    focus, consumed := None, false;
    if shouldMove {
      consumed := true;
      if nextCol >= cols {
        MulStep(nextRow, cols);
        nextCol := 0;
        nextRow := nextRow + 1;
      }
      if nextCol < 0 {
        MulStep(nextRow, cols);
        nextCol := cols - 1;
        nextRow := nextRow - 1;
      }
      assert nextRow * cols + nextCol == target;
      CellAtRowCol(nextRow, nextCol, rows, cols);
      if 0 <= nextRow < rows {
        // The sheet renders an input at every (row, column) in range.
        if 0 <= nextCol < cols {
          focus := Some(Cell(nextRow, nextCol));
        }
      }
    }
  }

  /** The navigation cases of a 3-row, 2-column sheet, from the handler's contract alone. */
  method NavigationExamples()
  {
    var focus, consumed := HandleKeyDown(ArrowUp, false, 0, 0, 0, 0, 0, 3, 2);
    assert focus == None && consumed;
    focus, consumed := HandleKeyDown(ArrowDown, false, 0, 0, 0, 2, 1, 3, 2);
    assert focus == None && consumed;
    focus, consumed := HandleKeyDown(Enter, false, 0, 0, 0, 2, 1, 3, 2);
    assert focus == None && consumed;
    focus, consumed := HandleKeyDown(ArrowRight, false, 0, 3, 3, 0, 1, 3, 2);
    CellAtRowCol(1, 0, 3, 2);
    assert focus == Some(Cell(1, 0)) && consumed;
    focus, consumed := HandleKeyDown(ArrowLeft, false, 0, 0, 3, 1, 0, 3, 2);
    CellAtRowCol(0, 1, 3, 2);
    assert focus == Some(Cell(0, 1)) && consumed;
    focus, consumed := HandleKeyDown(ArrowLeft, false, 0, 1, 3, 1, 0, 3, 2);
    assert focus == None && !consumed;
    focus, consumed := HandleKeyDown(Enter, true, 229, 0, 0, 0, 0, 3, 2);
    assert focus == None && !consumed;
  }

  /** `row[header] || ''`: a missing (or empty) value is exported as empty. */
  function ExportValue(row: Row, header: string): (v: string)
    ensures v == "" <==> header !in row || row[header] == ""
    ensures v != "" ==> header in row && v == row[header]
  {
    if header in row then row[header] else ""
  }

  /** The values of `row` in header order. */
  function RowValues(row: Row, headers: seq<string>): (vs: seq<string>)
    ensures |vs| == |headers|
    ensures forall i :: 0 <= i < |headers| ==> vs[i] == ExportValue(row, headers[i])
  {
    if headers == [] then [] else [ExportValue(row, headers[0])] + RowValues(row, headers[1..])
  }

  function RowLines(grid: Grid, headers: seq<string>): (ls: seq<string>)
    ensures |ls| == |grid|
    ensures forall i :: 0 <= i < |grid| ==> ls[i] == Join(RowValues(grid[i], headers), "\t")
  {
    if grid == [] then [] else [Join(RowValues(grid[0], headers), "\t")] + RowLines(grid[1..], headers)
  }

  /** The text `handleCopy` puts on the clipboard: the header line, then one line per row. */
  function Tsv(headers: seq<string>, grid: Grid): (text: string)
    ensures Join(headers, "\t") <= text
    ensures grid == [] ==> text == Join(headers, "\t")
  {
    JoinHead([Join(headers, "\t")] + RowLines(grid, headers), "\n");
    Join([Join(headers, "\t")] + RowLines(grid, headers), "\n")
  }

  /** No header or value holds a tab or a line break. */
  predicate PlainCells(headers: seq<string>, grid: Grid)
  {
    && NoneContain(headers, '\t') && NoneContain(headers, '\n')
    && forall r, h :: 0 <= r < |grid| && h in grid[r] ==> '\t' !in grid[r][h] && '\n' !in grid[r][h]
  }

  function SplitAll(lines: seq<string>, c: char): (cells: seq<seq<string>>)
    ensures |cells| == |lines|
    ensures forall i :: 0 <= i < |lines| ==> cells[i] == Split(lines[i], c)
  {
    if lines == [] then [] else [Split(lines[0], c)] + SplitAll(lines[1..], c)
  }

  /** Reading the exported text back, line by line and tab by tab. */
  function ParseTsv(text: string): seq<seq<string>>
  {
    SplitAll(Split(text, '\n'), '\t')
  }

  /** The values of every row, in row order. */
  function Table(grid: Grid, headers: seq<string>): (t: seq<seq<string>>)
    ensures |t| == |grid|
    ensures forall i :: 0 <= i < |grid| ==> t[i] == RowValues(grid[i], headers)
  {
    if grid == [] then [] else [RowValues(grid[0], headers)] + Table(grid[1..], headers)
  }

  lemma RowValuesPlain(headers: seq<string>, grid: Grid, r: nat)
    requires PlainCells(headers, grid) && r < |grid|
    ensures NoneContain(RowValues(grid[r], headers), '\t')
    ensures NoneContain(RowValues(grid[r], headers), '\n')
  {
  }

  /** The exported text splits into exactly its header line and row lines. */
  lemma TsvLines(headers: seq<string>, grid: Grid)
    requires PlainCells(headers, grid)
    ensures Split(Tsv(headers, grid), '\n') == [Join(headers, "\t")] + RowLines(grid, headers)
  {
    var lines := [Join(headers, "\t")] + RowLines(grid, headers);
    forall i | 0 <= i < |lines| ensures '\n' !in lines[i] {
      if i == 0 {
        JoinChars(headers, "\t", '\n');
      } else {
        RowValuesPlain(headers, grid, i - 1);
        JoinChars(RowValues(grid[i - 1], headers), "\t", '\n');
      }
    }
    SplitJoin(lines, '\n');
  }

  /** The export has one line per row plus the header line; line 0 holds the
      headers and line r + 1 the values of row r in header order (a missing value
      as empty), each line split on tabs giving back exactly those fields. */
  lemma TsvRoundTrip(headers: seq<string>, grid: Grid)
    requires |headers| >= 1 && PlainCells(headers, grid)
    ensures |Split(Tsv(headers, grid), '\n')| == |grid| + 1
    ensures ParseTsv(Tsv(headers, grid)) == [headers] + Table(grid, headers)
  {
    TsvLines(headers, grid);
    var lines := [Join(headers, "\t")] + RowLines(grid, headers);
    var parsed := ParseTsv(Tsv(headers, grid));
    var expected := [headers] + Table(grid, headers);
    SplitJoin(headers, '\t');
    forall i | 0 <= i < |lines| ensures parsed[i] == expected[i] {
      if i > 0 {
        RowValuesPlain(headers, grid, i - 1);
        SplitJoin(RowValues(grid[i - 1], headers), '\t');
      }
    }
  }

  /** Every line of a tab-free export holds exactly `|headers| - 1` tabs. */
  lemma TsvTabCount(headers: seq<string>, grid: Grid, i: nat)
    requires |headers| >= 1 && PlainCells(headers, grid) && i <= |grid|
    ensures |Split(Tsv(headers, grid), '\n')| == |grid| + 1
    ensures Count(Split(Tsv(headers, grid), '\n')[i], '\t') == |headers| - 1
  {
    TsvRoundTrip(headers, grid);
    var line := Split(Tsv(headers, grid), '\n')[i];
    SplitSize(line, '\t');
    assert ParseTsv(Tsv(headers, grid))[i] == Split(line, '\t');
  }
}
