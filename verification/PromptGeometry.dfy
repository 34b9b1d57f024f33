/**
 Visual rows and columns of the prompt buffer: wrapping, wide and zero-width
 characters, and the search from a visual position back to a byte offset.
 The display width of a character is a parameter.
 */
module PromptGeometry {
  import opened Basics
  import opened Utf8Text

  type Glyphs = char -> nat

  datatype Pos = Pos(row: nat, col: nat)

  /** Reading order. */
  predicate AtMost(p: Pos, q: Pos) {
    p.row < q.row || (p.row == q.row && p.col <= q.col)
  }

  /** The text being edited, the terminal width and the columns the prompt takes. */
  datatype Layout = Layout(text: string, width: nat, promptCols: nat)

  /** A zero-width terminal is treated as one column wide. */
  function Cols(width: nat): (n: nat)
    ensures 0 < n
  {
    if width == 0 then 1 else width
  }

  function InitialPos(l: Layout): Pos {
    Pos(l.promptCols / Cols(l.width), l.promptCols % Cols(l.width))
  }

  function Advance(p: Pos, c: char, width: nat, glyphs: Glyphs): Pos {
    if c == '\n' then Pos(p.row + 1, 0) else
      var cols, w := Cols(width), glyphs(c);
      var wraps := 0 < p.col && cols < p.col + w;
      var row := if wraps then p.row + 1 else p.row;
      var col := (if wraps then 0 else p.col) + w;
      if cols <= col then Pos(row + col / cols, col % cols) else Pos(row, col)
  }

  /** Visual position of the boundary before character `i`. */
  function At(l: Layout, glyphs: Glyphs, i: nat): Pos
    requires i <= |l.text|
  {
    if i == 0 then InitialPos(l) else Advance(At(l, glyphs, i - 1), l.text[i - 1], l.width, glyphs)
  }

  function EndPos(l: Layout, glyphs: Glyphs): Pos {
    At(l, glyphs, |l.text|)
  }

  // ---- The loops of the source ----------------------------------------------

  method AdvanceBufferPosition(row: nat, col: nat, c: char, width: nat, glyphs: Glyphs) returns (r: nat, k: nat)
    ensures Pos(r, k) == Advance(Pos(row, col), c, width, glyphs)
  {
    var cols := Cols(width);
    r, k := row, col;
    if c == '\n' {
      r, k := r + 1, 0;
      return;
    }
    var w := glyphs(c);
    if 0 < k && cols < k + w {
      r, k := r + 1, 0;
    }
    k := k + w;
    if cols <= k {
      r := r + k / cols;
      k := k % cols;
    }
  }

  method BufferPositionForByte(l: Layout, glyphs: Glyphs, bytePos: nat) returns (row: nat, col: nat)
    ensures Pos(row, col) == At(l, glyphs, CharsBefore(l.text, bytePos))
  {
    row, col := l.promptCols / Cols(l.width), l.promptCols % Cols(l.width);
    var i, byte := 0, 0;
    while i < |l.text|
      invariant 0 <= i <= |l.text| && byte == Offset(l.text, i)
      invariant i <= CharsBefore(l.text, bytePos)
      invariant Pos(row, col) == At(l, glyphs, i)
    {
      if bytePos <= byte {
        return;
      }
      row, col := AdvanceBufferPosition(row, col, l.text[i], l.width, glyphs);
      byte := byte + Utf8Len(l.text[i]);
      i := i + 1;
    }
  }

  /** The search ends at this boundary: it is at or past the target, or a
      newline closes the target row here. */
  predicate StopsAt(l: Layout, glyphs: Glyphs, target: Pos, i: nat)
    requires i <= |l.text|
  {
    AtMost(target, At(l, glyphs, i))
    || (i < |l.text| && l.text[i] == '\n' && At(l, glyphs, i).row == target.row)
  }

  /** The first boundary from `i` on at which the search ends, else the end of the text. */
  function SeekFrom(l: Layout, glyphs: Glyphs, target: Pos, i: nat): (n: nat)
    requires i <= |l.text|
    ensures i <= n <= |l.text|
    ensures n == |l.text| || StopsAt(l, glyphs, target, n)
    ensures forall j :: i <= j < n ==> !StopsAt(l, glyphs, target, j)
    decreases |l.text| - i
  {
    if i == |l.text| || StopsAt(l, glyphs, target, i) then i else SeekFrom(l, glyphs, target, i + 1)
  }

  function Seek(l: Layout, glyphs: Glyphs, target: Pos): (n: nat)
    ensures n <= |l.text|
  {
    SeekFrom(l, glyphs, target, 0)
  }

  method ByteOffsetForBufferPosition(l: Layout, glyphs: Glyphs, targetRow: nat, targetCol: nat)
    returns (byte: nat)
    ensures byte == Offset(l.text, Seek(l, glyphs, Pos(targetRow, targetCol)))
  {
    var row, col := l.promptCols / Cols(l.width), l.promptCols % Cols(l.width);
    ghost var target := Pos(targetRow, targetCol);
    var i := 0;
    byte := 0;
    while i < |l.text|
      invariant 0 <= i <= |l.text| && byte == Offset(l.text, i)
      invariant 0 <= row && 0 <= col && Pos(row, col) == At(l, glyphs, i)
      invariant SeekFrom(l, glyphs, target, i) == Seek(l, glyphs, target)
    {
      var c := l.text[i];
      if targetRow < row || (targetRow == row && targetCol <= col) {
        return;
      }
      if c == '\n' {
        if targetRow == row {
          return;
        }
        row, col := AdvanceBufferPosition(row, col, c, l.width, glyphs);
      } else {
        var nextRow, nextCol := AdvanceBufferPosition(row, col, c, l.width, glyphs);
        if targetRow < nextRow || (targetRow == nextRow && targetCol <= nextCol) {
          assert StopsAt(l, glyphs, target, i + 1);
          byte := byte + Utf8Len(c);
          return;
        }
        row, col := nextRow, nextCol;
      }
      byte := byte + Utf8Len(c);
      i := i + 1;
    }
  }

  // ---- Where a character goes -----------------------------------------------

  /** A newline starts the next row. A character that fits stays on its row, and
      the cursor goes behind it, to the next row if it filled this one; one that
      does not fit is put on the next row as a whole. */
  lemma CharacterGoes(p: Pos, c: char, width: nat, glyphs: Glyphs)
    requires p.col < Cols(width) && (c != '\n' ==> glyphs(c) <= Cols(width))
    ensures var cols, w, q := Cols(width), glyphs(c), Advance(p, c, width, glyphs);
      if c == '\n' then q == Pos(p.row + 1, 0)
      else if p.col + w < cols then q == Pos(p.row, p.col + w)
      else if p.col + w == cols then q == Pos(p.row + 1, 0)
      else q == if w < cols then Pos(p.row + 1, w) else Pos(p.row + 2, 0)
  {
  }

  /** Cells of the terminal in reading order. */
  function Cell(p: Pos, cols: nat): nat {
    p.row * cols + p.col
  }

  /** Text of single-column characters fills cell after cell behind the prompt. */
  lemma {:induction false} NarrowTextFills(l: Layout, glyphs: Glyphs, i: nat)
    requires i <= |l.text| && forall k :: 0 <= k < i ==> l.text[k] != '\n' && glyphs(l.text[k]) == 1
    ensures At(l, glyphs, i).col < Cols(l.width)
    ensures Cell(At(l, glyphs, i), Cols(l.width)) == l.promptCols + i
  {
    hide Advance, Cols;
    var cols := Cols(l.width);
    if i == 0 {
      Divided(l.promptCols, cols);
    } else {
      NarrowTextFills(l, glyphs, i - 1);
      var p := At(l, glyphs, i - 1);
      CharacterGoes(p, l.text[i - 1], l.width, glyphs);
      NextRow(p.row, cols);
    }
  }

  lemma Divided(n: nat, d: nat)
    requires 0 < d
    ensures n / d * d + n % d == n
  {
  }

  lemma NextRow(row: nat, cols: nat)
    ensures (row + 1) * cols == row * cols + cols
  {
  }

  // ---- Positions move in reading order --------------------------------------

  /** Exactly the characters that show nothing leave the position alone. */
  predicate Invisible(c: char, glyphs: Glyphs) {
    c != '\n' && glyphs(c) == 0
  }

  lemma AdvanceMovesOn(p: Pos, c: char, width: nat, glyphs: Glyphs)
    requires p.col < Cols(width)
    ensures Advance(p, c, width, glyphs).col < Cols(width)
    ensures AtMost(p, Advance(p, c, width, glyphs))
    ensures Advance(p, c, width, glyphs) == p <==> Invisible(c, glyphs)
  {
    var cols, w := Cols(width), glyphs(c);
    if c != '\n' && cols <= p.col + w {
      var col := if 0 < p.col && cols < p.col + w then w else p.col + w;
      if cols <= col {
        assert 1 <= col / cols by {
          assert col == cols * (col / cols) + col % cols;
        }
      }
    }
  }

  lemma {:induction false} PositionsInOrder(l: Layout, glyphs: Glyphs, i: nat, j: nat)
    requires i <= j <= |l.text|
    ensures At(l, glyphs, i).col < Cols(l.width) && At(l, glyphs, j).col < Cols(l.width)
    ensures AtMost(At(l, glyphs, i), At(l, glyphs, j))
    decreases j
  {
    if i < j {
      PositionsInOrder(l, glyphs, i, j - 1);
      AdvanceMovesOn(At(l, glyphs, j - 1), l.text[j - 1], l.width, glyphs);
    } else if 0 < j {
      PositionsInOrder(l, glyphs, j - 1, j - 1);
      AdvanceMovesOn(At(l, glyphs, j - 1), l.text[j - 1], l.width, glyphs);
    }
  }

  /** For every text, width and prompt, positions never step back as the byte
      offset grows, and the column stays inside the terminal. */
  lemma PositionsMonotoneInBytes(l: Layout, glyphs: Glyphs, a: nat, b: nat)
    requires a <= b
    ensures AtMost(At(l, glyphs, CharsBefore(l.text, a)), At(l, glyphs, CharsBefore(l.text, b)))
    ensures At(l, glyphs, CharsBefore(l.text, b)).col < Cols(l.width)
  {
    var m, n := CharsBefore(l.text, a), CharsBefore(l.text, b);
    CharsBeforeMonotone(l.text, a, b);
    PositionsInOrder(l, glyphs, m, n);
  }

  // ---- Position to offset and back ------------------------------------------

  lemma NewlineClosesRow(l: Layout, glyphs: Glyphs, i: nat, j: nat)
    requires i < j <= |l.text| && l.text[i] == '\n'
    ensures At(l, glyphs, i).row < At(l, glyphs, j).row
  {
    PositionsInOrder(l, glyphs, i + 1, j);
  }

  /** Seeking the position of boundary `b` finds the first boundary that looks
      the same, and finds `b` itself unless the character before it is invisible. */
  lemma SeekInvertsAt(l: Layout, glyphs: Glyphs, b: nat)
    requires b <= |l.text|
    ensures var n := Seek(l, glyphs, At(l, glyphs, b));
      && n <= b
      && At(l, glyphs, n) == At(l, glyphs, b)
      && (n == b <==> b == 0 || !Invisible(l.text[b - 1], glyphs))
  {
    var target := At(l, glyphs, b);
    var n := Seek(l, glyphs, target);
    assert StopsAt(l, glyphs, target, b);
    PositionsInOrder(l, glyphs, n, b);
    if n < b && l.text[n] == '\n' {
      NewlineClosesRow(l, glyphs, n, b);
    }
    if 0 < b {
      PositionsInOrder(l, glyphs, b - 1, b);
      AdvanceMovesOn(At(l, glyphs, b - 1), l.text[b - 1], l.width, glyphs);
      if n < b {
        PositionsInOrder(l, glyphs, n, b - 1);
      }
    }
  }

  /** The same in bytes: every boundary survives the trip to a position and
      back when no character is invisible. */
  lemma OffsetRoundTrip(l: Layout, glyphs: Glyphs, b: nat)
    requires IsBoundary(l.text, b)
    ensures var p := At(l, glyphs, CharsBefore(l.text, b));
      var back := Offset(l.text, Seek(l, glyphs, p));
      && IsBoundary(l.text, back) && back <= b
      && At(l, glyphs, CharsBefore(l.text, back)) == p
      && ((forall c :: c in l.text ==> !Invisible(c, glyphs)) ==> back == b)
  {
    BoundaryIndex(l.text, b);
    var i := CharsBefore(l.text, b);
    SeekInvertsAt(l, glyphs, i);
    var n := Seek(l, glyphs, At(l, glyphs, i));
    CharsBeforeBoundary(l.text, n);
    if n < i {
      OffsetIncreases(l.text, n, i);
    }
  }

  // ---- Landing on a row -----------------------------------------------------

  /** Some boundary of row `row` is at or right of `col`, or closes the row with
      a newline or the end of the text. */
  ghost predicate RowReaches(l: Layout, glyphs: Glyphs, row: nat, col: nat) {
    exists j :: 0 <= j <= |l.text| && At(l, glyphs, j).row == row
      && (col <= At(l, glyphs, j).col || j == |l.text| || l.text[j] == '\n')
  }

  lemma {:induction false} LandsWhenRowReaches(l: Layout, glyphs: Glyphs, row: nat, col: nat, j: nat)
    requires j <= |l.text| && At(l, glyphs, j).row == row
    requires col <= At(l, glyphs, j).col || j == |l.text| || l.text[j] == '\n'
    ensures At(l, glyphs, Seek(l, glyphs, Pos(row, col))).row == row
  {
    hide At, SeekFrom;
    var target := Pos(row, col);
    var n := Seek(l, glyphs, target);
    assert n <= j by {
      assert j == |l.text| || StopsAt(l, glyphs, target, j);
    }
    PositionsInOrder(l, glyphs, n, j);
    assert n == |l.text| || StopsAt(l, glyphs, target, n);
  }

  /** The search lands on the target row exactly when that row reaches the
      column or is closed by a newline or the end of the text. */
  lemma LandsOnRowIff(l: Layout, glyphs: Glyphs, row: nat, col: nat)
    ensures At(l, glyphs, Seek(l, glyphs, Pos(row, col))).row == row <==> RowReaches(l, glyphs, row, col)
  {
    if RowReaches(l, glyphs, row, col) {
      var j :| 0 <= j <= |l.text| && At(l, glyphs, j).row == row
            && (col <= At(l, glyphs, j).col || j == |l.text| || l.text[j] == '\n');
      LandsWhenRowReaches(l, glyphs, row, col, j);
    }
  }

  /** A row filled exactly by a wide character has no boundary in its last
      column, and the search for that column lands one row down. */
  lemma WideCharacterMissesRow()
    ensures var l, glyphs: Glyphs := Layout("ab", 4, 0), c => 2;
      At(l, glyphs, Seek(l, glyphs, Pos(0, 3))) == Pos(1, 0)
  {
    var l, glyphs: Glyphs := Layout("ab", 4, 0), c => 2;
    assert At(l, glyphs, 0) == Pos(0, 0);
    assert At(l, glyphs, 1) == Pos(0, 2);
    assert At(l, glyphs, 2) == Pos(1, 0);
    var n := Seek(l, glyphs, Pos(0, 3));
    assert !StopsAt(l, glyphs, Pos(0, 3), 0);
    assert !StopsAt(l, glyphs, Pos(0, 3), 1);
    assert n == 2;
  }

  /** So does a column beyond the terminal, such as a sticky one kept across a
      resize: the row wraps before it is reached. */
  lemma ColumnBeyondTerminalMissesRow(l: Layout, glyphs: Glyphs, row: nat, col: nat)
    requires Cols(l.width) <= col
    ensures At(l, glyphs, Seek(l, glyphs, Pos(row, col))).row == row <==> RowIsClosed(l, glyphs, row)
  {
    LandsOnRowIff(l, glyphs, row, col);
    if RowReaches(l, glyphs, row, col) {
      var j :| 0 <= j <= |l.text| && At(l, glyphs, j).row == row
            && (col <= At(l, glyphs, j).col || j == |l.text| || l.text[j] == '\n');
      PositionsInOrder(l, glyphs, j, j);
    }
    if RowIsClosed(l, glyphs, row) {
      var j :| 0 <= j <= |l.text| && At(l, glyphs, j).row == row && (j == |l.text| || l.text[j] == '\n');
      assert RowReaches(l, glyphs, row, col);
    }
  }

  /** The row ends in a newline or with the text. */
  ghost predicate RowIsClosed(l: Layout, glyphs: Glyphs, row: nat) {
    exists j :: 0 <= j <= |l.text| && At(l, glyphs, j).row == row && (j == |l.text| || l.text[j] == '\n')
  }

  ghost predicate Narrow(l: Layout, glyphs: Glyphs) {
    forall c :: c in l.text ==> glyphs(c) <= 1
  }

  /** `p` is on row `row`, in column `col` clamped to the columns that row has. */
  ghost predicate Clamped(l: Layout, glyphs: Glyphs, p: Pos, row: nat, col: nat) {
    && p.row == row
    && (p.col < col ==> forall j :: 0 <= j <= |l.text| && At(l, glyphs, j).row == row ==> At(l, glyphs, j).col <= p.col)
    && (col < p.col ==> forall j :: 0 <= j <= |l.text| && At(l, glyphs, j).row == row ==> p.col <= At(l, glyphs, j).col)
  }

  /** With narrow characters one step moves one column, or one row to column 0. */
  lemma NarrowStep(l: Layout, glyphs: Glyphs, i: nat)
    requires Narrow(l, glyphs) && i < |l.text|
    ensures var p, q := At(l, glyphs, i), At(l, glyphs, i + 1);
      || (q.row == p.row && q.col <= p.col + 1)
      || (q == Pos(p.row + 1, 0) && (l.text[i] == '\n' || p.col + 1 == Cols(l.width)))
  {
    PositionsInOrder(l, glyphs, i, i);
    assert l.text[i] in l.text;
    var p, cols := At(l, glyphs, i), Cols(l.width);
    if p.col + 1 == cols {
      assert cols / cols == 1 && cols % cols == 0;
    }
  }

  /** With narrow characters, a target between the first and the last row and
      inside the terminal is met on its row, at its column clamped to that row. */
  lemma NarrowLanding(l: Layout, glyphs: Glyphs, row: nat, col: nat)
    requires Narrow(l, glyphs) && col < Cols(l.width)
    requires InitialPos(l).row <= row <= EndPos(l, glyphs).row
    ensures Clamped(l, glyphs, At(l, glyphs, Seek(l, glyphs, Pos(row, col))), row, col)
  {
    var target := Pos(row, col);
    var n := Seek(l, glyphs, target);
    var p := At(l, glyphs, n);
    PositionsInOrder(l, glyphs, n, |l.text|);
    if 0 < n {
      NarrowStep(l, glyphs, n - 1);
      assert !StopsAt(l, glyphs, target, n - 1);
    }
    forall j | 0 <= j <= |l.text| && At(l, glyphs, j).row == row
      ensures p.col < col ==> At(l, glyphs, j).col <= p.col
      ensures col < p.col ==> p.col <= At(l, glyphs, j).col
    {
      if j <= n {
        PositionsInOrder(l, glyphs, j, n);
      } else {
        PositionsInOrder(l, glyphs, n, j);
        if l.text[n] == '\n' {
          NewlineClosesRow(l, glyphs, n, j);
        }
      }
    }
  }

  /** A clamped position is unique among the boundaries. */
  lemma ClampedIsUnique(l: Layout, glyphs: Glyphs, i: nat, j: nat, row: nat, col: nat)
    requires i <= |l.text| && j <= |l.text|
    requires Clamped(l, glyphs, At(l, glyphs, i), row, col)
    requires Clamped(l, glyphs, At(l, glyphs, j), row, col)
    ensures At(l, glyphs, i) == At(l, glyphs, j)
  {
  }

  // ---- Vertical motion ------------------------------------------------------

  /** Cursor (as a byte offset) and sticky column. */
  datatype Caret = Caret(cursor: nat, sticky: Option<nat>)

  function CaretPos(l: Layout, glyphs: Glyphs, cursor: nat): Pos {
    At(l, glyphs, CharsBefore(l.text, cursor))
  }

  /** `vertical_target_col`: the sticky column, captured on first use. */
  function TargetCol(l: Layout, glyphs: Glyphs, caret: Caret): nat {
    match caret.sticky
    case Some(col) => col
    case None => CaretPos(l, glyphs, caret.cursor).col
  }

  /** `move_cursor_vertical`: `None` when the target row is not in the text. */
  function MoveVertical(l: Layout, glyphs: Glyphs, cursor: nat, delta: int, col: nat): Option<nat> {
    var row := CaretPos(l, glyphs, cursor).row + delta;
    if row < 0 || EndPos(l, glyphs).row < row then None
    else Some(Offset(l.text, Seek(l, glyphs, Pos(row, col))))
  }

  /** One Up or Down that stays in the text. */
  function Stride(l: Layout, glyphs: Glyphs, caret: Caret, delta: int): Option<Caret> {
    var col := TargetCol(l, glyphs, caret);
    match MoveVertical(l, glyphs, caret.cursor, delta, col)
    case None => None
    case Some(cursor) => Some(Caret(cursor, Some(col)))
  }

  function Strides(l: Layout, glyphs: Glyphs, caret: Caret, deltas: seq<int>): Option<Caret>
    decreases |deltas|
  {
    if deltas == [] then Some(caret) else
      match Stride(l, glyphs, caret, deltas[0])
      case None => None
      case Some(next) => Strides(l, glyphs, next, deltas[1..])
  }

  function Sum(deltas: seq<int>): int {
    if deltas == [] then 0 else deltas[0] + Sum(deltas[1..])
  }

  /** Every prefix of the moves stays on the rows of the text. The text starts
      on the row the prompt ends on; with a prompt narrower than the terminal
      that is row 0. */
  predicate Within(l: Layout, glyphs: Glyphs, row: int, deltas: seq<int>)
    decreases |deltas|
  {
    deltas == []
    || (InitialPos(l).row <= row + deltas[0] <= EndPos(l, glyphs).row
        && Within(l, glyphs, row + deltas[0], deltas[1..]))
  }

  /** The caret sits on its row at its sticky column, clamped. */
  ghost predicate Settled(l: Layout, glyphs: Glyphs, caret: Caret) {
    var p := CaretPos(l, glyphs, caret.cursor);
    caret.sticky.Some? ==>
      caret.sticky.value < Cols(l.width) && Clamped(l, glyphs, p, p.row, caret.sticky.value)
  }

  /** One move lands on the target row, at the sticky column clamped to it. */
  lemma StrideLands(l: Layout, glyphs: Glyphs, caret: Caret, delta: int)
    requires Narrow(l, glyphs) && Settled(l, glyphs, caret)
    requires InitialPos(l).row <= CaretPos(l, glyphs, caret.cursor).row + delta <= EndPos(l, glyphs).row
    ensures Stride(l, glyphs, caret, delta).Some?
    ensures var row := CaretPos(l, glyphs, caret.cursor).row + delta;
      var next := Stride(l, glyphs, caret, delta).value;
      && Settled(l, glyphs, next)
      && next.sticky == Some(TargetCol(l, glyphs, caret))
      && Clamped(l, glyphs, CaretPos(l, glyphs, next.cursor), row, TargetCol(l, glyphs, caret))
  {
    var row := CaretPos(l, glyphs, caret.cursor).row + delta;
    var col := TargetCol(l, glyphs, caret);
    var i := CharsBefore(l.text, caret.cursor);
    PositionsInOrder(l, glyphs, i, i);
    NarrowLanding(l, glyphs, row, col);
    CharsBeforeBoundary(l.text, Seek(l, glyphs, Pos(row, col)));
  }

  lemma {:induction false} StridesLand(l: Layout, glyphs: Glyphs, caret: Caret, deltas: seq<int>)
    requires Narrow(l, glyphs) && Settled(l, glyphs, caret)
    requires Within(l, glyphs, CaretPos(l, glyphs, caret.cursor).row, deltas)
    ensures Strides(l, glyphs, caret, deltas).Some?
    ensures var row := CaretPos(l, glyphs, caret.cursor).row + Sum(deltas);
      && 0 <= row
      && Clamped(l, glyphs, CaretPos(l, glyphs, Strides(l, glyphs, caret, deltas).value.cursor),
                 row, TargetCol(l, glyphs, caret))
    decreases |deltas|
  {
    if deltas != [] {
      StrideLands(l, glyphs, caret, deltas[0]);
      StridesLand(l, glyphs, Stride(l, glyphs, caret, deltas[0]).value, deltas[1..]);
    }
  }

  /** Any walk of vertical moves inside the text that ends on its starting row
      ends at its starting position, across short and empty rows; at the very
      byte it started from when no character is invisible. */
  lemma {:induction false} VerticalWalkReturns(l: Layout, glyphs: Glyphs, caret: Caret, deltas: seq<int>)
    requires Narrow(l, glyphs) && Settled(l, glyphs, caret)
    requires Within(l, glyphs, CaretPos(l, glyphs, caret.cursor).row, deltas) && Sum(deltas) == 0
    ensures Strides(l, glyphs, caret, deltas).Some?
    ensures CaretPos(l, glyphs, Strides(l, glyphs, caret, deltas).value.cursor)
         == CaretPos(l, glyphs, caret.cursor)
    ensures IsBoundary(l.text, caret.cursor) && AllVisible(l, glyphs) ==>
      Strides(l, glyphs, caret, deltas).value.cursor == caret.cursor
  {
    hide Strides, At, IsBoundary, Clamped, AllVisible;
    StridesLand(l, glyphs, caret, deltas);
    var end := Strides(l, glyphs, caret, deltas).value;
    if IsBoundary(l.text, caret.cursor) && AllVisible(l, glyphs) {
      StridesEndOnBoundary(l, glyphs, caret, deltas);
    }
    ClampedIsUnique(l, glyphs, CharsBefore(l.text, caret.cursor), CharsBefore(l.text, end.cursor),
      CaretPos(l, glyphs, caret.cursor).row, TargetCol(l, glyphs, caret));
    if IsBoundary(l.text, caret.cursor) && AllVisible(l, glyphs) {
      SamePlaceSameByte(l, glyphs, caret.cursor, end.cursor);
    }
  }

  /** Boundaries in text without invisible characters differ in position. */
  lemma PositionsDiffer(l: Layout, glyphs: Glyphs, i: nat, j: nat)
    requires i < j <= |l.text| && AllVisible(l, glyphs)
    ensures At(l, glyphs, i) != At(l, glyphs, j)
  {
    PositionsInOrder(l, glyphs, i, j - 1);
    PositionsInOrder(l, glyphs, j - 1, j);
    assert l.text[j - 1] in l.text;
    AdvanceMovesOn(At(l, glyphs, j - 1), l.text[j - 1], l.width, glyphs);
  }

  ghost predicate AllVisible(l: Layout, glyphs: Glyphs) {
    forall c :: c in l.text ==> !Invisible(c, glyphs)
  }

  lemma SamePlaceSameByte(l: Layout, glyphs: Glyphs, a: nat, b: nat)
    requires IsBoundary(l.text, a) && IsBoundary(l.text, b) && AllVisible(l, glyphs)
    requires CaretPos(l, glyphs, a) == CaretPos(l, glyphs, b)
    ensures a == b
  {
    BoundaryIndex(l.text, a);
    BoundaryIndex(l.text, b);
    var i, j := CharsBefore(l.text, a), CharsBefore(l.text, b);
    if i < j {
      PositionsDiffer(l, glyphs, i, j);
    } else if j < i {
      PositionsDiffer(l, glyphs, j, i);
    }
  }

  lemma {:induction false} StridesEndOnBoundary(l: Layout, glyphs: Glyphs, caret: Caret, deltas: seq<int>)
    requires IsBoundary(l.text, caret.cursor) && Strides(l, glyphs, caret, deltas).Some?
    ensures IsBoundary(l.text, Strides(l, glyphs, caret, deltas).value.cursor)
    decreases |deltas|
  {
    if deltas != [] {
      StridesEndOnBoundary(l, glyphs, Stride(l, glyphs, caret, deltas[0]).value, deltas[1..]);
    }
  }

  lemma {:induction false} SumOfRepeat(delta: int, k: nat, rest: seq<int>)
    ensures Sum(Repeat(delta, k) + rest) == k * delta + Sum(rest)
  {
    if k == 0 {
      assert Repeat(delta, k) + rest == rest;
    } else {
      assert (Repeat(delta, k) + rest)[1..] == Repeat(delta, k - 1) + rest;
      SumOfRepeat(delta, k - 1, rest);
      assert k * delta == delta + (k - 1) * delta;
    }
  }

  lemma SumDownsThenUps(k: nat)
    ensures Sum(Repeat(1, k) + Repeat(-1, k)) == 0
  {
    SumOfRepeat(1, k, Repeat(-1, k));
    SumOfRepeat(-1, k, []);
    assert Repeat(-1, k) + [] == Repeat(-1, k);
  }

  lemma {:induction false} WithinDownsThenUps(l: Layout, glyphs: Glyphs, row: nat, downs: nat, ups: nat)
    requires InitialPos(l).row <= row && InitialPos(l).row <= row + downs - ups
    requires row + downs <= EndPos(l, glyphs).row
    ensures Within(l, glyphs, row, Repeat(1, downs) + Repeat(-1, ups))
    decreases downs + ups
  {
    var deltas := Repeat(1, downs) + Repeat(-1, ups);
    if 0 < downs {
      assert deltas[1..] == Repeat(1, downs - 1) + Repeat(-1, ups);
      WithinDownsThenUps(l, glyphs, row + 1, downs - 1, ups);
    } else if 0 < ups {
      assert deltas[1..] == Repeat(1, 0) + Repeat(-1, ups - 1);
      WithinDownsThenUps(l, glyphs, row - 1, 0, ups - 1);
    }
  }

  lemma NarrowPromptStaysOnRowZero(l: Layout)
    requires l.promptCols < l.width
    ensures InitialPos(l).row == 0
  {
  }

  /** With the prompt narrower than the terminal, k Downs that fit in the text
      and then k Ups come back to the starting position. */
  lemma {:induction false} DownsThenUps(l: Layout, glyphs: Glyphs, caret: Caret, k: nat)
    requires Narrow(l, glyphs) && Settled(l, glyphs, caret) && l.promptCols < l.width
    requires CaretPos(l, glyphs, caret.cursor).row + k <= EndPos(l, glyphs).row
    ensures var moves := Repeat(1, k) + Repeat(-1, k);
      && Strides(l, glyphs, caret, moves).Some?
      && CaretPos(l, glyphs, Strides(l, glyphs, caret, moves).value.cursor)
           == CaretPos(l, glyphs, caret.cursor)
      && (IsBoundary(l.text, caret.cursor) && AllVisible(l, glyphs) ==>
            Strides(l, glyphs, caret, moves).value.cursor == caret.cursor)
  {
    NarrowPromptStaysOnRowZero(l);
    SumDownsThenUps(k);
    hide *;
    WithinDownsThenUps(l, glyphs, CaretPos(l, glyphs, caret.cursor).row, k, k);
    VerticalWalkReturns(l, glyphs, caret, Repeat(1, k) + Repeat(-1, k));
  }

  /** A prompt that wraps has rows above the text: Up from the first row of the
      text succeeds there, and lands on the start of the text instead. */
  lemma UpIntoWrappedPrompt(l: Layout, glyphs: Glyphs, caret: Caret)
    requires CaretPos(l, glyphs, caret.cursor).row == InitialPos(l).row
    ensures Stride(l, glyphs, caret, -1) ==
      if InitialPos(l).row == 0 then None else Some(Caret(0, Some(TargetCol(l, glyphs, caret))))
  {
    PositionsInOrder(l, glyphs, CharsBefore(l.text, caret.cursor), |l.text|);
    if 0 < InitialPos(l).row {
      assert StopsAt(l, glyphs, Pos(InitialPos(l).row - 1, TargetCol(l, glyphs, caret)), 0);
    }
  }
}
