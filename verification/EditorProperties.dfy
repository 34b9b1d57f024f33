/**
 What a user of the prompt relies on: menu and buffer stay in step, Esc gives
 back what was typed, edits and cursor keys undo each other, and arrow keys keep
 their column. Where the editor falls short of this, exactly where.
 */
module EditorProperties {
  import opened Basics
  import opened PromptGeometry
  import opened Utf8Text
  import opened PromptEditor
  import opened EditorInvariants

  // ---- The menu and the buffer ----------------------------------------------

  /** The buffer shows the selected candidate, or the original text when none is selected. */
  predicate InStep(s: State) {
    s.menu.Some? ==> s.buffer == Shown(s.menu.value)
  }

  predicate AllPrompts(es: seq<External>) {
    forall i :: 0 <= i < |es| ==> es[i].SetLeftPrompt?
  }

  /** Nobody sets the buffer while the source is asked for candidates. */
  predicate Quiet(a: Action) {
    a.Change? ==> AllPrompts(a.after)
  }

  lemma {:induction false} PromptsOnly(s: State, es: seq<External>)
    requires AllPrompts(es)
    ensures var t := CalledAll(s, es);
      t.buffer == s.buffer && t.cursor == s.cursor && t.nav == s.nav && t.menu == s.menu
  {
    if es != [] {
      PromptsOnly(s, es[..|es| - 1]);
    }
  }

  /** A refresh leaves menu and buffer in step exactly when it opens no menu or
      the text it asked about is still there when the answer comes. */
  lemma RefreshInStepIff(s: State, before: seq<External>, answer: seq<string>, after: seq<External>)
    requires WellFormed(s) && AllProper(before) && AllProper(after)
    ensures var looked := CalledAll(s, before);
      InStep(Refreshed(s, before, answer, after))
      <==> !s.hasSource || answer == [] || CalledAll(looked, after).buffer == looked.buffer
  {
    hide CalledAll, CursorFits, MenuFits;
    CalledAllFits(s, before);
    CalledAllFits(CalledAll(s, before), after);
  }

  /** Such a late answer brings back the earlier text: setting the buffer while
      candidates are fetched is undone by opening and closing the menu. */
  lemma LateAnswerUndoesSetBuffer(s: State, text: string, cursor: nat, answer: seq<string>)
    requires s.hasSource && answer != []
    ensures var late := Refreshed(s, [], answer, [SetBuffer(text, cursor)]);
      late.buffer == text && Dismissed(Cycled(late, true)).buffer == s.buffer
  {
    assert [SetBuffer(text, cursor)][..0] == [];
    assert CalledAll(CalledAll(s, []), [SetBuffer(text, cursor)]) == Called(s, SetBuffer(text, cursor));
  }

  lemma SteppedClosed(g: Glyphs, s: State, back: bool)
    requires s.menu.None?
    ensures Stepped(g, s, back).menu.None?
  {
    hide Recalled, TargetColumn;
    assert forall t, text, lastRow, col :: Recalled(g, t, text, lastRow, col).menu == t.menu by {
      forall t, text, lastRow, col ensures Recalled(g, t, text, lastRow, col).menu == t.menu {
        RecallTouchesCaret(g, t, text, lastRow, col);
      }
    }
  }

  lemma RecallTouchesCaret(g: Glyphs, s: State, text: string, lastRow: bool, col: nat)
    ensures Recalled(g, s, text, lastRow, col)
         == s.(buffer := text, cursor := Recalled(g, s, text, lastRow, col).cursor)
  {
  }

  lemma StepKeepsInStep(g: Glyphs, s: State, a: Action)
    requires WellFormed(s) && InStep(s) && Allowed(a) && Quiet(a)
    ensures InStep(Step(g, s, a))
  {
    assert WellFormed(s.(menu := None));
    hide CursorFits;
    match a
    case Change(edit, closesMenu, before, answer, after) =>
      if Changes(s, edit) {
        var from := if closesMenu then s.(menu := None) else s;
        EditedFits(from, edit);
        hide Edited, Changes, CalledAll, MenuFits, NavFits, WellFormed;
        RefreshInStepIff(Edited(from, edit), before, answer, after);
        PromptsOnly(CalledAll(Edited(from, edit), before), after);
      }
    case Enter(_) =>
      hide CalledAll;
    case Clear =>
    case Move(_) =>
    case Arrow(up) =>
      hide Stepped, TargetColumn, MoveVertical;
      if !MenuOpen(s) {
        SteppedClosed(g, Captured(g, s), up);
      }
    case Cycle(_) =>
    case Dismiss =>
    case History(back) =>
      hide Stepped;
      SteppedClosed(g, s.(menu := None), back);
    case Outside(_) =>
    case Resize(_) =>
    case SetSource(_) =>
  }

  ghost predicate AllQuiet(actions: seq<Action>) {
    forall i :: 0 <= i < |actions| ==> Quiet(actions[i])
  }

  /** Over any run in which no such call slips in, an open menu and the buffer are in step. */
  lemma {:induction false} EveryRunInStep(g: Glyphs, s: State, actions: seq<Action>)
    requires WellFormed(s) && InStep(s) && AllAllowed(actions) && AllQuiet(actions)
    ensures WellFormed(Run(g, s, actions)) && InStep(Run(g, s, actions))
  {
    hide WellFormed, InStep, Step, Allowed, Quiet;
    if actions != [] {
      var init, a := actions[..|actions| - 1], actions[|actions| - 1];
      EveryRunInStep(g, s, init);
      StepFits(g, Run(g, s, init), a);
      StepKeepsInStep(g, Run(g, s, init), a);
    }
  }

  // ---- Cycling and Esc ------------------------------------------------------

  function CycledAll(s: State, forwards: seq<bool>): State {
    if forwards == [] then s else Cycled(CycledAll(s, forwards[..|forwards| - 1]), forwards[|forwards| - 1])
  }

  lemma {:induction false} CyclingKeepsOriginal(s: State, forwards: seq<bool>)
    requires WellFormed(s) && InStep(s) && s.menu.Some?
    ensures var t := CycledAll(s, forwards);
      && WellFormed(t) && InStep(t) && t.menu.Some?
      && t.menu.value.(selected := s.menu.value.selected) == s.menu.value
      && (forwards != [] && !Previewing(t) ==> t.cursor == s.menu.value.originalCursor)
      && (forwards == [] ==> t == s)
      && t.nav == s.nav && t.inputHistory == s.inputHistory
  {
    if forwards != [] {
      var t := CycledAll(s, forwards[..|forwards| - 1]);
      CyclingKeepsOriginal(s, forwards[..|forwards| - 1]);
      CycledFits(t, forwards[|forwards| - 1]);
      hide CursorFits;
    }
  }

  /** However often the menu was cycled, Esc closes it on the text it was opened
      on, with the cursor back in place if anything was cycled or previewed; the
      history is as it was. */
  lemma {:induction false} EscRestores(s: State, forwards: seq<bool>)
    requires WellFormed(s) && InStep(s) && s.menu.Some?
    ensures var t := Dismissed(CycledAll(s, forwards));
      && t.menu.None? && t.buffer == s.menu.value.originalBuffer
      && t.cursor == (if forwards != [] || Previewing(s) then s.menu.value.originalCursor else s.cursor)
      && t.nav == s.nav && t.inputHistory == s.inputHistory
  {
    CyclingKeepsOriginal(s, forwards);
  }

  predicate SelectionFits(selected: Option<nat>, n: nat) {
    selected.Some? ==> selected.value < n
  }

  /** Up undoes Down except at the last candidate, which Down leaves for the
      first; Down undoes Up except from no selection, which Down never goes back to. */
  lemma CycleInverses(selected: Option<nat>, n: nat)
    requires 0 < n && SelectionFits(selected, n)
    ensures NextSelected(NextSelected(selected, n, true), n, false) == selected <==> selected != Some(n - 1)
    ensures NextSelected(NextSelected(selected, n, false), n, true) == selected <==> selected.Some?
  {
    if selected.Some? {
      var i := selected.value;
      Modulo(i + 1, n);
      Modulo(i + n - 1, n);
      Modulo(i + 2 * n - 1, n);
      if i + 1 == n {
        assert NextSelected(selected, n, true) == Some(0);
      } else {
        Modulo(i + 1 + n - 1, n);
      }
      if i > 0 {
        Modulo(i - 1 + 1, n);
      }
    } else {
      Modulo(n - 1 + 1, n);
    }
  }

  lemma Modulo(x: nat, n: nat)
    requires 0 < n && x < 3 * n
    ensures x % n == if x < n then x else if x < 2 * n then x - n else x - 2 * n
  {
    if n <= x < 2 * n {
      assert x == n + (x - n);
    } else if 2 * n <= x {
      assert x == 2 * n + (x - 2 * n);
    }
  }

  function NextSelectedTimes(n: nat, k: nat): Option<nat>
    requires 0 < n
  {
    if k == 0 then None else NextSelected(NextSelectedTimes(n, k - 1), n, true)
  }

  lemma {:induction false} FirstRound(n: nat, k: nat)
    requires 1 <= k <= n
    ensures NextSelectedTimes(n, k) == Some(k - 1)
  {
    if k == 1 {
      assert NextSelectedTimes(n, 0) == None;
    } else {
      FirstRound(n, k - 1);
      Modulo(k - 1, n);
    }
  }

  /** Tab shows every candidate in order, over and over. */
  lemma {:induction false} ForwardVisitsInOrder(n: nat, k: nat)
    requires 0 < n && 0 < k
    ensures k <= n ==> NextSelectedTimes(n, k) == Some(k - 1)
    ensures NextSelectedTimes(n, k + n) == NextSelectedTimes(n, k)
  {
    if k <= n {
      FirstRound(n, k);
    }
    if k == 1 {
      FirstRound(n, n);
      Modulo(n, n);
    } else {
      ForwardVisitsInOrder(n, k - 1);
      assert NextSelectedTimes(n, k + n) == NextSelected(NextSelectedTimes(n, k + n - 1), n, true);
    }
  }

  // ---- Edits ----------------------------------------------------------------

  lemma TypedThenErased(text: string, i: nat, c: char)
    requires i <= |text|
    ensures var typed := Replaced(text, i, i, [c]);
      && i + 1 <= |typed| && Replaced(typed, i, i + 1, "") == text
      && Offset(typed, i) == Offset(text, i) && Offset(typed, i + 1) == Offset(text, i) + ByteLen([c])
  {
    ReplacedOffset(text, i, i, [c]);
    hide Offset;
    assert Replaced(text, i, i, [c])[..i] == text[..i];
    OffsetOfPrefix(Replaced(text, i, i, [c]), text, i);
  }

  /** Text and cursor after an edit, once the character under the cursor is known. */
  lemma EditedText(s: State, e: Edit, from: nat, to: nat)
    requires Range(s, e) == (from, to)
    ensures Edited(s, e).buffer == Replaced(s.buffer, from, to, Inserted(e))
    ensures Edited(s, e).cursor == Offset(s.buffer, from) + ByteLen(Inserted(e))
  {
    hide Offset, Replaced;
  }

  lemma NothingInserted(e: Edit)
    ensures !e.Insert? ==> ByteLen(Inserted(e)) == 0
  {
  }

  /** Backspace takes back what was just typed, text and cursor both. */
  lemma BackspaceUndoesTyping(s: State, c: char)
    requires WellFormed(s)
    ensures var t := Edited(Edited(s, Insert([c])), Backspace);
      t.buffer == s.buffer && t.cursor == s.cursor
  {
    hide WellFormed, Edited, Replaced, Offset, CharsBefore;
    CursorOffset(s);
    var i, typed := Here(s), Edited(s, Insert([c]));
    EditedText(s, Insert([c]), i, i);
    TypedThenErased(s.buffer, i, c);
    CharsBeforeBoundary(typed.buffer, i + 1);
    EditedText(typed, Backspace, i, i + 1);
    NothingInserted(Backspace);
  }

  lemma LeftMovesOne(s: State)
    requires WellFormed(s) && 0 < s.cursor
    ensures 0 < Here(s) && Moved(s, Left) == WriteCursor(s, Offset(s.buffer, Here(s) - 1))
    ensures Here(Moved(s, Left)) == Here(s) - 1 && Moved(s, Left).cursor < ByteLen(s.buffer)
  {
    BoundaryIndex(s.buffer, s.cursor);
    hide WellFormed, CharsBefore;
    var i := Here(s);
    assert 0 < i;
    hide Offset;
    CharsBeforeBoundary(s.buffer, i - 1);
    OffsetIncreases(s.buffer, i - 1, |s.buffer|);
  }

  lemma RightMovesOne(s: State)
    requires WellFormed(s) && s.cursor < ByteLen(s.buffer)
    ensures Here(s) < |s.buffer| && Moved(s, Right) == WriteCursor(s, Offset(s.buffer, Here(s) + 1))
    ensures Here(Moved(s, Right)) == Here(s) + 1 && 0 < Moved(s, Right).cursor
  {
    BoundaryIndex(s.buffer, s.cursor);
    hide WellFormed, CharsBefore;
    var i := Here(s);
    assert i < |s.buffer|;
    hide Offset;
    CharsBeforeBoundary(s.buffer, i + 1);
    OffsetIncreases(s.buffer, i, i + 1);
  }

  lemma RightUndoesLeft(s: State)
    requires WellFormed(s) && 0 < s.cursor
    ensures Moved(Moved(s, Left), Right).cursor == s.cursor
  {
    hide WellFormed, Moved, Offset, Here;
    CursorOffset(s);
    LeftMovesOne(s);
    MovedFits(s, Left);
    RightMovesOne(Moved(s, Left));
  }

  lemma LeftUndoesRight(s: State)
    requires WellFormed(s) && s.cursor < ByteLen(s.buffer)
    ensures Moved(Moved(s, Right), Left).cursor == s.cursor
  {
    hide WellFormed, Moved, Offset, Here;
    CursorOffset(s);
    RightMovesOne(s);
    MovedFits(s, Right);
    LeftMovesOne(Moved(s, Right));
  }

  /** Right undoes Left away from the start, and Left undoes Right away from the end. */
  lemma LeftAndRightUndo(s: State)
    requires WellFormed(s)
    ensures 0 < s.cursor ==> Moved(Moved(s, Left), Right).cursor == s.cursor
    ensures s.cursor < ByteLen(s.buffer) ==> Moved(Moved(s, Right), Left).cursor == s.cursor
  {
    hide WellFormed, Moved, ByteLen;
    if 0 < s.cursor {
      RightUndoesLeft(s);
    }
    if s.cursor < ByteLen(s.buffer) {
      LeftUndoesRight(s);
    }
  }

  lemma CursorOffset(s: State)
    requires WellFormed(s)
    ensures Offset(s.buffer, Here(s)) == s.cursor
  {
    BoundaryIndex(s.buffer, s.cursor);
  }

  /** Delete after Left is Backspace. */
  lemma LeftThenDelete(s: State)
    requires WellFormed(s) && 0 < s.cursor
    ensures var moved := Moved(s, Left);
      Changes(moved, Delete) && Edited(moved, Delete) == Edited(s, Backspace)
  {
    hide WellFormed, Moved, Offset, Here, Synced, Replaced;
    LeftMovesOne(s);
    assert Range(Moved(s, Left), Delete) == Range(s, Backspace);
  }

  lemma {:induction false} TrimmedIsSpace(s: string, n: nat)
    requires n <= |s|
    ensures var m := TrimmedLen(s, n);
      (forall k :: m <= k < n ==> IsSpace(s[k])) && (0 < m ==> !IsSpace(s[m - 1]))
  {
    hide IsSpace;
    if 0 < n && IsSpace(s[n - 1]) {
      TrimmedIsSpace(s, n - 1);
    }
  }

  lemma {:induction false} NoSpaceAfter(s: string, n: nat)
    requires n <= |s|
    ensures var m := AfterLastSpace(s, n);
      (forall k :: m <= k < n ==> s[k] != ' ') && (0 < m ==> s[m - 1] == ' ')
  {
    if 0 < n && s[n - 1] != ' ' {
      NoSpaceAfter(s, n - 1);
    }
  }

  /** Ctrl-W removes the last run of characters other than the ASCII space, and the white space behind
      it; what is left before the cursor is empty or ends in a space. */
  lemma KillWordRemovesOneWord(s: State)
    requires WellFormed(s)
    ensures var i := Here(s);
      var from, mid := Range(s, KillWord).0, TrimmedLen(s.buffer, i);
      && from <= mid <= i
      && (forall k :: from <= k < mid ==> s.buffer[k] != ' ')
      && (forall k :: mid <= k < i ==> IsSpace(s.buffer[k]))
      && (from == 0 || s.buffer[from - 1] == ' ')
      && Edited(s, KillWord).buffer == s.buffer[..from] + s.buffer[i..]
      && Edited(s, KillWord).cursor == Offset(s.buffer, from)
  {
    hide IsSpace;
    TrimmedIsSpace(s.buffer, Here(s));
    NoSpaceAfter(s.buffer, TrimmedLen(s.buffer, Here(s)));
    assert ByteLen("") == 0;
  }

  // ---- Arrow keys within the text -------------------------------------------

  function Arrows(g: Glyphs, s: State, ups: seq<bool>): State
    decreases |ups|
  {
    if ups == [] then s else Arrows(g, Vertical(g, s, ups[0]), ups[1..])
  }

  function Deltas(ups: seq<bool>): (r: seq<int>)
    ensures |r| == |ups|
  {
    seq(|ups|, i requires 0 <= i < |ups| => if ups[i] then -1 else 1)
  }

  lemma ArrowIsStride(g: Glyphs, s: State, up: bool)
    requires !MenuOpen(s) && Stride(LaidOut(s), g, Caret(s.cursor, s.sticky), if up then -1 else 1).Some?
    ensures var c := Stride(LaidOut(s), g, Caret(s.cursor, s.sticky), if up then -1 else 1).value;
      Vertical(g, s, up) == s.(cursor := c.cursor, sticky := c.sticky)
  {
    hide MoveVertical;
  }

  /** With no menu open, arrow keys that stay in the text only move the caret. */
  lemma {:induction false} ArrowsAreStrides(g: Glyphs, s: State, ups: seq<bool>)
    requires !MenuOpen(s) && Strides(LaidOut(s), g, Caret(s.cursor, s.sticky), Deltas(ups)).Some?
    ensures var c := Strides(LaidOut(s), g, Caret(s.cursor, s.sticky), Deltas(ups)).value;
      Arrows(g, s, ups) == s.(cursor := c.cursor, sticky := c.sticky)
    decreases |ups|
  {
    if ups != [] {
      assert Deltas(ups)[1..] == Deltas(ups[1..]) && Deltas(ups)[0] == if ups[0] then -1 else 1;
      hide Stride, Vertical, Deltas;
      ArrowIsStride(g, s, ups[0]);
      ArrowsAreStrides(g, Vertical(g, s, ups[0]), ups[1..]);
    }
  }

  /** k times Down and k times Up inside narrow text, right after typing or a
      horizontal move, bring the cursor back where it was and touch nothing else;
      to the very byte when no character is invisible. */
  lemma DownKeysThenUpKeys(g: Glyphs, s: State, k: nat)
    requires !MenuOpen(s) && s.sticky.None? && s.promptCols < s.width && Narrow(LaidOut(s), g)
    requires CaretPos(LaidOut(s), g, s.cursor).row + k <= EndPos(LaidOut(s), g).row
    ensures var t := Arrows(g, s, Repeat(false, k) + Repeat(true, k));
      && t == s.(cursor := t.cursor, sticky := t.sticky)
      && CaretPos(LaidOut(s), g, t.cursor) == CaretPos(LaidOut(s), g, s.cursor)
      && (CursorFits(s) && AllVisible(LaidOut(s), g) ==> t.cursor == s.cursor)
  {
    hide Arrows, Strides, AllVisible, IsBoundary;
    var ups := Repeat(false, k) + Repeat(true, k);
    assert Deltas(ups) == Repeat(1, k) + Repeat(-1, k);
    DownsThenUps(LaidOut(s), g, Caret(s.cursor, s.sticky), k);
    ArrowsAreStrides(g, s, ups);
  }

  /** A recalled line of narrow text is entered on its last row going back and
      on its first going forward, at the column asked for, clamped to that row. */
  lemma RecallLandsOnEdgeRow(g: Glyphs, s: State, text: string, lastRow: bool, col: nat)
    requires col < Cols(s.width) && s.promptCols < s.width && Narrow(LaidOut(s.(buffer := text)), g)
    ensures var t := Recalled(g, s, text, lastRow, col);
      && t.buffer == text
      && Clamped(LaidOut(t), g, CaretPos(LaidOut(t), g, t.cursor),
                 if lastRow then EndPos(LaidOut(t), g).row else 0, col)
  {
    var l := LaidOut(s.(buffer := text));
    var row := if lastRow then EndPos(l, g).row else 0;
    PositionsInOrder(l, g, 0, |text|);
    NarrowPromptStaysOnRowZero(l);
    NarrowLanding(l, g, row, col);
    CharsBeforeBoundary(text, Seek(l, g, Pos(row, col)));
    hide Clamped, Narrow, Seek;
  }
}
