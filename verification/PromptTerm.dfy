/**
 The prompt's shared state as the source updates it, one method per operation,
 and the key dispatch on top of them.
 */
module PromptTerm {
  import opened Basics
  import opened Utf8Text
  import opened PromptGeometry
  import opened PromptEditor
  import opened EditorInvariants

  // ---- Keys and events ------------------------------------------------------

  /** Enter with Shift or Alt is `NewlineEnter`; Ctrl with an arrow is `CtrlArrow`. */
  datatype Key =
    | NewlineEnter
    | PlainEnter
    | Ctrl(c: char)
    | Char(c: char)
    | BackspaceKey
    | DeleteKey
    | MotionKey(motion: Motion)
    | ArrowKey(up: bool)
    | CtrlArrow(up: bool)
    | Tab
    | BackTab
    | Esc
    | OtherKey

  datatype Event =
    | Line(line: string)
    | BufferChanged
    | CompletionAccept
    | BackTabPressed
    | Eof
    | Bound(action: string)
    | ExternalEditor

  type Source = (string, nat) -> seq<string>

  predicate Reserved(key: Key) {
    key.Ctrl? && key.c in {'a', 'c', 'd', 'e', 'u', 'w'}
  }

  predicate IsBound(key: Key, binding: Option<string>) {
    (key.Ctrl? || key.Char?) && !Reserved(key) && binding.Some?
  }

  /** The edit a key stands for. `binding` is what the key is bound to, if anything. */
  function EditOf(key: Key): Option<Edit> {
    match key
    case NewlineEnter => Some(Insert("\n"))
    case Char(c) => Some(Insert([c]))
    case BackspaceKey => Some(Backspace)
    case DeleteKey => Some(Delete)
    case Ctrl(c) => if c == 'u' then Some(KillToStart) else if c == 'w' then Some(KillWord) else None
    case _ => None
  }

  function Answer(s: State, e: Edit, closesMenu: bool, source: Option<Source>): seq<string> {
    if source.None? then [] else
      var edited := Edited(if closesMenu then s.(menu := None) else s, e);
      source.value(edited.buffer, edited.cursor)
  }

  function ActionOf(s: State, key: Key, binding: Option<string>, source: Option<Source>): Option<Action> {
    if IsBound(key, binding) then None
    else if EditOf(key).Some? then
      var e, closes := EditOf(key).value, key.NewlineEnter?;
      Some(Change(e, closes, [], Answer(s, e, closes, source), []))
    else match key
      case PlainEnter => Some(Enter([]))
      case Ctrl(c) =>
        if c == 'c' then Some(Clear) else if c == 'a' then Some(Move(Home)) else if c == 'e' then Some(Move(End))
        else if c == 'j' then Some(History(false)) else if c == 'k' then Some(History(true)) else None
      case MotionKey(motion) => Some(Move(motion))
      case ArrowKey(up) => Some(Arrow(up))
      case CtrlArrow(up) => Some(History(up))
      case Tab => Some(Cycle(true))
      case BackTab => Some(Cycle(false))
      case Esc => Some(Dismiss)
      case _ => None
  }

  function Handled(g: Glyphs, s: State, key: Key, binding: Option<string>, source: Option<Source>): State {
    var a := ActionOf(s, key, binding, source);
    if a.Some? then Step(g, s, a.value) else s
  }

  /** Whether a history step reports a change. */
  predicate StepChanges(s: State, back: bool) {
    match s.nav
    case None => if back then s.inputHistory != [] else s.buffer != ""
    case Some(Nav(entries, index)) =>
      if back then 0 < index else index + 1 < |entries| || (entries != [] && entries[|entries| - 1] != "")
  }

  predicate ArrowChanges(g: Glyphs, s: State, up: bool) {
    || MenuOpen(s)
    || MoveVertical(LaidOut(s), g, s.cursor, if up then -1 else 1, TargetColumn(g, s)).Some?
    || StepChanges(s, up)
  }

  function Changed(yes: bool): Option<Event> {
    if yes then Some(BufferChanged) else None
  }

  function EventOf(g: Glyphs, s: State, key: Key, binding: Option<string>): Option<Event> {
    if IsBound(key, binding) then Some(Bound(binding.value))
    else if EditOf(key).Some? then Changed(Changes(s, EditOf(key).value))
    else match key
      case PlainEnter => Some(if Previewing(s) then CompletionAccept else Line(s.buffer))
      case Ctrl(c) =>
        if c == 'c' then Some(if s.buffer == "" then Eof else BufferChanged)
        else if c == 'd' then (if s.buffer == "" then Some(Eof) else None)
        else if c == 'o' || c == 'g' then Some(ExternalEditor)
        else Changed(c == 'j' || c == 'k')
      case ArrowKey(up) => Changed(ArrowChanges(g, s, up))
      case CtrlArrow(_) => Some(BufferChanged)
      case Tab => Changed(MenuOpen(s))
      case BackTab => Some(if MenuOpen(s) then BufferChanged else BackTabPressed)
      case Esc => Changed(s.menu.Some?)
      case _ => None
  }

  /** Whoever reads the events is told of every change: a key that reports
      neither a change nor a line leaves text, menu and input history alone. */
  lemma SilentKeysChangeNothing(g: Glyphs, s: State, key: Key, binding: Option<string>, source: Option<Source>)
    requires WellFormed(s)
    requires EventOf(g, s, key, binding) !in {Some(BufferChanged), Some(CompletionAccept), Some(Line(s.buffer))}
    ensures var t := Handled(g, s, key, binding, source);
      t.buffer == s.buffer && t.menu == s.menu && t.inputHistory == s.inputHistory
  {
    hide CursorFits, TargetColumn, MoveVertical, Recalled, Edited, Refreshed, CalledAll, Submitted, Answer;
  }

  /** A submitted line is the text that was on screen; it goes onto the history
      unless it is empty, and the prompt is left empty with nothing open. */
  lemma SubmittedLineIsFiled(g: Glyphs, s: State, key: Key, binding: Option<string>, source: Option<Source>,
                             line: string)
    requires WellFormed(s) && EventOf(g, s, key, binding) == Some(Line(line))
    ensures var t := Handled(g, s, key, binding, source);
      && line == s.buffer && t.buffer == "" && t.cursor == 0 && t.menu.None? && t.nav.None?
      && t.inputHistory == if line == "" then s.inputHistory else s.inputHistory + [line]
  {
    hide ArrowChanges, Edited;
    assert CalledAll(s, []) == s;
    if s.buffer == "" {
      assert ByteLen("") == 0 && s.cursor == 0;
    }
  }

  // ---- Boundaries and words -------------------------------------------------

  /** The nearest boundary on the left is one character away. */
  method Before(s: string, pos: nat) returns (p: nat)
    requires IsBoundary(s, pos) && 0 < pos
    ensures var i := CharsBefore(s, pos); 0 < i && p == Offset(s, i - 1)
  {
    BoundaryInText(s, pos);
    p := PrevCharBoundary(s, pos);
    BoundaryIndex(s, pos);
    ghost var i := CharsBefore(s, pos);
    assert Offset(s, 0) == 0;
    NeighbourBoundaries(s, i, p);
    OffsetIncreases(s, i - 1, i);
    assert IsBoundary(s, Offset(s, i - 1));
  }

  method Behind(s: string, pos: nat) returns (p: nat)
    requires IsBoundary(s, pos) && pos < ByteLen(s)
    ensures var i := CharsBefore(s, pos); i < |s| && p == Offset(s, i + 1)
  {
    p := NextCharBoundary(s, pos);
    BoundaryIndex(s, pos);
    ghost var i := CharsBefore(s, pos);
    NeighbourBoundaries(s, i, p);
    OffsetIncreases(s, i, i + 1);
    assert IsBoundary(s, Offset(s, i + 1));
  }

  lemma NoBytes()
    ensures ByteLen("") == 0
  {
  }

  lemma BoundaryInText(s: string, pos: nat)
    requires IsBoundary(s, pos)
    ensures pos <= ByteLen(s)
  {
    BoundaryIndex(s, pos);
    if CharsBefore(s, pos) < |s| {
      OffsetIncreases(s, CharsBefore(s, pos), |s|);
    }
  }

  /** Where the word before `n` starts: white space is skipped backwards, then
      everything up to the last ASCII space. */
  method WordStart(s: string, n: nat) returns (m: nat)
    requires n <= |s|
    ensures m == AfterLastSpace(s, TrimmedLen(s, n))
  {
    m := n;
    while 0 < m && IsSpace(s[m - 1])
      invariant m <= n && TrimmedLen(s, m) == TrimmedLen(s, n)
    {
      m := m - 1;
    }
    while 0 < m && s[m - 1] != ' '
      invariant m <= n && AfterLastSpace(s, m) == AfterLastSpace(s, TrimmedLen(s, n))
    {
      m := m - 1;
    }
  }

  // ---- The operations -------------------------------------------------------

  class Term {
    const glyphs: Glyphs
    var buffer: string
    var cursor: nat
    var stickyCol: Option<nat>
    var inputHistory: seq<string>
    var historyNav: Option<Nav>
    var completion: Option<Menu>
    var width: nat
    var promptCols: nat
    var source: Option<Source>

    constructor (glyphs: Glyphs, width: nat, promptCols: nat)
      ensures View() == Blank(width, promptCols) && source.None? && this.glyphs == glyphs
    {
      this.glyphs := glyphs;
      buffer, cursor, stickyCol, inputHistory, historyNav, completion := "", 0, None, [], None, None;
      this.width, this.promptCols, source := width, promptCols, None;
    }

    function View(): State
      reads this
    {
      State(buffer, cursor, stickyCol, inputHistory, historyNav, completion, width, promptCols, source.Some?)
    }

    method WriteCursorTo(c: nat)
      modifies this`cursor, this`stickyCol
      ensures View() == WriteCursor(old(View()), c)
    {
      cursor, stickyCol := c, None;
    }

    method SyncBufferToHistoryNav()
      requires NavFits(historyNav)
      modifies this`historyNav
      ensures View() == Synced(old(View()))
    {
      if historyNav.Some? {
        var nav := historyNav.value;
        historyNav := Some(nav.(entries := nav.entries[nav.index := buffer]));
      }
    }

    method VerticalTargetCol() returns (col: nat)
      modifies this`stickyCol
      ensures View() == Captured(glyphs, old(View())) && col == TargetColumn(glyphs, old(View()))
    {
      if stickyCol.Some? {
        return stickyCol.value;
      }
      var row;
      row, col := BufferPositionForByte(Layout(buffer, width, promptCols), glyphs, cursor);
      stickyCol := Some(col);
    }

    method PushBufferAsHistoryEntry(line: string) returns (pushed: bool)
      modifies this
      ensures View() == Pushed(old(View()), line)
      ensures source == old(source) && (pushed <==> line != "")
    {
      if line == "" {
        return false;
      }
      inputHistory := inputHistory + [line];
      buffer := "";
      WriteCursorTo(0);
      return true;
    }

    method CycleCompletion(forward: bool) returns (cycled: bool)
      requires WellFormed(View())
      modifies this
      ensures View() == Cycled(old(View()), forward)
      ensures source == old(source) && (cycled <==> MenuOpen(old(View())))
      ensures !cycled ==> View() == old(View())
    {
      hide CursorFits;
      if completion.None? || completion.value.candidates == [] {
        return false;
      }
      var menu := completion.value;
      var n := |menu.candidates|;
      var next: Option<nat>;
      match menu.selected {
        case None => next := Some(if forward then 0 else n - 1);
        case Some(i) =>
          if i == 0 && !forward {
            next := None;
          } else {
            next := Some((if forward then i + 1 else i + n - 1) % n);
          }
      }
      completion := Some(menu.(selected := next));
      if next.None? {
        buffer := menu.originalBuffer;
        WriteCursorTo(menu.originalCursor);
      } else {
        buffer := menu.candidates[next.value];
        WriteCursorTo(ByteLen(buffer));
      }
      return true;
    }

    method DismissCompletion() returns (closed: bool)
      modifies this
      ensures View() == Dismissed(old(View()))
      ensures source == old(source) && (closed <==> old(completion).Some?)
    {
      if completion.None? {
        return false;
      }
      var menu := completion.value;
      completion := None;
      if menu.selected.Some? {
        buffer := menu.originalBuffer;
        WriteCursorTo(menu.originalCursor);
      }
      return true;
    }

    method AcceptCompletion() returns (accepted: bool)
      modifies this`completion
      ensures accepted <==> Previewing(old(View()))
      ensures completion == if accepted then None else old(completion)
    {
      if completion.None? || completion.value.selected.None? {
        return false;
      }
      completion := None;
      return true;
    }

    /** Shows a history entry, the cursor on its last or first visual row. */
    method Recall(text: string, lastRow: bool, col: nat)
      modifies this`buffer, this`cursor
      ensures View() == Recalled(glyphs, old(View()), text, lastRow, col)
    {
      buffer := text;
      var row := 0;
      if lastRow {
        row := LastVisualRow();
      }
      cursor := ByteOffsetForBufferPosition(Layout(buffer, width, promptCols), glyphs, row, col);
    }

    method LastVisualRow() returns (row: nat)
      ensures row == EndPos(LaidOut(View()), glyphs).row
    {
      var l := Layout(buffer, width, promptCols);
      var col: nat := l.promptCols % Cols(l.width);
      row := l.promptCols / Cols(l.width);
      for i := 0 to |buffer|
        invariant Pos(row, col) == At(l, glyphs, i)
      {
        row, col := AdvanceBufferPosition(row, col, buffer[i], l.width, glyphs);
      }
    }

    method StepHistory(back: bool) returns (changed: bool)
      requires NavFits(historyNav)
      modifies this
      ensures View() == Stepped(glyphs, old(View()), back)
      ensures source == old(source) && (changed <==> StepChanges(old(View()), back))
    {
      hide TargetColumn, Recalled;
      var col := VerticalTargetCol();
      if historyNav.None? {
        if !back {
          var line := buffer;
          buffer := "";
          changed := PushBufferAsHistoryEntry(line);
          return;
        }
        changed := EnterHistoryNav(col);
        return;
      }
      changed := AdvanceHistoryNav(back, col);
    }

    method EnterHistoryNav(col: nat) returns (changed: bool)
      requires historyNav.None?
      modifies this
      ensures View() == Entered(glyphs, old(View()), col)
      ensures source == old(source) && (changed <==> old(inputHistory) != [])
    {
      hide Recalled;
      if inputHistory == [] {
        return false;
      }
      var entries := inputHistory + [buffer];
      Recall(entries[|entries| - 2], true, col);
      historyNav := Some(Nav(entries, |entries| - 2));
      return true;
    }

    method AdvanceHistoryNav(back: bool, col: nat) returns (changed: bool)
      requires historyNav.Some? && NavFits(historyNav)
      modifies this
      ensures View() == Advanced(glyphs, old(View()), back, col)
      ensures source == old(source) && (changed <==> StepChanges(old(View()), back))
    {
      hide Recalled;
      var Nav(entries, index) := historyNav.value;
      if back && index == 0 {
        return false;
      }
      var next := if back then index - 1 else index + 1;
      if |entries| <= next {
        historyNav := None;
        changed := PushBufferAsHistoryEntry(entries[|entries| - 1]);
        return;
      }
      Recall(entries[next], back, col);
      historyNav := Some(Nav(entries, next));
      return true;
    }

    /** The byte offset one row away, if that row is in the text. */
    method MoveCursorVertical(up: bool, col: nat) returns (r: Option<nat>)
      ensures r == MoveVertical(LaidOut(View()), glyphs, cursor, if up then -1 else 1, col)
    {
      var l := Layout(buffer, width, promptCols);
      var row, _ := BufferPositionForByte(l, glyphs, cursor);
      if up && row == 0 {
        return None;
      }
      var target := if up then row - 1 else row + 1;
      var last := LastVisualRow();
      if last < target {
        return None;
      }
      var byte := ByteOffsetForBufferPosition(l, glyphs, target, col);
      return Some(byte);
    }

    method SetBuffer(text: string, c: nat)
      modifies this
      ensures View() == Called(old(View()), PromptEditor.SetBuffer(text, c)) && source == old(source)
    {
      buffer, historyNav, completion := text, None, None;
      WriteCursorTo(if c <= ByteLen(text) then c else ByteLen(text));
    }

    /** Asks the source about the buffer and opens or closes the menu. Here no
        other thread runs in between. */
    method RefreshCompletion()
      modifies this`completion
      ensures View() == Refreshed(old(View()), [], if source.Some? then source.value(buffer, cursor) else [], [])
    {
      assert CalledAll(View(), []) == View();
      if source.None? {
        return;
      }
      var candidates := source.value(buffer, cursor);
      completion := if candidates == [] then None else Some(Menu(candidates, None, buffer, cursor));
    }

    // ---- Edits --------------------------------------------------------------

    method InsertAtCursor(text: string)
      requires IsBoundary(buffer, cursor) && NavFits(historyNav)
      modifies this
      ensures View() == Edited(old(View()), Insert(text)) && source == old(source)
    {
      BoundaryIndex(buffer, cursor);
      var i := CharsBefore(buffer, cursor);
      buffer := buffer[..i] + text + buffer[i..];
      WriteCursorTo(cursor + ByteLen(text));
      hide Offset;
      SyncBufferToHistoryNav();
    }

    /** Removes the bytes of characters `from..to`, given by their offsets, and
        puts the cursor where they were. */
    method Drain(from: nat, to: nat, ghost i: nat, ghost j: nat)
      requires i <= j <= |buffer| && from == Offset(buffer, i) && to == Offset(buffer, j) && NavFits(historyNav)
      modifies this
      ensures View() == Synced(WriteCursor(old(View()).(buffer := Replaced(old(buffer), i, j, "")), from))
      ensures source == old(source)
    {
      CharsBeforeBoundary(buffer, i);
      CharsBeforeBoundary(buffer, j);
      assert buffer[..i] + "" + buffer[j..] == buffer[..i] + buffer[j..];
      buffer := buffer[..CharsBefore(buffer, from)] + buffer[CharsBefore(buffer, to)..];
      hide Offset;
      WriteCursorTo(from);
      SyncBufferToHistoryNav();
    }

    method DeleteToStart()
      requires IsBoundary(buffer, cursor) && NavFits(historyNav)
      modifies this
      ensures View() == Edited(old(View()), KillToStart) && source == old(source)
    {
      BoundaryIndex(buffer, cursor);
      assert Offset(buffer, 0) == 0 && ByteLen("") == 0;
      Drain(0, cursor, 0, CharsBefore(buffer, cursor));
    }

    method DeleteWord() returns (changed: bool)
      requires IsBoundary(buffer, cursor) && NavFits(historyNav)
      modifies this
      ensures changed <==> Changes(old(View()), KillWord)
      ensures View() == (if changed then Edited(old(View()), KillWord) else old(View())) && source == old(source)
    {
      if cursor == 0 {
        return false;
      }
      BoundaryIndex(buffer, cursor);
      assert ByteLen("") == 0;
      var i := CharsBefore(buffer, cursor);
      var m := WordStart(buffer, i);
      Drain(Offset(buffer, m), cursor, m, i);
      return true;
    }

    method DeleteBefore() returns (changed: bool)
      requires IsBoundary(buffer, cursor) && NavFits(historyNav)
      modifies this
      ensures changed <==> Changes(old(View()), Backspace)
      ensures View() == (if changed then Edited(old(View()), Backspace) else old(View())) && source == old(source)
    {
      if cursor == 0 {
        return false;
      }
      BoundaryIndex(buffer, cursor);
      assert ByteLen("") == 0;
      ghost var i := CharsBefore(buffer, cursor);
      var prev := Before(buffer, cursor);
      Drain(prev, cursor, i - 1, i);
      return true;
    }

    method DeleteAfter() returns (changed: bool)
      requires IsBoundary(buffer, cursor) && NavFits(historyNav)
      modifies this
      ensures changed <==> Changes(old(View()), Delete)
      ensures View() == (if changed then Edited(old(View()), Delete) else old(View())) && source == old(source)
    {
      hide IsBoundary, CharsBefore, Offset, Replaced, Synced;
      if cursor >= ByteLen(buffer) {
        return false;
      }
      BoundaryIndex(buffer, cursor);
      assert ByteLen("") == 0 by { NoBytes(); }
      ghost var i := CharsBefore(buffer, cursor);
      var next := Behind(buffer, cursor);
      Drain(cursor, next, i, i + 1);
      return true;
    }

    method MoveCursor(motion: Motion)
      requires IsBoundary(buffer, cursor)
      modifies this`cursor, this`stickyCol
      ensures View() == Moved(old(View()), motion)
    {
      BoundaryIndex(buffer, cursor);
      match motion
      case Left =>
        if 0 < cursor {
          var prev := Before(buffer, cursor);
          WriteCursorTo(prev);
        }
      case Right =>
        if cursor < ByteLen(buffer) {
          var next := Behind(buffer, cursor);
          WriteCursorTo(next);
        }
      case Home => WriteCursorTo(0);
      case End => WriteCursorTo(ByteLen(buffer));
    }

    // ---- Keys ---------------------------------------------------------------

    /** An edit key: the edit, and a refresh of the menu if anything changed. */
    method Type(e: Edit, closesMenu: bool) returns (event: Option<Event>)
      requires WellFormed(View())
      modifies this
      ensures View()
           == Step(glyphs, old(View()), Change(e, closesMenu, [], Answer(old(View()), e, closesMenu, source), []))
      ensures source == old(source) && event == Changed(Changes(old(View()), e))
    {
      hide Edited;
      if !Changes(View(), e) {
        return None;
      }
      if closesMenu {
        completion := None;
      }
      match e {
        case Insert(text) => InsertAtCursor(text);
        case KillToStart => DeleteToStart();
        case KillWord => var _ := DeleteWord();
        case Backspace => var _ := DeleteBefore();
        case Delete => var _ := DeleteAfter();
      }
      RefreshCompletion();
      return Some(BufferChanged);
    }

    method PressEnter() returns (event: Option<Event>)
      requires WellFormed(View())
      modifies this
      ensures View() == Step(glyphs, old(View()), Enter([])) && source == old(source)
      ensures event == Some(if Previewing(old(View())) then CompletionAccept else Line(old(buffer)))
    {
      assert CalledAll(View(), []) == View();
      var accepted := AcceptCompletion();
      if accepted {
        return Some(CompletionAccept);
      }
      completion, historyNav := None, None;
      var line := buffer;
      buffer := "";
      var _ := PushBufferAsHistoryEntry(line);
      return Some(Line(line));
    }

    method PressArrow(up: bool) returns (event: Option<Event>)
      requires WellFormed(View())
      modifies this
      ensures View() == Step(glyphs, old(View()), Arrow(up)) && source == old(source)
      ensures event == Changed(ArrowChanges(glyphs, old(View()), up))
    {
      hide Cycled, Stepped, CursorFits, TargetCol, MoveVertical;
      var cycled := CycleCompletion(!up);
      if cycled {
        return Some(BufferChanged);
      }
      var col := VerticalTargetCol();
      var row := MoveCursorVertical(up, col);
      if row.Some? {
        cursor := row.value;
        return Some(BufferChanged);
      }
      var changed := StepHistory(up);
      return Changed(changed);
    }

    method TriggerHistoryStep(back: bool)
      requires WellFormed(View())
      modifies this
      ensures View() == Step(glyphs, old(View()), History(back)) && source == old(source)
    {
      completion := None;
      var _ := StepHistory(back);
    }

    method ClearLine() returns (event: Option<Event>)
      modifies this
      ensures View() == Step(glyphs, old(View()), Clear) && source == old(source)
      ensures event == Some(if old(buffer) == "" then Eof else BufferChanged)
    {
      if buffer == "" {
        return Some(Eof);
      }
      buffer, historyNav, completion := "", None, None;
      WriteCursorTo(0);
      return Some(BufferChanged);
    }

    /** One key press; `binding` is the action the key is bound to, if any. */
    method HandleKey(key: Key, binding: Option<string>) returns (event: Option<Event>)
      requires WellFormed(View())
      modifies this
      ensures View() == Handled(glyphs, old(View()), key, binding, source)
      ensures source == old(source) && event == EventOf(glyphs, old(View()), key, binding)
    {
      hide Step, ArrowChanges, Changes, Answer, WellFormed;
      event := None;
      match key
      case NewlineEnter => event := Type(Insert("\n"), true);
      case PlainEnter => event := PressEnter();
      case Ctrl(c) => event := HandleCtrl(c, binding);
      case Char(c) =>
        if binding.Some? {
          return Some(Bound(binding.value));
        }
        event := Type(Insert([c]), false);
      case BackspaceKey => event := Type(Backspace, false);
      case DeleteKey => event := Type(Delete, false);
      case MotionKey(motion) => PressMotion(motion);
      case ArrowKey(up) => event := PressArrow(up);
      case CtrlArrow(up) =>
        TriggerHistoryStep(up);
        event := Some(BufferChanged);
      case Tab => event := PressTab(true);
      case BackTab =>
        event := PressTab(false);
        if event.None? {
          event := Some(BackTabPressed);
        }
      case Esc => event := PressEsc();
      case OtherKey =>
    }

    method HandleCtrl(c: char, binding: Option<string>) returns (event: Option<Event>)
      requires WellFormed(View())
      modifies this
      ensures View() == Handled(glyphs, old(View()), Ctrl(c), binding, source)
      ensures source == old(source) && event == EventOf(glyphs, old(View()), Ctrl(c), binding)
    {
      hide Step, ArrowChanges, Changes, Answer, WellFormed;
      event := None;
      if c == 'd' {
        event := if buffer == "" then Some(Eof) else None;
      } else if c == 'c' {
        event := ClearLine();
      } else if c == 'u' {
        event := Type(KillToStart, false);
      } else if c == 'w' {
        event := Type(KillWord, false);
      } else if c == 'a' {
        PressMotion(Home);
      } else if c == 'e' {
        PressMotion(End);
      } else if binding.Some? {
        event := Some(Bound(binding.value));
      } else if c == 'o' || c == 'g' {
        event := Some(ExternalEditor);
      } else if c == 'j' || c == 'k' {
        TriggerHistoryStep(c == 'k');
        event := Some(BufferChanged);
      }
    }

    method PressMotion(motion: Motion)
      requires WellFormed(View())
      modifies this
      ensures View() == Step(glyphs, old(View()), Move(motion)) && source == old(source)
    {
      MoveCursor(motion);
    }

    method PressTab(forward: bool) returns (event: Option<Event>)
      requires WellFormed(View())
      modifies this
      ensures View() == Step(glyphs, old(View()), Cycle(forward)) && source == old(source)
      ensures event == Changed(MenuOpen(old(View())))
    {
      var cycled := CycleCompletion(forward);
      return Changed(cycled);
    }

    method PressEsc() returns (event: Option<Event>)
      modifies this
      ensures View() == Step(glyphs, old(View()), Dismiss) && source == old(source)
      ensures event == Changed(old(completion).Some?)
    {
      var closed := DismissCompletion();
      return Changed(closed);
    }
  }
}
