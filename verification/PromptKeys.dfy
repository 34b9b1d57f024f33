/**
 What each key does to what is on screen, key by key: the text, the cursor, the
 line recalled, the candidate selected. Nothing here speaks of the actions that
 keys stand for.
 */
module PromptKeys {
  import opened Basics
  import opened Utf8Text
  import opened PromptGeometry
  import opened PromptEditor
  import opened EditorInvariants
  import opened EditorProperties
  import opened EditorHistory
  import opened PromptTerm

  // ---- Cursor keys ----------------------------------------------------------

  /** Home and Ctrl-A go to the start of the text, End and Ctrl-E to its end. */
  lemma HomeAndEndKeys(g: Glyphs, s: State, binding: Option<string>, source: Option<Source>)
    ensures forall key :: key in {Ctrl('a'), MotionKey(Home)} ==>
      Handled(g, s, key, binding, source) == s.(cursor := 0, sticky := None) && EventOf(g, s, key, binding) == None
    ensures forall key :: key in {Ctrl('e'), MotionKey(End)} ==>
      && Handled(g, s, key, binding, source) == s.(cursor := ByteLen(s.buffer), sticky := None)
      && EventOf(g, s, key, binding) == None
  {
    hide Answer, Edited, ArrowChanges, Stepped, MoveVertical, TargetCol, Cycled, CalledAll;
  }

  /** Left goes to the nearest boundary before the cursor, Right to the nearest behind it. */
  lemma LeftAndRightKeys(g: Glyphs, s: State, i: nat, binding: Option<string>, source: Option<Source>)
    requires WellFormed(s) && i <= |s.buffer| && s.cursor == Offset(s.buffer, i)
    ensures Handled(g, s, MotionKey(Left), binding, source) ==
      if i == 0 then s else s.(cursor := Offset(s.buffer, i - 1), sticky := None)
    ensures Handled(g, s, MotionKey(Right), binding, source) ==
      if i == |s.buffer| then s else s.(cursor := Offset(s.buffer, i + 1), sticky := None)
    ensures forall motion :: EventOf(g, s, MotionKey(motion), binding) == None
  {
    hide WellFormed, Offset, ByteLen, Here;
    hide Answer, Edited, ArrowChanges, Stepped, MoveVertical, TargetCol, Cycled, CalledAll;
    CursorAt(s, i);
  }

  lemma CursorAt(s: State, i: nat)
    requires i <= |s.buffer| && s.cursor == Offset(s.buffer, i)
    ensures Here(s) == i && (0 < s.cursor <==> 0 < i) && (s.cursor < ByteLen(s.buffer) <==> i < |s.buffer|)
  {
    CharsBeforeBoundary(s.buffer, i);
    if i < |s.buffer| {
      OffsetIncreases(s.buffer, i, |s.buffer|);
    }
  }

  // ---- Edit keys ------------------------------------------------------------

  /** What an edit leaves: this text and cursor, the recalled line changed with
      it, and the menu the source offers for it, if any. */
  ghost predicate Leaves(s: State, t: State, source: Option<Source>, text: string, cursor: nat)
    requires NavFits(s.nav)
  {
    && t.buffer == text && t.cursor == cursor && t.sticky.None? && t.inputHistory == s.inputHistory
    && (t.nav.Some? <==> s.nav.Some?)
    && (s.nav.Some? ==> t.nav.value == s.nav.value.(entries := s.nav.value.entries[s.nav.value.index := text]))
    && t.menu ==
         if source.Some? && source.value(text, cursor) != []
         then Some(Menu(source.value(text, cursor), None, text, cursor)) else None
  }

  lemma EditLeaves(g: Glyphs, s: State, e: Edit, closesMenu: bool, source: Option<Source>, from: nat, to: nat)
    requires WellFormed(s) && s.hasSource == source.Some? && Changes(s, e) && Range(s, e) == (from, to)
    ensures Leaves(s, Step(g, s, Change(e, closesMenu, [], Answer(s, e, closesMenu, source), [])), source,
                   Replaced(s.buffer, from, to, Inserted(e)), Offset(s.buffer, from) + ByteLen(Inserted(e)))
  {
    hide CursorFits, MenuFits, Range, Replaced, Changes, Offset;
    var base := if closesMenu then s.(menu := None) else s;
    assert Range(base, e) == (from, to) by { SameRange(s, e, None); }
    var edited := Edited(base, e);
    assert CalledAll(edited, []) == edited;
  }

  /** An edit key makes its edit, or nothing if there is nothing to change. */
  lemma EditKey(g: Glyphs, s: State, key: Key, e: Edit, binding: Option<string>, source: Option<Source>)
    requires EditOf(key) == Some(e) && !IsBound(key, binding)
    ensures var t := Handled(g, s, key, binding, source);
      && (Changes(s, e) ==>
            t == Step(g, s, Change(e, key.NewlineEnter?, [], Answer(s, e, key.NewlineEnter?, source), [])))
      && (!Changes(s, e) ==> t == s)
    ensures EventOf(g, s, key, binding) == if Changes(s, e) then Some(BufferChanged) else None
  {
    hide Answer, Changes, Edited, Stepped, MoveVertical, TargetCol, Cycled, CalledAll;
  }

  lemma SameRange(s: State, e: Edit, menu: Option<Menu>)
    ensures Range(s.(menu := menu), e) == Range(s, e)
  {
  }

  /** A character, and a newline by Enter with Shift or Alt, goes in at the cursor. */
  lemma TypingKeys(g: Glyphs, s: State, i: nat, key: Key, c: char, source: Option<Source>)
    requires WellFormed(s) && s.hasSource == source.Some? && i <= |s.buffer| && s.cursor == Offset(s.buffer, i)
    requires key == Char(c) || (key == NewlineEnter && c == '\n')
    ensures Leaves(s, Handled(g, s, key, None, source), source,
                   s.buffer[..i] + [c] + s.buffer[i..], s.cursor + Utf8Len(c))
    ensures EventOf(g, s, key, None) == Some(BufferChanged)
  {
    CursorAt(s, i);
    assert ByteLen([c]) == Utf8Len(c) by { OneCharacter(c); }
    EditKey(g, s, key, Insert([c]), None, source);
    hide WellFormed, Offset, Here, Step, Handled, EventOf, Answer, Leaves;
    EditLeaves(g, s, Insert([c]), key.NewlineEnter?, source, i, i);
  }

  lemma OneCharacter(c: char)
    ensures ByteLen([c]) == Utf8Len(c)
  {
    assert Offset([c], 0) == 0;
  }

  /** Backspace takes the character before the cursor; where there is none,
      nothing happens and nothing is reported. */
  lemma BackspaceErases(g: Glyphs, s: State, i: nat, source: Option<Source>)
    requires WellFormed(s) && s.hasSource == source.Some? && i <= |s.buffer| && s.cursor == Offset(s.buffer, i)
    ensures var t := Handled(g, s, BackspaceKey, None, source);
      if i == 0 then t == s
      else Leaves(s, t, source, s.buffer[..i - 1] + s.buffer[i..], Offset(s.buffer, i - 1))
    ensures EventOf(g, s, BackspaceKey, None) == if i == 0 then None else Some(BufferChanged)
  {
    CursorAt(s, i);
    NothingInserted(Backspace);
    EditKey(g, s, BackspaceKey, Backspace, None, source);
    hide WellFormed, Offset, Here, Step, Handled, EventOf, Answer, Leaves;
    if i > 0 {
      EditLeaves(g, s, Backspace, false, source, i - 1, i);
      assert s.buffer[..i - 1] + "" + s.buffer[i..] == s.buffer[..i - 1] + s.buffer[i..];
    }
  }

  /** Delete takes the one behind it. */
  lemma DeleteErases(g: Glyphs, s: State, i: nat, source: Option<Source>)
    requires WellFormed(s) && s.hasSource == source.Some? && i <= |s.buffer| && s.cursor == Offset(s.buffer, i)
    ensures var t := Handled(g, s, DeleteKey, None, source);
      if i == |s.buffer| then t == s
      else Leaves(s, t, source, s.buffer[..i] + s.buffer[i + 1..], s.cursor)
    ensures EventOf(g, s, DeleteKey, None) == if i == |s.buffer| then None else Some(BufferChanged)
  {
    CursorAt(s, i);
    NothingInserted(Delete);
    EditKey(g, s, DeleteKey, Delete, None, source);
    hide WellFormed, Offset, Here, Step, Handled, EventOf, Answer, Leaves;
    if i < |s.buffer| {
      EditLeaves(g, s, Delete, false, source, i, i + 1);
      assert s.buffer[..i] + "" + s.buffer[i + 1..] == s.buffer[..i] + s.buffer[i + 1..];
    }
  }

  /** Ctrl-U takes everything before the cursor. */
  lemma KillLineKey(g: Glyphs, s: State, i: nat, binding: Option<string>, source: Option<Source>)
    requires WellFormed(s) && s.hasSource == source.Some? && i <= |s.buffer| && s.cursor == Offset(s.buffer, i)
    ensures Leaves(s, Handled(g, s, Ctrl('u'), binding, source), source, s.buffer[i..], 0)
    ensures EventOf(g, s, Ctrl('u'), binding) == Some(BufferChanged)
  {
    CursorAt(s, i);
    NothingInserted(KillToStart);
    assert Offset(s.buffer, 0) == 0;
    EditKey(g, s, Ctrl('u'), KillToStart, binding, source);
    hide WellFormed, Offset, Here, Step, Handled, EventOf, Answer, Leaves;
    EditLeaves(g, s, KillToStart, false, source, 0, i);
    assert s.buffer[..0] + "" + s.buffer[i..] == s.buffer[i..];
  }

  /** The 25 characters Unicode counts as white space. */
  lemma WhiteSpaceIs(c: char)
    ensures IsSpace(c) <==>
      c as int in {0x9, 0xA, 0xB, 0xC, 0xD, 0x20, 0x85, 0xA0, 0x1680, 0x2000, 0x2001, 0x2002, 0x2003, 0x2004, 0x2005,
                   0x2006, 0x2007, 0x2008, 0x2009, 0x200A, 0x2028, 0x2029, 0x202F, 0x205F, 0x3000}
  {
  }

  /** Ctrl-W takes the word before the cursor: white space, then everything up to
      the last ASCII space. At the start of the text it does nothing. */
  lemma KillWordKey(g: Glyphs, s: State, i: nat, binding: Option<string>, source: Option<Source>)
    returns (from: nat, mid: nat)
    requires WellFormed(s) && s.hasSource == source.Some? && i <= |s.buffer| && s.cursor == Offset(s.buffer, i)
    ensures from <= mid <= i
    ensures forall k :: mid <= k < i ==> IsSpace(s.buffer[k])
    ensures 0 < mid ==> !IsSpace(s.buffer[mid - 1])
    ensures forall k :: from <= k < mid ==> s.buffer[k] != ' '
    ensures from == 0 || s.buffer[from - 1] == ' '
    ensures var t := Handled(g, s, Ctrl('w'), binding, source);
      if i == 0 then t == s else Leaves(s, t, source, s.buffer[..from] + s.buffer[i..], Offset(s.buffer, from))
    ensures EventOf(g, s, Ctrl('w'), binding) == if i == 0 then None else Some(BufferChanged)
  {
    CursorAt(s, i);
    NothingInserted(KillWord);
    mid := TrimmedLen(s.buffer, i);
    from := AfterLastSpace(s.buffer, mid);
    TrimmedIsSpace(s.buffer, i);
    NoSpaceAfter(s.buffer, mid);
    EditKey(g, s, Ctrl('w'), KillWord, binding, source);
    hide WellFormed, Offset, Here, Step, Handled, EventOf, Answer, Leaves, IsSpace, TrimmedLen, AfterLastSpace;
    if i > 0 {
      EditLeaves(g, s, KillWord, false, source, from, i);
      assert s.buffer[..from] + "" + s.buffer[i..] == s.buffer[..from] + s.buffer[i..];
    }
  }

  // ---- History keys ---------------------------------------------------------

  /** An older line is shown: the newest one from the draft, which is kept behind
      the others, else the one before. On the oldest nothing changes. */
  ghost predicate ShowsOlder(s: State, t: State)
    requires NavFits(s.nav)
  {
    && t.inputHistory == s.inputHistory
    && match s.nav
       case None =>
         var n := |s.inputHistory|;
         if n == 0 then t.buffer == s.buffer && t.nav.None?
         else t.buffer == s.inputHistory[n - 1] && t.nav == Some(Nav(s.inputHistory + [s.buffer], n - 1))
       case Some(Nav(entries, index)) =>
         if index == 0 then t.buffer == s.buffer && t.nav == s.nav
         else t.buffer == entries[index - 1] && t.nav == Some(Nav(entries, index - 1))
  }

  /** A newer line is shown; past the last one, which is the draft, and from the
      draft itself, the draft is filed unless it is empty. */
  ghost predicate ShowsNewer(s: State, t: State)
    requires NavFits(s.nav)
  {
    match s.nav
    case None =>
      && t.nav.None? && t.buffer == ""
      && t.inputHistory == if s.buffer == "" then s.inputHistory else s.inputHistory + [s.buffer]
    case Some(Nav(entries, index)) =>
      if index + 1 < |entries| then
        t.buffer == entries[index + 1] && t.nav == Some(Nav(entries, index + 1)) && t.inputHistory == s.inputHistory
      else
        var draft := entries[|entries| - 1];
        && t.nav.None? && t.buffer == (if draft == "" then s.buffer else "")
        && t.inputHistory == if draft == "" then s.inputHistory else s.inputHistory + [draft]
  }

  lemma SteppedShows(g: Glyphs, s: State)
    requires NavFits(s.nav)
    ensures ShowsOlder(s, Stepped(g, s, true)) && ShowsNewer(s, Stepped(g, s, false))
  {
    hide Stepped;
    SteppedTurnsBook(g, s, true);
    SteppedTurnsBook(g, s, false);
  }

  /** Ctrl-K and Ctrl-Up show the older line, Ctrl-J and Ctrl-Down the newer one;
      the menu is closed and a change reported. */
  lemma HistoryKeys(g: Glyphs, s: State, source: Option<Source>)
    requires WellFormed(s)
    ensures forall key :: key in {Ctrl('k'), CtrlArrow(true)} ==>
      && ShowsOlder(s, Handled(g, s, key, None, source)) && Handled(g, s, key, None, source).menu.None?
      && EventOf(g, s, key, None) == Some(BufferChanged)
    ensures forall key :: key in {Ctrl('j'), CtrlArrow(false)} ==>
      && ShowsNewer(s, Handled(g, s, key, None, source)) && Handled(g, s, key, None, source).menu.None?
      && EventOf(g, s, key, None) == Some(BufferChanged)
  {
    hide Stepped, CursorFits, MenuFits, ShowsOlder, ShowsNewer;
    var closed := s.(menu := None);
    SteppedShows(g, closed);
    SteppedClosed(g, closed, true);
    SteppedClosed(g, closed, false);
    MenuDoesNotMatter(s, Stepped(g, closed, true), Stepped(g, closed, false));
  }

  lemma MenuDoesNotMatter(s: State, older: State, newer: State)
    requires NavFits(s.nav)
    ensures ShowsOlder(s.(menu := None), older) <==> ShowsOlder(s, older)
    ensures ShowsNewer(s.(menu := None), newer) <==> ShowsNewer(s, newer)
  {
  }

  /** With no menu open an arrow key moves a row within the text, touching nothing
      but the cursor and the column it keeps, and beyond the text's first or last
      row steps through the history. */
  lemma ArrowKeys(g: Glyphs, s: State, up: bool, binding: Option<string>, source: Option<Source>)
    requires WellFormed(s) && !MenuOpen(s)
    ensures var t := Handled(g, s, ArrowKey(up), binding, source);
      var row := MoveVertical(LaidOut(s), g, s.cursor, if up then -1 else 1, TargetColumn(g, s));
      if row.Some? then t == s.(cursor := row.value, sticky := Some(TargetColumn(g, s)))
      else if up then ShowsOlder(s, t) else ShowsNewer(s, t)
    ensures var row := MoveVertical(LaidOut(s), g, s.cursor, if up then -1 else 1, TargetColumn(g, s));
      var moves := match s.nav
        case None => if up then s.inputHistory != [] else s.buffer != ""
        case Some(Nav(entries, index)) =>
          if up then 0 < index else index + 1 < |entries| || entries[|entries| - 1] != "";
      EventOf(g, s, ArrowKey(up), binding) == if row.Some? || moves then Some(BufferChanged) else None
  {
    hide Stepped, CursorFits, MenuFits, ShowsOlder, ShowsNewer, TargetCol, MoveVertical;
    var c := Captured(g, s);
    SteppedShows(g, c);
    ColumnDoesNotMatter(s, c.sticky, Stepped(g, c, true), Stepped(g, c, false));
  }

  lemma ColumnDoesNotMatter(s: State, sticky: Option<nat>, older: State, newer: State)
    requires NavFits(s.nav)
    ensures ShowsOlder(s.(sticky := sticky), older) <==> ShowsOlder(s, older)
    ensures ShowsNewer(s.(sticky := sticky), newer) <==> ShowsNewer(s, newer)
  {
  }

  // ---- Menu keys ------------------------------------------------------------

  /** The menu shows this selection: its candidate, cursor behind it, or the text
      and cursor the menu was opened on. */
  predicate Selects(s: State, t: State, selected: Option<nat>)
    requires s.menu.Some?
  {
    var m := s.menu.value;
    && (selected.Some? ==> selected.value < |m.candidates|)
    && var text := if selected.Some? then m.candidates[selected.value] else m.originalBuffer;
    var cursor := if selected.Some? then ByteLen(text) else m.originalCursor;
    t == s.(menu := Some(m.(selected := selected)), buffer := text, cursor := cursor, sticky := None)
  }

  function NextOf(m: Menu): Option<nat>
    requires m.candidates != []
  {
    if m.selected.None? || m.selected.value + 1 == |m.candidates| then Some(0) else Some(m.selected.value + 1)
  }

  function PreviousOf(m: Menu): Option<nat>
    requires m.candidates != []
  {
    if m.selected.None? then Some(|m.candidates| - 1)
    else if m.selected.value == 0 then None else Some(m.selected.value - 1)
  }

  lemma CycledSelects(s: State)
    requires WellFormed(s) && MenuOpen(s)
    ensures Selects(s, Cycled(s, true), NextOf(s.menu.value))
    ensures Selects(s, Cycled(s, false), PreviousOf(s.menu.value))
  {
    hide CursorFits, ByteLen;
    if s.menu.value.selected.Some? {
      AroundMenu(s.menu.value.selected.value, |s.menu.value.candidates|);
    }
  }

  lemma MenuKeyCycles(g: Glyphs, s: State, key: Key, binding: Option<string>, source: Option<Source>)
    requires MenuOpen(s) && key in {Tab, BackTab, ArrowKey(true), ArrowKey(false)}
    ensures Handled(g, s, key, binding, source) == Cycled(s, key in {Tab, ArrowKey(false)})
    ensures EventOf(g, s, key, binding) == Some(BufferChanged)
  {
    hide Cycled, Stepped, MoveVertical, TargetCol, Edited, Answer;
  }

  /** Tab and Down select the next candidate, from the last one the first; BackTab
      and Up the one before, from the first none, and from none the last. */
  lemma MenuKeys(g: Glyphs, s: State, key: Key, binding: Option<string>, source: Option<Source>)
    requires WellFormed(s) && MenuOpen(s)
    ensures key in {Tab, ArrowKey(false)} ==>
      Selects(s, Handled(g, s, key, binding, source), NextOf(s.menu.value))
    ensures key in {BackTab, ArrowKey(true)} ==>
      Selects(s, Handled(g, s, key, binding, source), PreviousOf(s.menu.value))
    ensures key in {Tab, BackTab, ArrowKey(true), ArrowKey(false)} ==>
      EventOf(g, s, key, binding) == Some(BufferChanged)
  {
    hide Handled, EventOf, Cycled, Selects;
    CycledSelects(s);
    if key in {Tab, BackTab, ArrowKey(true), ArrowKey(false)} {
      MenuKeyCycles(g, s, key, binding, source);
    }
  }

  lemma AroundMenu(i: nat, n: nat)
    requires i < n
    ensures (i + 1) % n == if i + 1 == n then 0 else i + 1
    ensures 0 < i ==> (i + n - 1) % n == i - 1
  {
    if 0 < i {
      assert i + n - 1 == n + (i - 1);
    }
  }

  /** With no menu open Tab does nothing and BackTab only reports itself. */
  lemma ClosedMenuKeys(g: Glyphs, s: State, binding: Option<string>, source: Option<Source>)
    requires !MenuOpen(s)
    ensures Handled(g, s, Tab, binding, source) == s && EventOf(g, s, Tab, binding) == None
    ensures Handled(g, s, BackTab, binding, source) == s && EventOf(g, s, BackTab, binding) == Some(BackTabPressed)
  {
    hide Answer, Edited, ArrowChanges, Stepped, MoveVertical, TargetCol, CalledAll;
  }

  /** Esc closes the menu, and takes back the candidate shown, if one is. */
  lemma EscKey(g: Glyphs, s: State, binding: Option<string>, source: Option<Source>)
    ensures var t := Handled(g, s, Esc, binding, source);
      if s.menu.None? then t == s
      else if s.menu.value.selected.None? then t == s.(menu := None)
      else t == s.(menu := None, buffer := s.menu.value.originalBuffer, cursor := s.menu.value.originalCursor,
                   sticky := None)
    ensures EventOf(g, s, Esc, binding) == if s.menu.None? then None else Some(BufferChanged)
  {
    hide Answer, Edited, ArrowChanges, Stepped, MoveVertical, TargetCol, Cycled, CalledAll;
  }

  // ---- Enter and control keys -----------------------------------------------

  /** Enter on a candidate shown keeps it and closes the menu; otherwise it files
      the line, unless it is empty, and leaves an empty prompt. */
  lemma EnterKey(g: Glyphs, s: State, binding: Option<string>, source: Option<Source>)
    requires WellFormed(s)
    ensures var t := Handled(g, s, PlainEnter, binding, source);
      if s.menu.Some? && s.menu.value.selected.Some? then
        t == s.(menu := None) && EventOf(g, s, PlainEnter, binding) == Some(CompletionAccept)
      else
        && t.buffer == "" && t.cursor == 0 && t.menu.None? && t.nav.None?
        && t.inputHistory == (if s.buffer == "" then s.inputHistory else s.inputHistory + [s.buffer])
        && EventOf(g, s, PlainEnter, binding) == Some(Line(s.buffer))
  {
    hide ArrowChanges, Edited, Step, WellFormed;
    if !Previewing(s) {
      SubmittedLineIsFiled(g, s, PlainEnter, binding, source, s.buffer);
    } else {
      AcceptedStays(g, s);
    }
  }

  lemma AcceptedStays(g: Glyphs, s: State)
    requires Previewing(s)
    ensures Step(g, s, Enter([])) == s.(menu := None)
  {
  }

  /** Ctrl-C clears the line, and on an empty one ends the input, as Ctrl-D does;
      Ctrl-D on a line does nothing. Neither touches the history. */
  lemma InterruptKeys(g: Glyphs, s: State, binding: Option<string>, source: Option<Source>)
    ensures Handled(g, s, Ctrl('c'), binding, source) ==
      if s.buffer == "" then s else s.(buffer := "", cursor := 0, sticky := None, nav := None, menu := None)
    ensures EventOf(g, s, Ctrl('c'), binding) == Some(if s.buffer == "" then Eof else BufferChanged)
    ensures Handled(g, s, Ctrl('d'), binding, source) == s
    ensures EventOf(g, s, Ctrl('d'), binding) == if s.buffer == "" then Some(Eof) else None
  {
    hide Answer, Edited, ArrowChanges, Stepped, MoveVertical, TargetCol, Cycled, CalledAll;
  }

  /** A bound key reports its action and does nothing else; Ctrl-A, C, D, E, U and
      W cannot be bound. Unbound, Ctrl-G and Ctrl-O ask for the external editor,
      and every other control key is ignored. */
  lemma BoundKeys(g: Glyphs, s: State, c: char, action: string, source: Option<Source>)
    ensures Handled(g, s, Char(c), Some(action), source) == s
    ensures EventOf(g, s, Char(c), Some(action)) == Some(Bound(action))
    ensures c !in {'a', 'c', 'd', 'e', 'u', 'w'} ==>
      Handled(g, s, Ctrl(c), Some(action), source) == s && EventOf(g, s, Ctrl(c), Some(action)) == Some(Bound(action))
    ensures c in {'a', 'c', 'd', 'e', 'u', 'w'} ==>
      && Handled(g, s, Ctrl(c), Some(action), source) == Handled(g, s, Ctrl(c), None, source)
      && EventOf(g, s, Ctrl(c), Some(action)) == EventOf(g, s, Ctrl(c), None)
    ensures c in {'g', 'o'} ==>
      Handled(g, s, Ctrl(c), None, source) == s && EventOf(g, s, Ctrl(c), None) == Some(ExternalEditor)
    ensures c !in {'a', 'c', 'd', 'e', 'u', 'w', 'g', 'o', 'j', 'k'} ==>
      Handled(g, s, Ctrl(c), None, source) == s && EventOf(g, s, Ctrl(c), None) == None
    ensures Handled(g, s, OtherKey, None, source) == s && EventOf(g, s, OtherKey, None) == None
  {
    hide Step, Edited, ArrowChanges, Answer;
  }

  /** Setting the buffer from outside replaces the text, closes whatever is open,
      forgets the column, and keeps the cursor inside the text. */
  lemma SettingTheBuffer(s: State, text: string, cursor: nat)
    ensures Called(s, SetBuffer(text, cursor)) ==
      s.(buffer := text, cursor := if cursor <= ByteLen(text) then cursor else ByteLen(text), sticky := None,
         nav := None, menu := None)
  {
  }

  /** A resize keeps all but the width; a change of completion source closes the menu. */
  lemma ResizeAndSource(g: Glyphs, s: State, width: nat, present: bool)
    ensures Step(g, s, Resize(width)) == s.(width := width)
    ensures Step(g, s, SetSource(present)) == s.(hasSource := present, menu := None)
    ensures Step(g, s, Outside(SetLeftPrompt(width))) == s.(promptCols := width)
  {
    hide Edited, Refreshed, PressedEnter, Vertical, HistoryStep, Moved, Cycled;
  }
}
