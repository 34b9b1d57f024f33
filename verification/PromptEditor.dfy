/**
 The prompt editor as a state machine: text edits, the completion menu,
 history navigation and the sticky column. An edit is followed by a refresh of
 the menu that lets go of the lock while it asks for candidates, so calls from
 other threads may come in between.
 */
module PromptEditor {
  import opened Basics
  import opened Utf8Text
  import opened PromptGeometry

  // ---- State ----------------------------------------------------------------

  /** `entries` is the input history followed by the draft; edits change the entry at `index`. */
  datatype Nav = Nav(entries: seq<string>, index: nat)

  /** Candidates are given by the text each would put in the buffer. */
  datatype Menu = Menu(candidates: seq<string>, selected: Option<nat>, originalBuffer: string, originalCursor: nat)

  datatype State = State(
    buffer: string, cursor: nat, sticky: Option<nat>, inputHistory: seq<string>, nav: Option<Nav>, menu: Option<Menu>,
    width: nat, promptCols: nat, hasSource: bool)

  function LaidOut(s: State): Layout {
    Layout(s.buffer, s.width, s.promptCols)
  }

  function Blank(width: nat, promptCols: nat): State {
    State("", 0, None, [], None, None, width, promptCols, false)
  }

  // ---- Editing --------------------------------------------------------------

  /** Moves the cursor and forgets the sticky column. */
  function WriteCursor(s: State, cursor: nat): State {
    s.(cursor := cursor, sticky := None)
  }

  /** Copies the buffer into the history entry being edited. */
  function Synced(s: State): State {
    if s.nav.Some? && s.nav.value.index < |s.nav.value.entries|
    then s.(nav := Some(s.nav.value.(entries := s.nav.value.entries[s.nav.value.index := s.buffer])))
    else s
  }

  /** The character the cursor is in front of. */
  function Here(s: State): (i: nat)
    ensures i <= |s.buffer|
  {
    CharsBefore(s.buffer, s.cursor)
  }

  /** The Unicode `White_Space` property. */
  predicate IsSpace(c: char) {
    var n := c as int;
    || 0x9 <= n <= 0xD || n == 0x20 || n == 0x85 || n == 0xA0 || n == 0x1680 || 0x2000 <= n <= 0x200A
    || n == 0x2028 || n == 0x2029 || n == 0x202F || n == 0x205F || n == 0x3000
  }

  function TrimmedLen(s: string, n: nat): (m: nat)
    requires n <= |s|
    ensures m <= n
  {
    if 0 < n && IsSpace(s[n - 1]) then TrimmedLen(s, n - 1) else n
  }

  /** One past the last ASCII space before `n`, or the start. */
  function AfterLastSpace(s: string, n: nat): (m: nat)
    requires n <= |s|
    ensures m <= n
  {
    if 0 < n && s[n - 1] != ' ' then AfterLastSpace(s, n - 1) else n
  }

  datatype Edit = Insert(text: string) | KillToStart | KillWord | Backspace | Delete

  predicate Changes(s: State, e: Edit) {
    match e
    case Insert(text) => text != ""
    case KillToStart => true
    case KillWord => 0 < s.cursor
    case Backspace => 0 < s.cursor
    case Delete => s.cursor < ByteLen(s.buffer)
  }

  /** The characters an edit removes, as a range of indices. */
  function Range(s: State, e: Edit): (r: (nat, nat))
    ensures r.0 <= r.1 <= |s.buffer|
  {
    var i := Here(s);
    match e
    case Insert(_) => (i, i)
    case KillToStart => (0, i)
    case KillWord => (AfterLastSpace(s.buffer, TrimmedLen(s.buffer, i)), i)
    case Backspace => (if i == 0 then 0 else i - 1, i)
    case Delete => (i, if i < |s.buffer| then i + 1 else i)
  }

  function Inserted(e: Edit): string {
    if e.Insert? then e.text else ""
  }

  function Replaced(text: string, from: nat, to: nat, inserted: string): string
    requires from <= to <= |text|
  {
    text[..from] + inserted + text[to..]
  }

  function Edited(s: State, e: Edit): State {
    var (from, to) := Range(s, e);
    var cursor := Offset(s.buffer, from) + ByteLen(Inserted(e));
    Synced(WriteCursor(s.(buffer := Replaced(s.buffer, from, to, Inserted(e))), cursor))
  }

  datatype Motion = Left | Right | Home | End

  function Moved(s: State, m: Motion): State {
    match m
    case Left => if 0 < s.cursor then WriteCursor(s, Offset(s.buffer, if Here(s) == 0 then 0 else Here(s) - 1)) else s
    case Right =>
      if s.cursor < ByteLen(s.buffer)
      then WriteCursor(s, Offset(s.buffer, if Here(s) < |s.buffer| then Here(s) + 1 else Here(s))) else s
    case Home => WriteCursor(s, 0)
    case End => WriteCursor(s, ByteLen(s.buffer))
  }

  // ---- Completion -----------------------------------------------------------

  function NextSelected(selected: Option<nat>, n: nat, forward: bool): Option<nat>
    requires 0 < n
  {
    match selected
    case None => Some(if forward then 0 else n - 1)
    case Some(i) => if i == 0 && !forward then None else Some((if forward then i + 1 else i + n - 1) % n)
  }

  /** What the buffer shows while the menu is open. */
  function Shown(m: Menu): string {
    if m.selected.Some? && m.selected.value < |m.candidates| then m.candidates[m.selected.value] else m.originalBuffer
  }

  predicate MenuOpen(s: State) {
    s.menu.Some? && s.menu.value.candidates != []
  }

  function Cycled(s: State, forward: bool): State {
    if !MenuOpen(s) then s else
      var m := s.menu.value;
      var next := m.(selected := NextSelected(m.selected, |m.candidates|, forward));
      WriteCursor(s.(menu := Some(next), buffer := Shown(next)),
                  if next.selected.Some? then ByteLen(Shown(next)) else m.originalCursor)
  }

  predicate Previewing(s: State) {
    s.menu.Some? && s.menu.value.selected.Some?
  }

  function Dismissed(s: State): State {
    if Previewing(s)
    then WriteCursor(s.(menu := None, buffer := s.menu.value.originalBuffer), s.menu.value.originalCursor)
    else s.(menu := None)
  }

  // ---- History --------------------------------------------------------------

  /** A non-empty line goes onto the history and leaves a fresh prompt. */
  function Pushed(s: State, line: string): State {
    if line == "" then s else WriteCursor(s.(inputHistory := s.inputHistory + [line], buffer := ""), 0)
  }

  function TargetColumn(g: Glyphs, s: State): nat {
    TargetCol(LaidOut(s), g, Caret(s.cursor, s.sticky))
  }

  /** Fixes the sticky column at the cursor's unless one is set. */
  function Captured(g: Glyphs, s: State): State {
    s.(sticky := Some(TargetColumn(g, s)))
  }

  /** Shows an entry with the cursor on its last or first visual row. */
  function Recalled(g: Glyphs, s: State, text: string, lastRow: bool, col: nat): State {
    var shown := s.(buffer := text);
    var row := if lastRow then EndPos(LaidOut(shown), g).row else 0;
    shown.(cursor := Offset(text, Seek(LaidOut(shown), g, Pos(row, col))))
  }

  function Entered(g: Glyphs, s: State, col: nat): State {
    if s.inputHistory == [] then s else
      var entries := s.inputHistory + [s.buffer];
      Recalled(g, s, entries[|entries| - 2], true, col).(nav := Some(Nav(entries, |entries| - 2)))
  }

  function Advanced(g: Glyphs, s: State, back: bool, col: nat): State
    requires s.nav.Some?
  {
    var Nav(entries, index) := s.nav.value;
    if back && index == 0 then s
    else if !back && |entries| <= index + 1 then
      Pushed(s.(nav := None), if entries == [] then "" else entries[|entries| - 1])
    else
      var next := if back then index - 1 else index + 1;
      if |entries| <= next then s
      else Recalled(g, s, entries[next], back, col).(nav := Some(Nav(entries, next)))
  }

  function Stepped(g: Glyphs, s: State, back: bool): State {
    var c := Captured(g, s);
    var col := TargetColumn(g, s);
    if c.nav.Some? then Advanced(g, c, back, col)
    else if back then Entered(g, c, col)
    else Pushed(c, c.buffer)
  }

  /** A history step that is not an arrow key closes the menu first. */
  function HistoryStep(g: Glyphs, s: State, back: bool): State {
    Stepped(g, s.(menu := None), back)
  }

  /** An arrow key: the open menu, else a row within the buffer, else the history. */
  function Vertical(g: Glyphs, s: State, up: bool): State {
    if MenuOpen(s) then Cycled(s, !up) else
      var c := Captured(g, s);
      var row := MoveVertical(LaidOut(s), g, s.cursor, if up then -1 else 1, TargetColumn(g, s));
      if row.Some? then c.(cursor := row.value) else Stepped(g, c, up)
  }

  // ---- Enter, Ctrl-C, other threads -----------------------------------------

  /** Calls that do not come from the thread that reads keys. */
  datatype External = SetBuffer(text: string, cursor: nat) | SetLeftPrompt(cols: nat)

  function Called(s: State, e: External): State {
    match e
    case SetBuffer(text, cursor) =>
      WriteCursor(s.(buffer := text, nav := None, menu := None),
                  if cursor <= ByteLen(text) then cursor else ByteLen(text))
    case SetLeftPrompt(cols) => s.(promptCols := cols)
  }

  function CalledAll(s: State, es: seq<External>): State {
    if es == [] then s else Called(CalledAll(s, es[..|es| - 1]), es[|es| - 1])
  }

  /** Opens the menu the source offered for an earlier look at the buffer. */
  function Installed(s: State, answer: seq<string>, seen: string, seenCursor: nat): State {
    s.(menu := if answer == [] then None else Some(Menu(answer, None, seen, seenCursor)))
  }

  /** `before` comes in ahead of the look at the buffer, `after` ahead of the answer. */
  function Refreshed(s: State, before: seq<External>, answer: seq<string>, after: seq<External>): State {
    var looked := CalledAll(s, before);
    var later := CalledAll(looked, after);
    if s.hasSource then Installed(later, answer, looked.buffer, looked.cursor) else later
  }

  function Submitted(s: State): State {
    Pushed(s.(menu := None, nav := None, buffer := ""), s.buffer)
  }

  /** Enter accepts a preview by closing the menu, and otherwise submits the line. */
  function PressedEnter(s: State, between: seq<External>): State {
    if Previewing(s) then s.(menu := None) else Submitted(CalledAll(s, between))
  }

  function Cleared(s: State): State {
    if s.buffer == "" then s else WriteCursor(s.(buffer := "", nav := None, menu := None), 0)
  }

  datatype Action =
    | Change(edit: Edit, closesMenu: bool, before: seq<External>, answer: seq<string>, after: seq<External>)
    | Enter(between: seq<External>)
    | Clear
    | Move(motion: Motion)
    | Arrow(up: bool)
    | Cycle(forward: bool)
    | Dismiss
    | History(back: bool)
    | Outside(call: External)
    | Resize(width: nat)
    | SetSource(present: bool)

  function Step(g: Glyphs, s: State, a: Action): State {
    match a
    case Change(edit, closesMenu, before, answer, after) =>
      if Changes(s, edit)
      then Refreshed(Edited(if closesMenu then s.(menu := None) else s, edit), before, answer, after) else s
    case Enter(between) => PressedEnter(s, between)
    case Clear => Cleared(s)
    case Move(motion) => Moved(s, motion)
    case Arrow(up) => Vertical(g, s, up)
    case Cycle(forward) => Cycled(s, forward)
    case Dismiss => Dismissed(s)
    case History(back) => HistoryStep(g, s, back)
    case Outside(call) => Called(s, call)
    case Resize(width) => s.(width := width)
    case SetSource(present) => s.(hasSource := present, menu := None)
  }

  function Run(g: Glyphs, s: State, actions: seq<Action>): State {
    if actions == [] then s else Step(g, Run(g, s, actions[..|actions| - 1]), actions[|actions| - 1])
  }
}
