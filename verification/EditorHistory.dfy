/**
 History navigation: what was typed on a recalled line stays there, steps can be
 retraced, and submitted lines are never lost. Which line a step shows does not
 depend on where the cursor is, so steps are followed on the text alone.
 */
module EditorHistory {
  import opened Basics
  import opened PromptGeometry
  import opened PromptEditor
  import opened EditorInvariants
  import opened EditorProperties

  // ---- The text of a history step -------------------------------------------

  datatype Book = Book(buffer: string, inputHistory: seq<string>, nav: Option<Nav>)

  function BookOf(s: State): Book {
    Book(s.buffer, s.inputHistory, s.nav)
  }

  function Filed(b: Book, line: string): Book {
    if line == "" then b else Book("", b.inputHistory + [line], b.nav)
  }

  function Turned(b: Book, back: bool): Book {
    match b.nav
    case None =>
      if !back then Filed(b, b.buffer)
      else if b.inputHistory == [] then b
      else
        var n := |b.inputHistory|;
        Book(b.inputHistory[n - 1], b.inputHistory, Some(Nav(b.inputHistory + [b.buffer], n - 1)))
    case Some(Nav(entries, index)) =>
      if back && index == 0 then b
      else if !back && |entries| <= index + 1 then
        Filed(b.(nav := None), if entries == [] then "" else entries[|entries| - 1])
      else
        var next := if back then index - 1 else index + 1;
        if |entries| <= next then b else Book(entries[next], b.inputHistory, Some(Nav(entries, next)))
  }

  lemma SteppedTurnsBook(g: Glyphs, s: State, back: bool)
    ensures BookOf(Stepped(g, s, back)) == Turned(BookOf(s), back)
  {
    var c, col := Captured(g, s), TargetColumn(g, s);
    hide Recalled, TargetColumn;
    forall text, lastRow ensures Recalled(g, c, text, lastRow, col).buffer == text
        && Recalled(g, c, text, lastRow, col).inputHistory == c.inputHistory
    {
      RecallTouchesCaret(g, c, text, lastRow, col);
    }
  }

  lemma StepTurnsBook(g: Glyphs, s: State, back: bool)
    ensures BookOf(HistoryStep(g, s, back)) == Turned(BookOf(s), back)
  {
    hide Stepped, Turned;
    SteppedTurnsBook(g, s.(menu := None), back);
  }

  function HistorySteps(g: Glyphs, s: State, backs: seq<bool>): State {
    if backs == [] then s else HistoryStep(g, HistorySteps(g, s, backs[..|backs| - 1]), backs[|backs| - 1])
  }

  function Turns(b: Book, backs: seq<bool>): Book {
    if backs == [] then b else Turned(Turns(b, backs[..|backs| - 1]), backs[|backs| - 1])
  }

  lemma {:induction false} StepsTurnBook(g: Glyphs, s: State, backs: seq<bool>)
    ensures BookOf(HistorySteps(g, s, backs)) == Turns(BookOf(s), backs)
  {
    hide HistoryStep, Turned, BookOf;
    if backs != [] {
      StepsTurnBook(g, s, backs[..|backs| - 1]);
      StepTurnsBook(g, HistorySteps(g, s, backs[..|backs| - 1]), backs[|backs| - 1]);
    }
  }

  lemma {:induction false} TurnsJoin(b: Book, x: seq<bool>, y: seq<bool>)
    ensures Turns(b, x + y) == Turns(Turns(b, x), y)
  {
    hide Turned;
    if y == [] {
      assert x + y == x;
    } else {
      TurnsJoin(b, x, y[..|y| - 1]);
      assert (x + y)[..|x + y| - 1] == x + y[..|y| - 1];
    }
  }

  // ---- Walks within the entries ---------------------------------------------

  /** Forward steps less backward ones. */
  function Net(backs: seq<bool>): int {
    if backs == [] then 0 else Net(backs[..|backs| - 1]) + if backs[|backs| - 1] then -1 else 1
  }

  /** No step tries to leave the `n` entries. */
  predicate StaysWithin(index: nat, n: nat, backs: seq<bool>) {
    0 <= index + Net(backs) < n && (backs != [] ==> StaysWithin(index, n, backs[..|backs| - 1]))
  }

  predicate Shows(b: Book, entries: seq<string>, index: nat) {
    index < |entries| && b.nav == Some(Nav(entries, index)) && b.buffer == entries[index]
  }

  /** Walking among the entries changes none of them. */
  lemma {:induction false} WalkShowsEntries(b: Book, entries: seq<string>, index: nat, backs: seq<bool>)
    requires Shows(b, entries, index) && StaysWithin(index, |entries|, backs)
    ensures var t := Turns(b, backs);
      Shows(t, entries, index + Net(backs)) && t.inputHistory == b.inputHistory
  {
    if backs != [] {
      WalkShowsEntries(b, entries, index, backs[..|backs| - 1]);
    }
  }

  // ---- What was typed stays -------------------------------------------------

  /** Each state of the run has the navigation open. */
  ghost predicate StaysOpen(g: Glyphs, s: State, actions: seq<Action>) {
    Run(g, s, actions).nav.Some? && (actions != [] ==> StaysOpen(g, s, actions[..|actions| - 1]))
  }

  predicate Edits(s: State, a: Action) {
    a.Change? && Changes(s, a.edit)
  }

  /** The text entry `i` has after a run: what the buffer held after the last edit
      made there, or what the entry held at the start. */
  function LastTyped(g: Glyphs, s: State, actions: seq<Action>, i: nat): string
    requires s.nav.Some? && i < |s.nav.value.entries|
  {
    if actions == [] then s.nav.value.entries[i] else
      var earlier, a := actions[..|actions| - 1], actions[|actions| - 1];
      var here := Run(g, s, earlier);
      if Edits(here, a) && here.nav.Some? && here.nav.value.index == i
      then Step(g, here, a).buffer else LastTyped(g, s, earlier, i)
  }

  lemma {:induction false} CallsKeepOpenText(s: State, es: seq<External>)
    requires CalledAll(s, es).nav.Some?
    ensures CalledAll(s, es).buffer == s.buffer && CalledAll(s, es).nav == s.nav
    ensures CalledAll(s, es).inputHistory == s.inputHistory
  {
    if es != [] {
      CallsKeepOpenText(s, es[..|es| - 1]);
    }
  }

  /** What a step that leaves the navigation open does to the entries. */
  ghost predicate OnEntries(b: Book, edits: bool, t: Book)
    requires b.nav.Some? && NavFits(b.nav) && t.nav.Some?
  {
    var Nav(entries, index) := b.nav.value;
    && NavFits(t.nav) && t.inputHistory == b.inputHistory
    && t.nav.value.entries == (if edits then entries[index := t.buffer] else entries)
    && (edits ==> t.nav.value.index == index)
    && (t.nav.value.index != index ==> t.buffer == entries[t.nav.value.index])
  }

  lemma TurnOnEntries(b: Book, back: bool)
    requires b.nav.Some? && NavFits(b.nav) && Turned(b, back).nav.Some?
    ensures OnEntries(b, false, Turned(b, back))
  {
  }

  lemma EditOnEntries(s: State, e: Edit)
    requires s.nav.Some? && NavFits(s.nav)
    ensures Edited(s, e).nav.Some? && OnEntries(BookOf(s), true, BookOf(Edited(s, e)))
  {
    hide Range, Replaced, Inserted;
  }

  lemma StepOnEntries(g: Glyphs, s: State, a: Action)
    requires s.nav.Some? && NavFits(s.nav) && Step(g, s, a).nav.Some?
    ensures OnEntries(BookOf(s), Edits(s, a), BookOf(Step(g, s, a)))
  {
    match a
    case Change(edit, closesMenu, before, answer, after) =>
      hide Edited, Changes, CalledAll;
      if Changes(s, edit) {
        var from := if closesMenu then s.(menu := None) else s;
        var edited := Edited(from, edit);
        EditOnEntries(from, edit);
        CallsKeepOpenText(CalledAll(edited, before), after);
        CallsKeepOpenText(edited, before);
      }
    case Enter(between) =>
      hide CalledAll;
    case Arrow(up) =>
      hide Stepped, TargetColumn, MoveVertical, Turned;
      if !MenuOpen(s) {
        SteppedTurnsBook(g, Captured(g, s), up);
        if Turned(BookOf(s), up).nav.Some? {
          TurnOnEntries(BookOf(s), up);
        }
      }
    case History(back) =>
      hide HistoryStep, Turned;
      StepTurnsBook(g, s, back);
      TurnOnEntries(BookOf(s), back);
    case _ =>
  }

  /** Whatever is pressed and called while the navigation stays open, every entry
      holds what was last typed there, and the input history does not change. */
  lemma {:induction false} EntriesHoldLastTyped(g: Glyphs, s: State, actions: seq<Action>)
    requires s.nav.Some? && NavFits(s.nav) && StaysOpen(g, s, actions)
    ensures var t := Run(g, s, actions);
      && NavFits(t.nav) && t.inputHistory == s.inputHistory
      && |t.nav.value.entries| == |s.nav.value.entries|
      && forall i :: 0 <= i < |t.nav.value.entries| ==> t.nav.value.entries[i] == LastTyped(g, s, actions, i)
  {
    hide Step, Edits;
    if actions != [] {
      EntriesHoldLastTyped(g, s, actions[..|actions| - 1]);
      StepOnEntries(g, Run(g, s, actions[..|actions| - 1]), actions[|actions| - 1]);
    }
  }

  /** A step that lands on another entry shows what was last typed there. */
  lemma LandingShowsLastTyped(g: Glyphs, s: State, actions: seq<Action>, a: Action)
    requires s.nav.Some? && NavFits(s.nav) && StaysOpen(g, s, actions)
    ensures var t := Run(g, s, actions);
      var t' := Step(g, t, a);
      t'.nav.Some? && t'.nav.value.index != t.nav.value.index ==>
        t'.nav.value.index < |s.nav.value.entries| && t'.buffer == LastTyped(g, s, actions, t'.nav.value.index)
  {
    hide Step, Edits, LastTyped, Run;
    EntriesHoldLastTyped(g, s, actions);
    var t := Run(g, s, actions);
    if Step(g, t, a).nav.Some? {
      StepOnEntries(g, t, a);
    }
  }

  // ---- Browsing: edits, cursor keys and history steps -----------------------

  /** Not Enter, Ctrl-C, the menu keys, or another thread setting the buffer. */
  predicate Browses(a: Action) {
    match a
    case Change(_, _, before, _, after) => AllPrompts(before) && AllPrompts(after)
    case Outside(call) => call.SetLeftPrompt?
    case _ => a.Move? || a.History? || a.Resize? || a.SetSource?
  }

  /** History steps forward less those backward. */
  function Shift(actions: seq<Action>): int {
    if actions == [] then 0 else
      var a := actions[|actions| - 1];
      Shift(actions[..|actions| - 1]) + if a.History? then (if a.back then -1 else 1) else 0
  }

  /** No history step tries to leave the `n` entries. */
  predicate Browsing(index: nat, n: nat, actions: seq<Action>) {
    && 0 <= index + Shift(actions) < n
    && (actions != [] ==>
          Browses(actions[|actions| - 1]) && Browsing(index, n, actions[..|actions| - 1]))
  }

  /** No edit is made at entry `i`. */
  predicate LeavesAlone(index: nat, actions: seq<Action>, i: nat) {
    actions != [] ==>
      var earlier := actions[..|actions| - 1];
      LeavesAlone(index, earlier, i) && (actions[|actions| - 1].Change? ==> index + Shift(earlier) != i)
  }

  ghost predicate AtEntry(s: State) {
    s.nav.Some? && Shows(BookOf(s), s.nav.value.entries, s.nav.value.index)
  }

  lemma EditedAtEntry(s: State, e: Edit)
    requires s.nav.Some? && NavFits(s.nav)
    ensures var t, Nav(entries, index) := Edited(s, e), s.nav.value;
      AtEntry(t) && t.nav.value == Nav(entries[index := t.buffer], index) && t.inputHistory == s.inputHistory
  {
    hide Edited;
    EditOnEntries(s, e);
  }

  lemma BrowseEdit(
    g: Glyphs, s: State, edit: Edit, closesMenu: bool, before: seq<External>, answer: seq<string>, after: seq<External>)
    requires AtEntry(s) && AllPrompts(before) && AllPrompts(after)
    ensures var t := Step(g, s, Change(edit, closesMenu, before, answer, after));
      AtEntry(t) && t.nav.value.index == s.nav.value.index
  {
    hide Edited, Changes, CalledAll;
    if Changes(s, edit) {
      var from := if closesMenu then s.(menu := None) else s;
      var edited := Edited(from, edit);
      EditedAtEntry(from, edit);
      PromptsOnly(edited, before);
      PromptsOnly(CalledAll(edited, before), after);
      var t := Step(g, s, Change(edit, closesMenu, before, answer, after));
      assert BookOf(t).nav == edited.nav && BookOf(t).buffer == edited.buffer;
    }
  }

  lemma BrowseStep(g: Glyphs, s: State, a: Action)
    requires AtEntry(s) && Browses(a) && 0 <= s.nav.value.index + Shift([a]) < |s.nav.value.entries|
    ensures AtEntry(Step(g, s, a)) && Step(g, s, a).nav.value.index == s.nav.value.index + Shift([a])
  {
    assert Shift([a][..0]) == 0;
    match a
    case Change(edit, closesMenu, before, answer, after) =>
      hide Step;
      BrowseEdit(g, s, edit, closesMenu, before, answer, after);
    case History(back) =>
      hide HistoryStep;
      StepTurnsBook(g, s, back);
    case _ =>
  }

  /** Browsing stays open and always shows what was last typed at its entry. */
  lemma {:induction false} BrowsingShowsLastTyped(g: Glyphs, s: State, actions: seq<Action>)
    requires AtEntry(s) && Browsing(s.nav.value.index, |s.nav.value.entries|, actions)
    ensures var t := Run(g, s, actions);
      var at := s.nav.value.index + Shift(actions);
      && StaysOpen(g, s, actions) && AtEntry(t) && t.inputHistory == s.inputHistory
      && |t.nav.value.entries| == |s.nav.value.entries|
      && t.nav.value.index == at && t.buffer == LastTyped(g, s, actions, at)
  {
    hide Step, Browses, LastTyped;
    if actions != [] {
      var earlier, a := actions[..|actions| - 1], actions[|actions| - 1];
      BrowsingShowsLastTyped(g, s, earlier);
      assert [a][..0] == [];
      BrowseStep(g, Run(g, s, earlier), a);
    }
    EntriesHoldLastTyped(g, s, actions);
  }

  lemma {:induction false} LeftAloneIsKept(g: Glyphs, s: State, actions: seq<Action>, i: nat)
    requires AtEntry(s) && Browsing(s.nav.value.index, |s.nav.value.entries|, actions)
    requires i < |s.nav.value.entries| && LeavesAlone(s.nav.value.index, actions, i)
    ensures LastTyped(g, s, actions, i) == s.nav.value.entries[i]
  {
    hide Step, Browses;
    if actions != [] {
      var earlier := actions[..|actions| - 1];
      BrowsingShowsLastTyped(g, s, earlier);
      LeftAloneIsKept(g, s, earlier, i);
    }
  }

  /** An edit to a recalled line is there again whenever browsing comes back to it,
      whatever is typed elsewhere; and so is every other line left alone. */
  lemma TypedEditReappears(g: Glyphs, s: State, e: Edit, actions: seq<Action>)
    requires s.nav.Some? && NavFits(s.nav)
    requires Browsing(s.nav.value.index, |s.nav.value.entries|, actions)
    ensures var edited, index := Edited(s, e), s.nav.value.index;
      var t := Run(g, edited, actions);
      && t.nav.Some? && |t.nav.value.entries| == |s.nav.value.entries| && t.inputHistory == s.inputHistory
      && t.nav.value.index == index + Shift(actions)
      && (LeavesAlone(index, actions, index) ==> t.nav.value.entries[index] == edited.buffer)
      && (forall i :: 0 <= i < |t.nav.value.entries| && i != index && LeavesAlone(index, actions, i) ==>
            t.nav.value.entries[i] == s.nav.value.entries[i])
      && t.buffer == t.nav.value.entries[index + Shift(actions)]
  {
    hide Edited, Run, LastTyped, StaysOpen, LeavesAlone;
    var edited := Edited(s, e);
    EditedAtEntry(s, e);
    BrowsingShowsLastTyped(g, edited, actions);
    EntriesHoldLastTyped(g, edited, actions);
    forall i: nat | i < |s.nav.value.entries| && LeavesAlone(s.nav.value.index, actions, i)
      ensures LastTyped(g, edited, actions, i) == edited.nav.value.entries[i]
    {
      LeftAloneIsKept(g, edited, actions, i);
    }
  }

  /** A draft left by one step back shows what was last typed on it as soon as
      browsing comes forward to it again: itself, whatever was typed on recalled
      lines meanwhile. */
  lemma DraftReappears(g: Glyphs, s: State, actions: seq<Action>)
    requires s.nav.None? && s.inputHistory != []
    requires var n := |s.inputHistory|; Browsing(n - 1, n + 1, actions) && Shift(actions) == 1
    ensures var n, recalled := |s.inputHistory|, HistoryStep(g, s, true);
      var t := Run(g, recalled, actions);
      && AtEntry(recalled) && recalled.nav.value == Nav(s.inputHistory + [s.buffer], n - 1)
      && t.buffer == LastTyped(g, recalled, actions, n) && t.inputHistory == s.inputHistory
      && (LeavesAlone(n - 1, actions, n) ==> t.buffer == s.buffer)
  {
    var n, recalled := |s.inputHistory|, HistoryStep(g, s, true);
    hide HistoryStep, Run, LastTyped;
    StepTurnsBook(g, s, true);
    BrowsingShowsLastTyped(g, recalled, actions);
    if LeavesAlone(n - 1, actions, n) {
      LeftAloneIsKept(g, recalled, actions, n);
    }
  }

  // ---- Back and forth from the draft ----------------------------------------

  lemma RepeatInit(back: bool, k: nat)
    requires 0 < k
    ensures Repeat(back, k)[..k - 1] == Repeat(back, k - 1) && Repeat(back, k)[k - 1] == back
  {
  }

  /** The j-th step back shows the j-th newest line; more steps stay on the oldest. */
  lemma {:induction false} BackShows(b: Book, j: nat)
    requires b.nav.None? && 0 < j && b.inputHistory != []
    ensures var n := |b.inputHistory|;
      var t := Turns(b, Repeat(true, j));
      Shows(t, b.inputHistory + [b.buffer], if j <= n then n - j else 0) && t.inputHistory == b.inputHistory
  {
    RepeatInit(true, j);
    hide Repeat;
    if j == 1 {
      assert Repeat(true, 0) == [];
    } else {
      BackShows(b, j - 1);
    }
  }

  lemma {:induction false} ForthShows(b: Book, entries: seq<string>, index: nat, j: nat)
    requires Shows(b, entries, index) && index + j < |entries|
    ensures var t := Turns(b, Repeat(false, j));
      Shows(t, entries, index + j) && t.inputHistory == b.inputHistory
  {
    if j != 0 {
      RepeatInit(false, j);
      hide Repeat;
      ForthShows(b, entries, index, j - 1);
    }
  }

  lemma {:induction false} ForthOnlyAppends(b: Book, j: nat)
    ensures b.inputHistory <= Turns(b, Repeat(false, j)).inputHistory
  {
    if j != 0 {
      RepeatInit(false, j);
      hide Repeat;
      ForthOnlyAppends(b, j - 1);
    }
  }

  /** With an empty prompt, nothing more happens on the way forward. */
  lemma {:induction false} ForthRests(b: Book, j: nat)
    requires b.nav.None? && b.buffer == ""
    ensures Turns(b, Repeat(false, j)) == b
  {
    if j != 0 {
      RepeatInit(false, j);
      hide Repeat;
      ForthRests(b, j - 1);
    }
  }

  lemma {:induction false} RepeatSplit(back: bool, i: nat, j: nat)
    ensures Repeat(back, i + j) == Repeat(back, i) + Repeat(back, j)
  {
    if j != 0 {
      RepeatSplit(back, i, j - 1);
      assert Repeat(back, i + j) == Repeat(back, i + (j - 1)) + [back];
    }
  }

  lemma OneForth(b: Book)
    ensures Turns(b, Repeat(false, 1)) == Turned(b, false)
  {
    RepeatInit(false, 1);
    assert Repeat(false, 0) == [];
  }

  /** Going forward past the draft files it and leaves an empty prompt. */
  lemma ForthPastDraft(b: Book, entries: seq<string>, index: nat, j: nat)
    requires Shows(b, entries, index) && |entries| <= index + j
    ensures var t := Turns(b, Repeat(false, j));
      var draft := entries[|entries| - 1];
      if draft == "" then t == Book("", b.inputHistory, None) else b.inputHistory + [draft] <= t.inputHistory
  {
    hide Repeat, Turned, Turns;
    var k := |entries| - 1 - index;
    RepeatSplit(false, k, 1);
    RepeatSplit(false, k + 1, j - k - 1);
    TurnsJoin(b, Repeat(false, k), Repeat(false, 1));
    TurnsJoin(b, Repeat(false, k + 1), Repeat(false, j - k - 1));
    ForthShows(b, entries, index, k);
    var last := Turns(b, Repeat(false, k));
    OneForth(last);
    PastTheLast(last, entries);
    var past := Turns(b, Repeat(false, k + 1));
    if past.buffer == "" {
      ForthRests(past, j - k - 1);
    }
    ForthOnlyAppends(past, j - k - 1);
  }

  lemma PastTheLast(b: Book, entries: seq<string>)
    requires entries != [] && Shows(b, entries, |entries| - 1)
    ensures var draft := entries[|entries| - 1];
      Turned(b, false) == Book("", if draft == "" then b.inputHistory else b.inputHistory + [draft], None)
  {
  }

  lemma {:induction false} RetraceBook(b: Book, k: nat)
    requires b.nav.None?
    ensures var t := Turns(Turns(b, Repeat(true, k)), Repeat(false, k));
      (t.buffer == b.buffer && t.inputHistory == b.inputHistory) <==> (k <= |b.inputHistory| || b.buffer == "")
  {
    hide Repeat, Turned, Turns, Shows;
    var n := |b.inputHistory|;
    var entries := b.inputHistory + [b.buffer];
    if k == 0 {
      NoTurns(b);
    } else if n == 0 {
      BackStays(b, k);
      if b.buffer == "" {
        ForthRests(b, k);
      } else {
        RepeatSplit(false, 1, k - 1);
        TurnsJoin(b, Repeat(false, 1), Repeat(false, k - 1));
        OneForth(b);
        FilesBuffer(b);
        ForthOnlyAppends(Turned(b, false), k - 1);
      }
    } else {
      BackShows(b, k);
      var start := Turns(b, Repeat(true, k));
      if k <= n {
        ForthShows(start, entries, n - k, k);
        ShownIs(Turns(start, Repeat(false, k)), entries, n);
      } else {
        ForthPastDraft(start, entries, 0, k);
      }
    }
  }

  lemma NoTurns(b: Book)
    ensures Turns(Turns(b, Repeat(true, 0)), Repeat(false, 0)) == b
  {
  }

  lemma FilesBuffer(b: Book)
    requires b.nav.None? && b.buffer != ""
    ensures Turned(b, false).inputHistory == b.inputHistory + [b.buffer]
  {
  }

  lemma ShownIs(b: Book, entries: seq<string>, index: nat)
    requires Shows(b, entries, index)
    ensures b.buffer == entries[index]
  {
  }

  lemma {:induction false} BackStays(b: Book, k: nat)
    requires b.nav.None? && b.inputHistory == []
    ensures Turns(b, Repeat(true, k)) == b
  {
    if k != 0 {
      RepeatInit(true, k);
      hide Repeat;
      BackStays(b, k - 1);
    }
  }

  /** From the draft, as many steps forward as back restore the draft and leave
      the history alone exactly when the history is that long or the draft is
      empty; otherwise the draft ends up on the history. */
  lemma RetraceIff(g: Glyphs, s: State, k: nat)
    requires s.nav.None?
    ensures var t := HistorySteps(g, HistorySteps(g, s, Repeat(true, k)), Repeat(false, k));
      (t.buffer == s.buffer && t.inputHistory == s.inputHistory) <==> (k <= |s.inputHistory| || s.buffer == "")
  {
    hide HistorySteps, Turns, Repeat;
    var far := HistorySteps(g, s, Repeat(true, k));
    StepsTurnBook(g, s, Repeat(true, k));
    StepsTurnBook(g, far, Repeat(false, k));
    RetraceBook(BookOf(s), k);
  }

  // ---- Accepted previews ----------------------------------------------------

  predicate ShowsBut(b: Book, entries: seq<string>, index: nat) {
    index < |entries| && b.nav == Some(Nav(entries, index))
  }

  lemma StepIntoEntries(b: Book, entries: seq<string>, index: nat, back: bool)
    requires ShowsBut(b, entries, index)
    requires if back then 0 < index else index + 1 < |entries|
    ensures Shows(Turned(b, back), entries, if back then index - 1 else index + 1)
  {
  }

  /** Whatever the buffer shows, after one step within the entries it shows an entry. */
  lemma {:induction false} WalkFromAnything(b: Book, entries: seq<string>, index: nat, backs: seq<bool>)
    requires ShowsBut(b, entries, index) && backs != [] && StaysWithin(index, |entries|, backs)
    ensures Shows(Turns(b, backs), entries, index + Net(backs))
  {
    hide Turned;
    var init, last := backs[..|backs| - 1], backs[|backs| - 1];
    if init == [] {
      assert Net(init) == 0;
      StepIntoEntries(b, entries, index, last);
    } else {
      WalkFromAnything(b, entries, index, init);
      StepIntoEntries(Turns(b, init), entries, index + Net(init), last);
    }
  }

  lemma AcceptKeepsShown(g: Glyphs, s: State)
    requires InStep(s) && Previewing(s)
    ensures Step(g, s, Enter([])).buffer == Shown(s.menu.value) && Step(g, s, Enter([])).nav == s.nav
  {
  }

  lemma NavOf(s: State)
    requires WellFormed(s)
    ensures NavFits(s.nav)
  {
  }

  /** A candidate accepted while a recalled line is shown is not copied into the
      history entry: a walk away and back shows it again exactly when it happens
      to be what the entry already held. */
  lemma AcceptedPreviewSurvivesIff(g: Glyphs, s: State, backs: seq<bool>)
    requires WellFormed(s) && InStep(s) && Previewing(s) && s.nav.Some?
    requires backs != [] && StaysWithin(s.nav.value.index, |s.nav.value.entries|, backs) && Net(backs) == 0
    ensures var accepted := Step(g, s, Enter([]));
      var returned := HistorySteps(g, accepted, backs);
      && accepted.buffer == Shown(s.menu.value)
      && (returned.buffer == accepted.buffer
          <==> Shown(s.menu.value) == s.nav.value.entries[s.nav.value.index])
  {
    hide WellFormed, HistorySteps, Step, Turns, Net, StaysWithin, InStep, Shown;
    var accepted := Step(g, s, Enter([]));
    AcceptKeepsShown(g, s);
    assert NavFits(s.nav) by { NavOf(s); }
    StepsTurnBook(g, accepted, backs);
    WalkFromAnything(BookOf(accepted), s.nav.value.entries, s.nav.value.index, backs);
  }

  const RecallingRun: seq<Action> := [
    SetSource(true), Change(Insert("a"), false, [], [], []), Enter([]), History(true)]

  lemma RunOfFour(g: Glyphs, s: State, a: seq<Action>)
    requires |a| == 4
    ensures Run(g, s, a) == Step(g, Step(g, Step(g, Step(g, s, a[0]), a[1]), a[2]), a[3])
  {
    hide Step;
    assert a[..3][..2] == a[..2] && a[..2][..1] == a[..1] && a[..1][..0] == [];
    assert Run(g, s, a[..1]) == Step(g, s, a[0]);
    assert Run(g, s, a[..2]) == Step(g, Run(g, s, a[..1]), a[1]);
    assert Run(g, s, a[..3]) == Step(g, Run(g, s, a[..2]), a[2]);
  }

  /** Types a line, submits it and recalls it. */
  lemma RecallingRunRecalls(g: Glyphs)
    ensures var s := Run(g, Blank(80, 0), RecallingRun);
      s.hasSource && s.menu.None? && s.buffer == "a" && s.nav == Some(Nav(["a", ""], 0))
  {
    hide Run, Step;
    RunOfFour(g, Blank(80, 0), RecallingRun);
    TypedOnBlank(g);
    Recalls(g, Step(g, Step(g, Blank(80, 0), RecallingRun[0]), RecallingRun[1]));
  }

  lemma TypedOnBlank(g: Glyphs)
    ensures var t := Step(g, Step(g, Blank(80, 0), RecallingRun[0]), RecallingRun[1]);
      BookOf(t) == Book("a", [], None) && t.menu.None? && t.hasSource
  {
    var s := Step(g, Blank(80, 0), RecallingRun[0]);
    assert s == Blank(80, 0).(hasSource := true);
    assert CalledAll(Edited(s, Insert("a")), []) == Edited(s, Insert("a"));
  }

  lemma Recalls(g: Glyphs, s: State)
    requires BookOf(s) == Book("a", [], None) && s.menu.None? && s.hasSource
    ensures var t := Step(g, Step(g, s, Enter([])), History(true));
      t.hasSource && t.menu.None? && t.buffer == "a" && t.nav == Some(Nav(["a", ""], 0))
  {
    hide HistoryStep, Turned;
    var filed := Step(g, s, Enter([]));
    assert BookOf(filed) == Book("", ["a"], None);
    StepTurnsBook(g, filed, true);
    FirstRecall();
    RecallKeepsMenu(g, filed);
  }

  lemma FirstRecall()
    ensures Turned(Book("", ["a"], None), true) == Book("a", ["a"], Some(Nav(["a", ""], 0)))
  {
    assert ["a"] + [""] == ["a", ""];
  }

  lemma RecallKeepsMenu(g: Glyphs, s: State)
    ensures HistoryStep(g, s, true).hasSource == s.hasSource && HistoryStep(g, s, true).menu.None?
  {
    hide Recalled, TargetColumn;
    forall c: State, text, lastRow, col
      ensures Recalled(g, c, text, lastRow, col).hasSource == c.hasSource
        && Recalled(g, c, text, lastRow, col).menu == c.menu
    {
      RecallTouchesCaret(g, c, text, lastRow, col);
    }
  }

  const EditThenPreview: seq<Action> := [Change(Insert("b"), false, [], ["zzz"], []), Cycle(true)]

  lemma EditThenPreviewOver(g: Glyphs, s: State)
    requires s.hasSource && s.buffer == "a" && s.nav == Some(Nav(["a", ""], 0))
    ensures var t := Run(g, s, EditThenPreview);
      Previewing(t) && Shown(t.menu.value) == "zzz" && t.nav.Some?
      && t.nav.value.index == 0 && |t.nav.value.entries| == 2 && |t.nav.value.entries[0]| == 2
  {
    var edited := Edited(s, Insert("b"));
    assert ["a", ""][0 := edited.buffer] == [edited.buffer, ""];
    assert |edited.buffer| == 2 && edited.nav == Some(Nav([edited.buffer, ""], 0)) && edited.hasSource;
    hide Edited;
    var s1 := Step(g, s, EditThenPreview[0]);
    assert EditThenPreview[..1][..0] == [];
    assert Run(g, s, EditThenPreview[..1]) == s1;
  }

  /** A reachable loss: a line is recalled and edited, a candidate is accepted, and
      one step back and forth brings the edited line instead. */
  lemma AcceptedPreviewCanBeLost(g: Glyphs)
    ensures var s := Run(g, Blank(80, 0), RecallingRun + EditThenPreview);
      var accepted := Step(g, s, Enter([]));
      && WellFormed(s) && InStep(s) && Previewing(s) && s.nav.Some?
      && accepted.buffer == "zzz" && HistorySteps(g, accepted, [false, true]).buffer != "zzz"
  {
    var s0 := Blank(80, 0);
    var actions := RecallingRun + EditThenPreview;
    hide Run, Step, HistorySteps, WellFormed, InStep, StaysWithin, Net, AllAllowed, AllQuiet;
    RecallingRunRecalls(g);
    EditThenPreviewOver(g, Run(g, s0, RecallingRun));
    RunJoins(g, s0, RecallingRun, EditThenPreview);
    BlankFits();
    AllQuietThere();
    EveryRunInStep(g, s0, actions);
    ForthAndBack();
    AcceptedPreviewSurvivesIff(g, Run(g, s0, actions), [false, true]);
  }

  lemma AllQuietThere()
    ensures AllAllowed(RecallingRun + EditThenPreview) && AllQuiet(RecallingRun + EditThenPreview)
  {
  }

  lemma ForthAndBack()
    ensures StaysWithin(0, 2, [false, true]) && Net([false, true]) == 0
  {
    assert [false, true][..1] == [false] && [false][..0] == [];
  }

  lemma BlankFits()
    ensures WellFormed(Blank(80, 0)) && InStep(Blank(80, 0))
  {
    BoundaryAt("", 0);
  }

  lemma {:induction false} RunJoins(g: Glyphs, s: State, x: seq<Action>, y: seq<Action>)
    ensures Run(g, s, x + y) == Run(g, Run(g, s, x), y)
  {
    hide Step;
    if y == [] {
      assert x + y == x;
    } else {
      RunJoins(g, s, x, y[..|y| - 1]);
      assert (x + y)[..|x + y| - 1] == x + y[..|y| - 1];
    }
  }

  // ---- Submitted lines ------------------------------------------------------

  /** One history extends another by non-empty lines. */
  ghost predicate Extends(later: seq<string>, earlier: seq<string>) {
    earlier <= later && forall i :: |earlier| <= i < |later| ==> later[i] != ""
  }

  lemma CalledAllKeepsHistory(s: State, es: seq<External>)
    ensures CalledAll(s, es).inputHistory == s.inputHistory
  {
  }

  lemma StepExtends(g: Glyphs, s: State, a: Action)
    ensures Extends(Step(g, s, a).inputHistory, s.inputHistory)
  {
    match a
    case Change(edit, closesMenu, before, answer, after) =>
      hide Range, Replaced, Inserted, Changes, CalledAll;
      var edited := Edited(if closesMenu then s.(menu := None) else s, edit);
      CalledAllKeepsHistory(edited, before);
      CalledAllKeepsHistory(CalledAll(edited, before), after);
    case Enter(between) =>
      hide CalledAll;
      CalledAllKeepsHistory(s, between);
    case Arrow(up) =>
      hide HistoryStep, Stepped, TargetColumn, MoveVertical, Cycled;
      if MenuOpen(s) {
        CycledKeepsHistory(s, !up);
      } else {
        SteppedExtends(g, Captured(g, s), up);
      }
    case History(back) =>
      hide Stepped;
      SteppedExtends(g, s.(menu := None), back);
    case _ =>
  }

  lemma CycledKeepsHistory(s: State, forward: bool)
    ensures Cycled(s, forward).inputHistory == s.inputHistory
  {
  }

  lemma SteppedExtends(g: Glyphs, s: State, back: bool)
    ensures Extends(Stepped(g, s, back).inputHistory, s.inputHistory)
  {
    var c, col := Captured(g, s), TargetColumn(g, s);
    hide Recalled, TargetColumn;
    forall text, lastRow ensures Recalled(g, c, text, lastRow, col).inputHistory == c.inputHistory {
      RecallTouchesCaret(g, c, text, lastRow, col);
    }
  }

  /** Over any run the input history changes only by appending non-empty lines. */
  lemma {:induction false} HistoryOnlyGrows(g: Glyphs, s: State, actions: seq<Action>)
    ensures Extends(Run(g, s, actions).inputHistory, s.inputHistory)
  {
    hide Step;
    if actions != [] {
      HistoryOnlyGrows(g, s, actions[..|actions| - 1]);
      StepExtends(g, Run(g, s, actions[..|actions| - 1]), actions[|actions| - 1]);
    }
  }
}
