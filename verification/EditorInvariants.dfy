/**
 What every run of the prompt editor keeps: the cursor between two characters,
 a menu that can be shown and undone, and a history that only grows.
 */
module EditorInvariants {
  import opened Basics
  import opened Utf8Text
  import opened PromptGeometry
  import opened PromptEditor

  // ---- Boundaries -----------------------------------------------------------

  ghost predicate CursorFits(s: State) {
    IsBoundary(s.buffer, s.cursor)
  }

  ghost predicate MenuFits(menu: Option<Menu>) {
    menu.Some? ==>
      && menu.value.candidates != []
      && (menu.value.selected.Some? ==> menu.value.selected.value < |menu.value.candidates|)
      && IsBoundary(menu.value.originalBuffer, menu.value.originalCursor)
  }

  predicate NavFits(nav: Option<Nav>) {
    nav.Some? ==> nav.value.index < |nav.value.entries|
  }

  ghost predicate WellFormed(s: State) {
    CursorFits(s) && MenuFits(s.menu) && NavFits(s.nav) && (!s.hasSource ==> s.menu.None?)
  }

  /** Callers place the cursor between two characters, or past the end. */
  ghost predicate Proper(e: External) {
    e.SetBuffer? ==> IsBoundary(e.text, if e.cursor <= ByteLen(e.text) then e.cursor else ByteLen(e.text))
  }

  ghost predicate AllProper(es: seq<External>) {
    forall i :: 0 <= i < |es| ==> Proper(es[i])
  }

  ghost predicate Allowed(a: Action) {
    match a
    case Change(_, _, before, _, after) => AllProper(before) && AllProper(after)
    case Enter(between) => AllProper(between)
    case Outside(call) => Proper(call)
    case _ => true
  }

  lemma BoundaryAt(s: string, i: nat)
    requires i <= |s|
    ensures IsBoundary(s, Offset(s, i))
  {
  }

  lemma {:induction false} OffsetOfJoin(a: string, b: string, k: nat)
    requires k <= |b|
    ensures Offset(a + b, |a| + k) == ByteLen(a) + Offset(b, k)
  {
    if k == 0 {
      assert (a + b)[..|a|] == a[..|a|];
      OffsetOfPrefix(a + b, a, |a|);
    } else {
      OffsetOfJoin(a, b, k - 1);
    }
  }

  /** Replacing characters moves later boundaries by the bytes gained and lost. */
  lemma ReplacedOffset(text: string, from: nat, to: nat, inserted: string)
    requires from <= to <= |text|
    ensures var r := Replaced(text, from, to, inserted);
      from + |inserted| <= |r| && Offset(r, from + |inserted|) == Offset(text, from) + ByteLen(inserted)
  {
    var r := Replaced(text, from, to, inserted);
    OffsetOfJoin(text[..from], inserted + text[to..], |inserted|);
    assert r == text[..from] + (inserted + text[to..]);
    assert (inserted + text[to..])[..|inserted|] == inserted[..|inserted|];
    OffsetOfPrefix(inserted + text[to..], inserted, |inserted|);
    assert text[..from][..from] == text[..from];
    OffsetOfPrefix(text[..from], text, from);
  }

  // ---- Every step keeps the state well formed -------------------------------

  lemma SyncedFits(s: State)
    requires WellFormed(s)
    ensures WellFormed(Synced(s))
  {
  }

  lemma EditedFits(s: State, e: Edit)
    requires WellFormed(s)
    ensures WellFormed(Edited(s, e))
  {
    var (from, to) := Range(s, e);
    ReplacedOffset(s.buffer, from, to, Inserted(e));
    var buffer := Replaced(s.buffer, from, to, Inserted(e));
    BoundaryAt(buffer, from + |Inserted(e)|);
    var cursor := Offset(s.buffer, from) + ByteLen(Inserted(e));
    hide Range, Replaced, Inserted, Offset, IsBoundary;
    SyncedFits(WriteCursor(s.(buffer := buffer), cursor));
  }

  lemma MovedFits(s: State, m: Motion)
    requires WellFormed(s)
    ensures WellFormed(Moved(s, m))
  {
    var i := Here(s);
    BoundaryAt(s.buffer, 0);
    BoundaryAt(s.buffer, |s.buffer|);
    BoundaryAt(s.buffer, if i == 0 then 0 else i - 1);
    BoundaryAt(s.buffer, if i < |s.buffer| then i + 1 else i);
  }

  lemma CycledFits(s: State, forward: bool)
    requires WellFormed(s)
    ensures WellFormed(Cycled(s, forward))
  {
    if MenuOpen(s) {
      var m := s.menu.value;
      var next := m.(selected := NextSelected(m.selected, |m.candidates|, forward));
      BoundaryAt(Shown(next), |Shown(next)|);
    }
  }

  lemma RecalledFits(g: Glyphs, s: State, text: string, lastRow: bool, col: nat)
    requires WellFormed(s)
    ensures WellFormed(Recalled(g, s, text, lastRow, col))
  {
    var shown := s.(buffer := text);
    var row := if lastRow then EndPos(LaidOut(shown), g).row else 0;
    BoundaryAt(text, Seek(LaidOut(shown), g, Pos(row, col)));
  }

  lemma PushedFits(s: State, line: string)
    requires line == "" ==> WellFormed(s)
    requires WellFormed(s.(buffer := "", cursor := 0))
    ensures WellFormed(Pushed(s, line))
  {
  }

  lemma StartFits(s: State)
    requires MenuFits(s.menu) && NavFits(s.nav) && (!s.hasSource ==> s.menu.None?)
    ensures WellFormed(s.(buffer := "", cursor := 0))
  {
    BoundaryAt("", 0);
  }

  lemma SteppedFits(g: Glyphs, s: State, back: bool)
    requires WellFormed(s)
    ensures WellFormed(Stepped(g, s, back))
  {
    var c, col := Captured(g, s), TargetColumn(g, s);
    StartFits(c);
    StartFits(c.(nav := None));
    hide Recalled, TargetColumn, IsBoundary;
    if c.nav.Some? {
      var Nav(entries, index) := c.nav.value;
      if !back && |entries| <= index + 1 {
        PushedFits(c.(nav := None), entries[|entries| - 1]);
      } else if !(back && index == 0) {
        RecalledFits(g, c, entries[if back then index - 1 else index + 1], back, col);
      }
    } else if back && c.inputHistory != [] {
      RecalledFits(g, c, (c.inputHistory + [c.buffer])[|c.inputHistory| - 1], true, col);
    } else if !back {
      PushedFits(c, c.buffer);
    }
  }

  lemma VerticalFits(g: Glyphs, s: State, up: bool)
    requires WellFormed(s)
    ensures WellFormed(Vertical(g, s, up))
  {
    hide Cycled, Stepped, TargetColumn;
    if MenuOpen(s) {
      CycledFits(s, !up);
    } else {
      var c := Captured(g, s);
      var row := MoveVertical(LaidOut(s), g, s.cursor, if up then -1 else 1, TargetColumn(g, s));
      if row.Some? {
        MoveFindsBoundary(g, s, if up then -1 else 1, TargetColumn(g, s));
      } else {
        SteppedFits(g, c, up);
      }
    }
  }

  lemma MoveFindsBoundary(g: Glyphs, s: State, delta: int, col: nat)
    ensures var row := MoveVertical(LaidOut(s), g, s.cursor, delta, col);
      row.Some? ==> IsBoundary(s.buffer, row.value)
  {
    var row := CaretPos(LaidOut(s), g, s.cursor).row + delta;
    if 0 <= row {
      BoundaryAt(s.buffer, Seek(LaidOut(s), g, Pos(row, col)));
    }
  }

  lemma CalledFits(s: State, e: External)
    requires WellFormed(s) && Proper(e)
    ensures WellFormed(Called(s, e)) && Called(s, e).hasSource == s.hasSource
  {
  }

  lemma {:induction false} CalledAllFits(s: State, es: seq<External>)
    requires WellFormed(s) && AllProper(es)
    ensures WellFormed(CalledAll(s, es)) && CalledAll(s, es).hasSource == s.hasSource
  {
    hide Called, WellFormed, Proper;
    if es != [] {
      CalledAllFits(s, es[..|es| - 1]);
      CalledFits(CalledAll(s, es[..|es| - 1]), es[|es| - 1]);
    }
  }

  lemma RefreshedFits(s: State, before: seq<External>, answer: seq<string>, after: seq<External>)
    requires WellFormed(s) && AllProper(before) && AllProper(after)
    ensures WellFormed(Refreshed(s, before, answer, after))
  {
    hide CalledAll, IsBoundary;
    CalledAllFits(s, before);
    CalledAllFits(CalledAll(s, before), after);
  }

  lemma SubmittedFits(s: State)
    requires WellFormed(s)
    ensures WellFormed(Submitted(s))
  {
    StartFits(s.(menu := None, nav := None));
    var emptied := s.(menu := None, nav := None, buffer := "");
    if s.buffer == "" {
      assert emptied == s.(menu := None, nav := None);
    } else {
      assert WellFormed(emptied.(cursor := 0));
    }
  }

  lemma ClearedFits(s: State)
    requires WellFormed(s)
    ensures WellFormed(Cleared(s))
  {
    BoundaryAt("", 0);
  }

  lemma StepFits(g: Glyphs, s: State, a: Action)
    requires WellFormed(s) && Allowed(a)
    ensures WellFormed(Step(g, s, a))
  {
    assert WellFormed(s.(menu := None));
    match a
    case Change(edit, closesMenu, before, answer, after) =>
      hide WellFormed, AllProper;
      if Changes(s, edit) {
        var from := if closesMenu then s.(menu := None) else s;
        EditedFits(from, edit);
        RefreshedFits(Edited(from, edit), before, answer, after);
      }
    case Enter(between) =>
      hide WellFormed, AllProper, Submitted;
      if !Previewing(s) {
        CalledAllFits(s, between);
        SubmittedFits(CalledAll(s, between));
      }
    case Clear => ClearedFits(s);
    case Move(motion) => MovedFits(s, motion);
    case Arrow(up) => VerticalFits(g, s, up);
    case Cycle(forward) => CycledFits(s, forward);
    case Dismiss => hide IsBoundary;
    case History(back) => SteppedFits(g, s.(menu := None), back);
    case Outside(call) => CalledFits(s, call);
    case Resize(_) =>
    case SetSource(_) =>
  }

  ghost predicate AllAllowed(actions: seq<Action>) {
    forall i :: 0 <= i < |actions| ==> Allowed(actions[i])
  }

  lemma {:induction false} RunFits(g: Glyphs, s: State, actions: seq<Action>)
    requires WellFormed(s) && AllAllowed(actions)
    ensures WellFormed(Run(g, s, actions))
  {
    hide WellFormed, Step, Allowed;
    if actions != [] {
      RunFits(g, s, actions[..|actions| - 1]);
      StepFits(g, Run(g, s, actions[..|actions| - 1]), actions[|actions| - 1]);
    }
  }

  /** Whatever keys are pressed and whatever other threads do between and inside
      them, the cursor stays between two characters and an open menu has
      candidates and a place to go back to. */
  lemma EveryRunFits(g: Glyphs, width: nat, promptCols: nat, actions: seq<Action>)
    requires AllAllowed(actions)
    ensures WellFormed(Run(g, Blank(width, promptCols), actions))
  {
    BoundaryAt("", 0);
    RunFits(g, Blank(width, promptCols), actions);
  }
}
