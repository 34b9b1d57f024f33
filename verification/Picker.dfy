/**
 The single-select list picker: moving between enabled items around the list,
 the window of items on screen, and the key loop.
 */
module Picker {
  import opened Basics

  datatype Item = Item(text: string, enabled: bool)

  // ---- Moving ---------------------------------------------------------------

  /** The index `offset` places away, wrapping around. */
  function Around(n: nat, selected: nat, offset: nat, forward: bool): (r: nat)
    requires selected < n && offset <= n
    ensures r < n
  {
    if forward then (selected + offset) % n else (selected + n - offset) % n
  }

  /** No enabled item lies strictly between, and the end is enabled. */
  ghost predicate FirstAt(items: seq<Item>, selected: nat, forward: bool, offset: nat)
    requires selected < |items|
  {
    && 1 <= offset < |items| && items[Around(|items|, selected, offset, forward)].enabled
    && NoneBefore(items, selected, forward, offset)
  }

  ghost predicate NoneBefore(items: seq<Item>, selected: nat, forward: bool, offset: nat)
    requires selected < |items| && offset <= |items|
  {
    forall k: nat :: 1 <= k < offset ==> Disabled(items, selected, forward, k)
  }

  predicate Disabled(items: seq<Item>, selected: nat, forward: bool, offset: nat)
    requires selected < |items| && offset <= |items|
  {
    !items[Around(|items|, selected, offset, forward)].enabled
  }

  /** The nearest other enabled item in a direction, or the same one when there is none. */
  ghost predicate IsAdjacent(items: seq<Item>, selected: nat, forward: bool, r: nat)
    requires selected < |items|
  {
    if NoneBefore(items, selected, forward, |items|) then r == selected
    else exists offset: nat ::
      FirstAt(items, selected, forward, offset) && r == Around(|items|, selected, offset, forward)
  }

  function Search(items: seq<Item>, selected: nat, forward: bool, offset: nat): (r: nat)
    requires selected < |items| && 1 <= offset <= |items| && NoneBefore(items, selected, forward, offset)
    ensures r < |items| && IsAdjacent(items, selected, forward, r)
    ensures r == selected || items[r].enabled
    decreases |items| - offset
  {
    if offset == |items| then selected
    else
      var index := Around(|items|, selected, offset, forward);
      if items[index].enabled then
        assert FirstAt(items, selected, forward, offset) && !Disabled(items, selected, forward, offset);
        index
      else Search(items, selected, forward, offset + 1)
  }

  function Adjacent(items: seq<Item>, selected: nat, forward: bool): (r: nat)
    requires selected < |items|
    ensures r < |items| && IsAdjacent(items, selected, forward, r)
    ensures r == selected || items[r].enabled
  {
    Search(items, selected, forward, 1)
  }

  method AdjacentEnabledItem(items: seq<Item>, selected: nat, forward: bool) returns (r: nat)
    requires selected < |items|
    ensures r == Adjacent(items, selected, forward)
  {
    for offset := 1 to |items|
      invariant NoneBefore(items, selected, forward, offset)
      invariant Adjacent(items, selected, forward) == Search(items, selected, forward, offset)
    {
      var index := if forward then (selected + offset) % |items| else (selected + |items| - offset) % |items|;
      if items[index].enabled {
        return index;
      }
    }
    return selected;
  }

  lemma AroundAndBack(n: nat, s: nat, offset: nat, forward: bool, k: nat)
    requires s < n && k <= offset < n
    ensures var r := Around(n, s, offset, forward);
      Around(n, r, k, !forward) == Around(n, s, offset - k, forward)
  {
    var r := Around(n, s, offset, forward);
    if forward {
      Wrap(n, s + offset);
      Wrap(n, s + (offset - k));
      Wrap(n, r + n - k);
    } else {
      Wrap(n, s + n - offset);
      Wrap(n, s + n - (offset - k));
      Wrap(n, r + k);
    }
  }

  lemma Wrap(n: nat, x: nat)
    requires x < 2 * n
    ensures x % n == if x < n then x else x - n
  {
    if x >= n {
      assert x % n == (x - n) % n by { assert x == n + (x - n); }
    }
  }

  /** On enabled items, up undoes down and down undoes up. */
  lemma OppositeMovesUndo(items: seq<Item>, s: nat, forward: bool)
    requires s < |items| && items[s].enabled
    ensures Adjacent(items, Adjacent(items, s, forward), !forward) == s
  {
    hide Around, Search;
    var n, r, back := |items|, Adjacent(items, s, forward), !forward;
    if NoneBefore(items, s, forward, n) {
      forall k: nat | 1 <= k < n ensures Disabled(items, s, back, k) {
        AroundOtherWay(n, s, k, forward);
        assert Disabled(items, s, forward, n - k);
      }
      assert NoneBefore(items, s, back, n);
    } else {
      var offset: nat :| FirstAt(items, s, forward, offset) && r == Around(n, s, offset, forward);
      AroundAndBack(n, s, offset, forward, offset);
      AroundZero(n, s, forward);
      forall k: nat | 1 <= k < offset ensures Disabled(items, r, back, k) {
        AroundAndBack(n, s, offset, forward, k);
        assert Disabled(items, s, forward, offset - k);
      }
      assert FirstAt(items, r, back, offset);
      FirstIsUnique(items, r, back, offset);
    }
  }

  lemma AroundOtherWay(n: nat, s: nat, k: nat, forward: bool)
    requires s < n && 1 <= k < n
    ensures Around(n, s, k, !forward) == Around(n, s, n - k, forward)
  {
    if forward {
      assert s + n - k == s + (n - k);
    } else {
      assert s + k == s + n - (n - k);
    }
  }

  lemma AroundZero(n: nat, s: nat, forward: bool)
    requires s < n
    ensures Around(n, s, 0, forward) == s
  {
    Wrap(n, s);
    Wrap(n, s + n);
  }

  lemma FirstIsUnique(items: seq<Item>, s: nat, forward: bool, offset: nat)
    requires s < |items| && FirstAt(items, s, forward, offset)
    ensures Adjacent(items, s, forward) == Around(|items|, s, offset, forward)
  {
    hide Around, Search;
    var r := Adjacent(items, s, forward);
    assert !Disabled(items, s, forward, offset);
    var other: nat :| FirstAt(items, s, forward, other) && r == Around(|items|, s, other, forward);
    assert !Disabled(items, s, forward, other);
  }

  // ---- Many moves -----------------------------------------------------------

  /** `moves` downs, or that many ups when negative. */
  function Moved(items: seq<Item>, s: nat, moves: int): (r: nat)
    requires s < |items| && items[s].enabled
    ensures r < |items| && items[r].enabled
    decreases if moves < 0 then -moves else moves
  {
    if moves == 0 then s
    else if moves > 0 then Adjacent(items, Moved(items, s, moves - 1), true)
    else Adjacent(items, Moved(items, s, moves + 1), false)
  }

  lemma OneMoreMove(items: seq<Item>, s: nat, moves: int)
    requires s < |items| && items[s].enabled
    ensures Adjacent(items, Moved(items, s, moves), true) == Moved(items, s, moves + 1)
    ensures Adjacent(items, Moved(items, s, moves), false) == Moved(items, s, moves - 1)
  {
    hide Adjacent;
    if moves < 0 {
      OppositeMovesUndo(items, Moved(items, s, moves + 1), false);
    }
    if moves > 0 {
      OppositeMovesUndo(items, Moved(items, s, moves - 1), true);
    }
  }

  /** How far below `s` an item lies, going around. */
  function Ahead(n: nat, s: nat, target: nat): (r: nat)
    requires s < n && target < n
    ensures r < n
  {
    if target >= s then target - s else target + n - s
  }

  lemma AroundAhead(n: nat, s: nat, target: nat)
    requires s < n && target < n
    ensures Around(n, s, Ahead(n, s, target), true) == target
  {
    Wrap(n, s + Ahead(n, s, target));
  }

  lemma StillAhead(n: nat, s: nat, offset: nat, target: nat)
    requires s < n && target < n && 1 <= offset <= Ahead(n, s, target)
    ensures Ahead(n, Around(n, s, offset, true), target) == Ahead(n, s, target) - offset
  {
    Wrap(n, s + offset);
  }

  /** Going down reaches every enabled item without passing it. */
  lemma {:induction false} DownsReach(items: seq<Item>, s: nat, target: nat) returns (downs: nat)
    requires s < |items| && target < |items| && items[s].enabled && items[target].enabled
    ensures Moved(items, s, downs) == target && downs <= Ahead(|items|, s, target)
    decreases Ahead(|items|, s, target)
  {
    hide Around, Adjacent;
    var n, far := |items|, Ahead(|items|, s, target);
    if far == 0 {
      return 0;
    }
    AroundAhead(n, s, target);
    var r := Adjacent(items, s, true);
    assert !NoneBefore(items, s, true, n) by {
      assert !Disabled(items, s, true, far);
    }
    var offset: nat :| FirstAt(items, s, true, offset) && r == Around(n, s, offset, true);
    assert offset <= far by { assert !Disabled(items, s, true, far); }
    StillAhead(n, s, offset, target);
    var rest := DownsReach(items, r, target);
    MovedFromNext(items, s, rest);
    return rest + 1;
  }

  lemma {:induction false} MovedFromNext(items: seq<Item>, s: nat, downs: nat)
    requires s < |items| && items[s].enabled
    ensures Moved(items, Adjacent(items, s, true), downs) == Moved(items, s, downs + 1)
  {
    hide Adjacent;
    if downs == 0 {
      assert Moved(items, s, 0) == s;
    } else {
      MovedFromNext(items, s, downs - 1);
    }
  }

  // ---- The window -----------------------------------------------------------

  function Monus(a: nat, b: nat): nat {
    if a < b then 0 else a - b
  }

  function VisibleWindow(total: nat, selected: nat, visible: nat): (w: (nat, nat))
    requires selected < total && 1 <= visible
    ensures w.0 <= selected < w.1 <= total
    ensures w.1 - w.0 == if total <= visible then total else visible
    ensures w.0 == 0 || w.1 == total || selected - w.0 == visible / 2
  {
    if total <= visible then (0, total) else
      var start := Monus(selected, visible / 2);
      var start' := if start + visible > total then total - visible else start;
      (start', start' + visible)
  }

  datatype Row = Row(marker: char, text: string)

  function RowOf(items: seq<Item>, selected: nat, i: nat): Row
    requires i < |items|
  {
    Row(if !items[i].enabled then 'X' else if i == selected then '>' else ' ', items[i].text)
  }

  /** The item rows below the prompt, and the row the cursor is put on. */
  function Rendered(items: seq<Item>, selected: nat, height: nat): (seq<Row>, nat)
    requires selected < |items|
  {
    var rows := Monus(height, 1);
    var (start, end) := VisibleWindow(|items|, selected, if rows < 1 then 1 else rows);
    var cursor: nat := selected - start + 1;
    (seq(end - start, k requires 0 <= k < end - start => RowOf(items, selected, start + k)), cursor)
  }

  /** At any terminal height the cursor is on the selected item's row, which is
      the only one with the selection marker. */
  lemma CursorOnSelectedRow(items: seq<Item>, selected: nat, height: nat)
    requires selected < |items| && items[selected].enabled
    ensures var (rows, cursor) := Rendered(items, selected, height);
      && 1 <= cursor <= |rows|
      && |rows| == (if |items| <= 1 || height <= 2 then 1 else if |items| < height then |items| else height - 1)
      && rows[cursor - 1] == Row('>', items[selected].text)
      && (forall k :: 0 <= k < |rows| && rows[k].marker == '>' ==> k == cursor - 1)
      && (forall k :: 0 <= k < |rows| ==>
            var i := selected + 1 + k - cursor;
            && 0 <= i < |items| && rows[k].text == items[i].text && (rows[k].marker == 'X' <==> !items[i].enabled)
            && rows[k].marker in {'X', '>', ' '})
  {
    var rows := Monus(height, 1);
    var (start, end) := VisibleWindow(|items|, selected, if rows < 1 then 1 else rows);
    hide VisibleWindow;
    assert Rendered(items, selected, height).1 == selected - start + 1;
    var shown := Rendered(items, selected, height).0;
    assert forall k :: 0 <= k < |shown| ==> shown[k] == RowOf(items, selected, start + k);
  }

  // ---- The key loop ---------------------------------------------------------

  datatype Key = Down | Up | Enter | Cancelled | Ignored

  datatype PickError = Empty | NoEnabledItems | Aborted | NoMoreKeys

  method FirstEnabled(items: seq<Item>) returns (r: Option<nat>)
    ensures r.None? <==> forall i :: 0 <= i < |items| ==> !items[i].enabled
    ensures r.Some? ==>
      r.value < |items| && items[r.value].enabled && forall i :: 0 <= i < r.value ==> !items[i].enabled
  {
    for i := 0 to |items|
      invariant forall j :: 0 <= j < i ==> !items[j].enabled
    {
      if items[i].enabled {
        return Some(i);
      }
    }
    return None;
  }

  /** Downs less ups among the first keys. */
  function Net(keys: seq<Key>): int {
    if keys == [] then 0 else
      Net(keys[..|keys| - 1]) + (match keys[|keys| - 1] case Down => 1 case Up => -1 case _ => 0)
  }

  predicate Ends(k: Key) {
    k.Enter? || k.Cancelled?
  }

  /** The first key that ends the loop, or the number of keys. */
  function EndAt(keys: seq<Key>): (n: nat)
    ensures n <= |keys| && (n < |keys| ==> Ends(keys[n])) && forall i :: 0 <= i < n ==> !Ends(keys[i])
  {
    if keys == [] || Ends(keys[0]) then 0 else 1 + EndAt(keys[1..])
  }

  predicate IsFirstEnabled(items: seq<Item>, i: nat) {
    i < |items| && items[i].enabled && forall j :: 0 <= j < i ==> !items[j].enabled
  }

  /** What the loop ends with: only how many more downs than ups came before
      Enter matters, not their order. `NoMoreKeys` stands for a failed read. */
  function Outcome(items: seq<Item>, first: nat, keys: seq<Key>): (r: Result<nat, PickError>)
    requires IsFirstEnabled(items, first)
    ensures r.Ok? ==> r.value < |items| && items[r.value].enabled
  {
    var n := EndAt(keys);
    if n == |keys| then Err(NoMoreKeys)
    else if keys[n] == Cancelled then Err(Aborted)
    else Ok(Moved(items, first, Net(keys[..n])))
  }

  method Pick(items: seq<Item>, keys: seq<Key>) returns (r: Result<nat, PickError>)
    ensures r == Err(Empty) <==> items == []
    ensures r == Err(NoEnabledItems) <==> items != [] && forall i :: 0 <= i < |items| ==> !items[i].enabled
    ensures forall first :: IsFirstEnabled(items, first) ==> r == Outcome(items, first, keys)
    ensures r.Ok? ==> r.value < |items| && items[r.value].enabled
  {
    if items == [] {
      return Err(Empty);
    }
    var first := FirstEnabled(items);
    if first.None? {
      return Err(NoEnabledItems);
    }
    r := ReadKeys(items, first.value, keys);
    hide Moved, EndAt, Net;
  }

  method ReadKeys(items: seq<Item>, first: nat, keys: seq<Key>) returns (r: Result<nat, PickError>)
    requires IsFirstEnabled(items, first)
    ensures r == Outcome(items, first, keys)
  {
    var selected := first;
    assert first < |items| && items[first].enabled;
    hide Moved, EndAt, Adjacent, IsAdjacent, IsFirstEnabled;
    assert Moved(items, first, 0) == first by { NoMoves(items, first); }
    for i := 0 to |keys|
      invariant i <= EndAt(keys)
      invariant selected == Moved(items, first, Net(keys[..i]))
    {
      assert keys[..i + 1][..i] == keys[..i];
      OneMoreMove(items, first, Net(keys[..i]));
      match keys[i]
      case Down => selected := AdjacentEnabledItem(items, selected, true);
      case Up => selected := AdjacentEnabledItem(items, selected, false);
      case Enter => return Ok(selected);
      case Cancelled => return Err(Aborted);
      case Ignored =>
    }
    return Err(NoMoreKeys);
  }

  lemma NoMoves(items: seq<Item>, s: nat)
    requires s < |items| && items[s].enabled
    ensures Moved(items, s, 0) == s
  {
  }

  /** Pressing Down goes down: from the first enabled item, some number of Downs,
      no more than there are places to the target, and Enter pick the target; as
      many Ups more, before Enter, come back to where the picker started. */
  lemma DownsPick(items: seq<Item>, first: nat, target: nat) returns (downs: nat)
    requires IsFirstEnabled(items, first) && target < |items| && items[target].enabled
    ensures first <= target && downs <= target - first
    ensures Outcome(items, first, Repeat(Down, downs) + [Enter]) == Ok(target)
    ensures Outcome(items, first, Repeat(Down, downs) + Repeat(Up, downs) + [Enter]) == Ok(first)
  {
    assert first <= target;
    downs := DownsReach(items, first, target);
    hide Moved;
    var there, back := Repeat(Down, downs), Repeat(Up, downs);
    NetOfRepeat(Down, downs);
    NetOfRepeat(Up, downs);
    NetJoin(there, back);
    EndsAtEnter(there);
    EndsAtEnter(there + back);
    NoMoves(items, first);
  }

  lemma {:induction false} NetOfRepeat(key: Key, n: nat)
    requires key in {Down, Up}
    ensures Net(Repeat(key, n)) == if key == Down then n as int else -(n as int)
  {
    if n != 0 {
      NetOfRepeat(key, n - 1);
      assert Repeat(key, n)[..n - 1] == Repeat(key, n - 1);
    }
  }

  lemma {:induction false} NetJoin(a: seq<Key>, b: seq<Key>)
    ensures Net(a + b) == Net(a) + Net(b)
  {
    if b == [] {
      assert a + b == a;
    } else {
      NetJoin(a, b[..|b| - 1]);
      assert (a + b)[..|a + b| - 1] == a + b[..|b| - 1];
    }
  }

  lemma EndsAtEnter(moves: seq<Key>)
    requires forall k :: k in moves ==> k in {Down, Up}
    ensures EndAt(moves + [Enter]) == |moves| && (moves + [Enter])[..|moves|] == moves
  {
    var keys := moves + [Enter];
    assert keys[|moves|] == Enter;
    forall i | 0 <= i < |moves| ensures !Ends(keys[i]) {
      assert moves[i] in moves;
    }
  }

  /** How the picker ends: cancelled by the first Enter or cancel being a cancel,
      for want of keys when there is neither. */
  lemma HowItEnds(items: seq<Item>, first: nat, keys: seq<Key>)
    requires IsFirstEnabled(items, first)
    ensures Outcome(items, first, keys) == Err(Aborted) <==>
      exists i :: 0 <= i < |keys| && keys[i] == Cancelled && forall j :: 0 <= j < i ==> keys[j] !in {Enter, Cancelled}
    ensures Outcome(items, first, keys) == Err(NoMoreKeys) <==>
      forall i :: 0 <= i < |keys| ==> keys[i] !in {Enter, Cancelled}
  {
    hide Moved, Net;
  }

  lemma EndIs(keys: seq<Key>, n: nat)
    requires n <= |keys| && (n < |keys| ==> Ends(keys[n])) && forall i :: 0 <= i < n ==> !Ends(keys[i])
    ensures EndAt(keys) == n
  {
  }

  lemma NoMoveBetween(a: seq<Key>, b: seq<Key>)
    ensures Net(a + [Ignored] + b) == Net(a + b)
  {
    NetJoin(a + [Ignored], b);
    NetJoin(a, b);
    assert (a + [Ignored])[..|a|] == a;
  }

  lemma EndOfJoin(a: seq<Key>, b: seq<Key>)
    ensures EndAt(a + b) == if EndAt(a) < |a| then EndAt(a) else |a| + EndAt(b)
  {
    EndIs(a + b, if EndAt(a) < |a| then EndAt(a) else |a| + EndAt(b));
  }

  /** Only the ending key and the net moves before it matter. */
  lemma OutcomeDependsOn(items: seq<Item>, first: nat, x: seq<Key>, y: seq<Key>)
    requires IsFirstEnabled(items, first)
    requires EndAt(x) == |x| <==> EndAt(y) == |y|
    requires EndAt(x) < |x| ==> x[EndAt(x)] == y[EndAt(y)] && Net(x[..EndAt(x)]) == Net(y[..EndAt(y)])
    ensures Outcome(items, first, x) == Outcome(items, first, y)
  {
    hide Net, Moved, IsFirstEnabled;
  }

  lemma Cut(a: seq<Key>, b: seq<Key>, n: nat)
    requires n <= |b|
    ensures (a + b)[..|a| + n] == a + b[..n]
    ensures n < |b| ==> (a + b)[|a| + n] == b[n]
  {
  }

  lemma Front(a: seq<Key>, b: seq<Key>, n: nat)
    requires n < |a|
    ensures (a + b)[..n] == a[..n] && (a + b)[n] == a[n]
  {
  }

  lemma IgnoredAfterEnd(items: seq<Item>, first: nat, a: seq<Key>, b: seq<Key>)
    requires IsFirstEnabled(items, first) && EndAt(a) < |a|
    ensures Outcome(items, first, a + b) == Outcome(items, first, a)
  {
    hide Net, EndAt, Outcome, IsFirstEnabled;
    EndOfJoin(a, b);
    Front(a, b, EndAt(a));
    OutcomeDependsOn(items, first, a + b, a);
  }

  /** Other keys change nothing, wherever they come. */
  lemma IgnoredKeysDoNotMatter(items: seq<Item>, first: nat, a: seq<Key>, b: seq<Key>)
    requires IsFirstEnabled(items, first)
    ensures Outcome(items, first, a + [Ignored] + b) == Outcome(items, first, a + b)
  {
    hide Net, EndAt, Outcome, IsFirstEnabled;
    if EndAt(a) < |a| {
      IgnoredAfterEnd(items, first, a, [Ignored] + b);
      IgnoredAfterEnd(items, first, a, b);
      assert a + [Ignored] + b == a + ([Ignored] + b);
    } else {
      IgnoredBeforeEnd(items, first, a, b);
    }
  }

  lemma IgnoredBeforeEnd(items: seq<Item>, first: nat, a: seq<Key>, b: seq<Key>)
    requires IsFirstEnabled(items, first) && EndAt(a) == |a|
    ensures Outcome(items, first, a + [Ignored] + b) == Outcome(items, first, a + b)
  {
    EndIs([Ignored], 1);
    hide Net, EndAt, Outcome, IsFirstEnabled;
    var longer := a + [Ignored];
    EndOfJoin(a, [Ignored]);
    NoMoveBetween(a, []);
    assert longer + [] == longer && a + [] == a;
    AfterNoEnd(items, first, longer, a, b);
  }

  lemma AfterNoEnd(items: seq<Item>, first: nat, x: seq<Key>, y: seq<Key>, b: seq<Key>)
    requires IsFirstEnabled(items, first) && EndAt(x) == |x| && EndAt(y) == |y| && Net(x) == Net(y)
    ensures Outcome(items, first, x + b) == Outcome(items, first, y + b)
  {
    hide Net, EndAt, Outcome, IsFirstEnabled;
    EndOfJoin(x, b);
    EndOfJoin(y, b);
    var n := EndAt(b);
    Cut(x, b, n);
    Cut(y, b, n);
    NetJoin(x, b[..n]);
    NetJoin(y, b[..n]);
    OutcomeDependsOn(items, first, x + b, y + b);
  }
}
