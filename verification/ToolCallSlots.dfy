/**
 Accumulating tool calls out of a stream. Calls sit in slots addressed by
 output index; a slot that is passed over is padded, so padding may get its
 tool type from a neighbour's event. Both backends write slots this way.
 */
module ToolCallSlots {
  import opened Basics

  datatype Slot = Slot(id: string, name: string, toolType: ToolType, arguments: string)

  /** One event's effect on one slot: absent fields are left alone, `append`
      extends the arguments, `fallback` is used only while they are empty. */
  datatype Write = Write(
    index: nat, padding: ToolType, id: Option<string>, name: Option<string>, toolType: Option<ToolType>,
    append: string, fallback: Option<string>)

  datatype Call = Call(id: string, name: string, toolType: ToolType, arguments: string)

  function Or<T>(o: Option<T>, default: T): T {
    if o.Some? then o.value else default
  }

  function Padding(toolType: ToolType): Slot {
    Slot("", "", toolType, "")
  }

  function Updated(slot: Slot, w: Write): Slot {
    var arguments := slot.arguments + w.append;
    Slot(Or(w.id, slot.id), Or(w.name, slot.name), Or(w.toolType, slot.toolType),
         if arguments == "" then Or(w.fallback, "") else arguments)
  }

  function Padded(slots: seq<Slot>, n: nat, toolType: ToolType): (r: seq<Slot>)
    ensures |r| == if n <= |slots| then |slots| else n
  {
    if n <= |slots| then slots else slots + seq(n - |slots|, _ => Padding(toolType))
  }

  function Written(slots: seq<Slot>, w: Write): seq<Slot> {
    var padded := Padded(slots, w.index + 1, w.padding);
    padded[w.index := Updated(padded[w.index], w)]
  }

  function Slots(slots: seq<Slot>, writes: seq<Write>): seq<Slot> {
    if writes == [] then slots else Written(Slots(slots, writes[..|writes| - 1]), writes[|writes| - 1])
  }

  /** The named slots, in index order. */
  function CallsIn(slots: seq<Slot>): seq<Call> {
    if slots == [] then [] else
      var earlier, s := CallsIn(slots[..|slots| - 1]), slots[|slots| - 1];
      if s.name == "" then earlier else earlier + [Call(s.id, s.name, s.toolType, s.arguments)]
  }

  /** How many of the first `n` slots have a name. */
  function NamedBefore(slots: seq<Slot>, n: nat): nat
    requires n <= |slots|
  {
    if n == 0 then 0 else NamedBefore(slots, n - 1) + if slots[n - 1].name == "" then 0 else 1
  }

  /** Each named slot is one call, its place that of its index among them; no other call is made. */
  lemma {:induction false} CallOfSlot(slots: seq<Slot>, i: nat)
    requires i < |slots|
    ensures |CallsIn(slots)| == NamedBefore(slots, |slots|) && NamedBefore(slots, i) <= |CallsIn(slots)|
    ensures slots[i].name != "" ==>
      && NamedBefore(slots, i) < |CallsIn(slots)|
      && CallsIn(slots)[NamedBefore(slots, i)]
         == Call(slots[i].id, slots[i].name, slots[i].toolType, slots[i].arguments)
  {
    var init := slots[..|slots| - 1];
    NamedInPrefix(slots, |init|, |init|);
    NamedInPrefix(slots, |init|, i);
    if init == [] {
      assert CallsIn(init) == [];
    } else {
      CallOfSlot(init, if i < |init| then i else 0);
    }
  }

  lemma {:induction false} NamedInPrefix(slots: seq<Slot>, k: nat, n: nat)
    requires n <= k <= |slots|
    ensures NamedBefore(slots[..k], n) == NamedBefore(slots, n)
    decreases n
  {
    if n != 0 {
      NamedInPrefix(slots, k, n - 1);
    }
  }

  /** Grows the slots until the index is addressable. */
  method PadTo(slots0: seq<Slot>, index: nat, toolType: ToolType) returns (slots: seq<Slot>)
    ensures slots == Padded(slots0, index + 1, toolType)
  {
    slots := slots0;
    while |slots| <= index
      invariant |slots0| <= |slots|
      invariant |slots| <= index + 1 || slots == slots0
      invariant slots == Padded(slots0, |slots|, toolType)
    {
      slots := slots + [Padding(toolType)];
    }
  }

  method IntoToolCalls(slots: seq<Slot>) returns (calls: seq<Call>)
    ensures calls == CallsIn(slots)
  {
    calls := [];
    for i := 0 to |slots|
      invariant calls == CallsIn(slots[..i])
    {
      var s := slots[i];
      assert slots[..i + 1][..i] == slots[..i];
      if s.name != "" {
        calls := calls + [Call(s.id, s.name, s.toolType, s.arguments)];
      }
    }
    assert slots[..|slots|] == slots;
  }

  // ---- One index at a time --------------------------------------------------

  /** The writes to one index, in order. */
  function Lane(writes: seq<Write>, index: nat): seq<Write> {
    if writes == [] then [] else
      var earlier, w := Lane(writes[..|writes| - 1], index), writes[|writes| - 1];
      if w.index == index then earlier + [w] else earlier
  }

  /** One slot built from its own writes alone. */
  function Alone(lane: seq<Write>): Slot {
    if lane == [] then Padding(Function) else Updated(Alone(lane[..|lane| - 1]), lane[|lane| - 1])
  }

  // ---- What a lane says -----------------------------------------------------

  function Appends(lane: seq<Write>): string {
    if lane == [] then "" else Appends(lane[..|lane| - 1]) + lane[|lane| - 1].append
  }

  /** The final input taken: the first that is not empty, if it comes before any delta. */
  function Taken(lane: seq<Write>): string {
    if lane == [] then "" else
      var earlier, w := lane[..|lane| - 1], lane[|lane| - 1];
      if Taken(earlier) == "" && Appends(earlier) == "" && w.append == "" then Or(w.fallback, "") else Taken(earlier)
  }

  predicate NamesNothing(w: Write) {
    w.id.None? && w.name.None? && w.toolType.None?
  }

  /** The arguments are the deltas in order, behind the final input if that came
      first; a final input that comes after a delta is ignored. */
  lemma {:induction false} ArgumentsAreDeltas(lane: seq<Write>)
    ensures Alone(lane).arguments == Taken(lane) + Appends(lane)
  {
    if lane != [] {
      ArgumentsAreDeltas(lane[..|lane| - 1]);
      var earlier, w := lane[..|lane| - 1], lane[|lane| - 1];
      assert Taken(earlier) + (Appends(earlier) + w.append) == Taken(earlier) + Appends(earlier) + w.append;
      assert "" + "" == "";
    }
  }

  /** Later fields win; deltas leave id, name and type alone. */
  lemma {:induction false} LastFieldsWin(lane: seq<Write>, w: Write, deltas: seq<Write>)
    requires forall i :: 0 <= i < |deltas| ==> NamesNothing(deltas[i])
    ensures var s := Alone(lane + [w] + deltas);
      && (w.id.Some? ==> s.id == w.id.value)
      && (w.name.Some? ==> s.name == w.name.value)
      && (w.toolType.Some? ==> s.toolType == w.toolType.value)
  {
    if deltas == [] {
      assert lane + [w] + [] == lane + [w] && (lane + [w])[..|lane|] == lane;
    } else {
      var init, d := deltas[..|deltas| - 1], deltas[|deltas| - 1];
      LastFieldsWin(lane, w, init);
      assert lane + [w] + deltas == (lane + [w] + init) + [d];
      assert ((lane + [w] + init) + [d])[..|lane + [w] + init|] == lane + [w] + init;
      assert NamesNothing(d);
    }
  }

  /** Either every write that names a slot also types it, or padding is never custom. */
  ghost predicate Settled(writes: seq<Write>) {
    || (forall i :: 0 <= i < |writes| ==> TypesWhatItNames(writes[i]))
    || (forall i :: 0 <= i < |writes| ==> writes[i].padding == Function)
  }

  predicate TypesWhatItNames(w: Write) {
    w.name.Some? && w.name.value != "" ==> w.toolType.Some?
  }

  /** The same slot, but for the type of one still without a name. */
  predicate Matches(s: Slot, t: Slot) {
    s.id == t.id && s.name == t.name && s.arguments == t.arguments && (s.name != "" ==> s.toolType == t.toolType)
  }

  ghost predicate SlotsMatch(slots: seq<Slot>, writes: seq<Write>) {
    forall i: nat :: if i < |slots| then Matches(slots[i], Alone(Lane(writes, i))) else Lane(writes, i) == []
  }

  ghost predicate SlotsAre(slots: seq<Slot>, writes: seq<Write>) {
    forall i: nat :: if i < |slots| then slots[i] == Alone(Lane(writes, i)) else Lane(writes, i) == []
  }

  lemma LaneSnoc(writes: seq<Write>, w: Write, i: nat)
    ensures Lane(writes + [w], i) == if w.index == i then Lane(writes, i) + [w] else Lane(writes, i)
    ensures Alone(Lane(writes + [w], i))
         == if w.index == i then Updated(Alone(Lane(writes, i)), w) else Alone(Lane(writes, i))
  {
    assert (writes + [w])[..|writes|] == writes;
    assert (Lane(writes, i) + [w])[..|Lane(writes, i)|] == Lane(writes, i);
  }

  lemma WrittenAt(slots: seq<Slot>, w: Write, i: nat)
    ensures |Written(slots, w)| == if w.index < |slots| then |slots| else w.index + 1
    ensures i < |Written(slots, w)| ==>
      var old' := if i < |slots| then slots[i] else Padding(w.padding);
      Written(slots, w)[i] == if i == w.index then Updated(old', w) else old'
  {
  }

  lemma UpdatedMatches(s: Slot, t: Slot, w: Write)
    requires Matches(s, t) && TypesWhatItNames(w)
    ensures Matches(Updated(s, w), Updated(t, w))
  {
  }

  lemma {:induction false} TypedWritesMatch(writes: seq<Write>)
    requires forall i :: 0 <= i < |writes| ==> TypesWhatItNames(writes[i])
    ensures SlotsMatch(Slots([], writes), writes)
  {
    hide Written, TypesWhatItNames, SlotsMatch, Lane, Alone;
    if writes == [] {
      NoSlots();
    } else {
      var init, w := writes[..|writes| - 1], writes[|writes| - 1];
      TypedWritesMatch(init);
      assert TypesWhatItNames(w) && init + [w] == writes;
      WriteKeepsMatching(Slots([], init), init, w);
    }
  }

  lemma WriteKeepsMatching(slots: seq<Slot>, writes: seq<Write>, w: Write)
    requires SlotsMatch(slots, writes) && TypesWhatItNames(w)
    ensures SlotsMatch(Written(slots, w), writes + [w])
  {
    hide Written, Updated, Lane, Alone, Matches, TypesWhatItNames, SlotsMatch;
    var after := Written(slots, w);
    forall i: nat
      ensures if i < |after| then Matches(after[i], Alone(Lane(writes + [w], i))) else Lane(writes + [w], i) == []
    {
      LaneSnoc(writes, w, i);
      WrittenAt(slots, w, i);
      MatchAt(slots, writes, w.padding, i);
      if i == w.index {
        UpdatedMatches(if i < |slots| then slots[i] else Padding(w.padding), Alone(Lane(writes, i)), w);
      }
    }
    assert SlotsMatch(after, writes + [w]) by { AllMatch(after, writes + [w]); }
  }

  lemma AllMatch(slots: seq<Slot>, writes: seq<Write>)
    requires forall i: nat :: if i < |slots| then Matches(slots[i], Alone(Lane(writes, i))) else Lane(writes, i) == []
    ensures SlotsMatch(slots, writes)
  {
  }

  /** A slot not there yet would be padding, and so would its lane alone. */
  lemma MatchAt(slots: seq<Slot>, writes: seq<Write>, padding: ToolType, i: nat)
    requires SlotsMatch(slots, writes)
    ensures Matches(if i < |slots| then slots[i] else Padding(padding), Alone(Lane(writes, i)))
    ensures |slots| <= i ==> Lane(writes, i) == []
  {
    hide Lane;
  }

  lemma NoSlots()
    ensures SlotsMatch([], []) && SlotsAre([], [])
  {
  }

  lemma {:induction false} PlainPaddingIsExact(writes: seq<Write>)
    requires forall i :: 0 <= i < |writes| ==> writes[i].padding == Function
    ensures SlotsAre(Slots([], writes), writes)
  {
    hide Written, SlotsAre, Lane, Alone;
    if writes == [] {
      NoSlots();
    } else {
      var init, w := writes[..|writes| - 1], writes[|writes| - 1];
      PlainPaddingIsExact(init);
      assert init + [w] == writes;
      PlainWriteIsExact(Slots([], init), init, w);
    }
  }

  lemma PlainWriteIsExact(slots: seq<Slot>, writes: seq<Write>, w: Write)
    requires SlotsAre(slots, writes) && w.padding == Function
    ensures SlotsAre(Written(slots, w), writes + [w])
  {
    hide Written, Updated, Lane;
    var after := Written(slots, w);
    forall i: nat
      ensures if i < |after| then after[i] == Alone(Lane(writes + [w], i)) else Lane(writes + [w], i) == []
    {
      LaneSnoc(writes, w, i);
      WrittenAt(slots, w, i);
    }
  }

  lemma SettledSlotsMatch(writes: seq<Write>)
    requires Settled(writes)
    ensures SlotsMatch(Slots([], writes), writes)
  {
    hide Slots, Lane, Alone;
    if forall i :: 0 <= i < |writes| ==> TypesWhatItNames(writes[i]) {
      TypedWritesMatch(writes);
    } else {
      PlainPaddingIsExact(writes);
    }
  }

  /** The calls of the first `n` indexes, each slot built from its own writes. */
  function CallsAlone(writes: seq<Write>, n: nat): seq<Call> {
    if n == 0 then [] else
      var earlier, s := CallsAlone(writes, n - 1), Alone(Lane(writes, n - 1));
      if s.name == "" then earlier else earlier + [Call(s.id, s.name, s.toolType, s.arguments)]
  }

  lemma {:induction false} CallsOfMatching(slots: seq<Slot>, writes: seq<Write>, n: nat)
    requires SlotsMatch(slots, writes) && n <= |slots|
    ensures CallsIn(slots[..n]) == CallsAlone(writes, n)
  {
    hide SlotsMatch, Lane, Alone;
    if n != 0 {
      CallsOfMatching(slots, writes, n - 1);
      assert slots[..n][..n - 1] == slots[..n - 1];
      MatchAt(slots, writes, Function, n - 1);
    }
  }

  lemma {:induction false} EmptyLanesAddNothing(writes: seq<Write>, n: nat, m: nat)
    requires n <= m
    requires forall i: nat :: n <= i ==> Lane(writes, i) == []
    ensures CallsAlone(writes, m) == CallsAlone(writes, n)
  {
    if n < m {
      EmptyLanesAddNothing(writes, n, m - 1);
      assert Lane(writes, m - 1) == [];
    }
  }

  lemma {:induction false} SameLanesSameCallsAlone(ws: seq<Write>, vs: seq<Write>, n: nat)
    requires forall i: nat :: Lane(ws, i) == Lane(vs, i)
    ensures CallsAlone(ws, n) == CallsAlone(vs, n)
  {
    if n != 0 {
      SameLanesSameCallsAlone(ws, vs, n - 1);
      assert Lane(ws, n - 1) == Lane(vs, n - 1);
    }
  }

  /** The final calls are the slots built one by one from their own writes. */
  lemma {:induction false} CallsAreBuiltAlone(writes: seq<Write>, n: nat)
    requires Settled(writes) && |Slots([], writes)| <= n
    ensures CallsIn(Slots([], writes)) == CallsAlone(writes, n)
  {
    hide Slots, CallsIn, CallsAlone, Lane, Alone, Matches;
    var slots := Slots([], writes);
    SettledSlotsMatch(writes);
    CallsOfMatching(slots, writes, |slots|);
    assert slots[..|slots|] == slots;
    EmptyLanesAddNothing(writes, |slots|, n);
  }

  /** Any two interleavings that keep each index's own order end in the same calls. */
  lemma {:induction false} InterleavingDoesNotMatter(ws: seq<Write>, vs: seq<Write>)
    requires Settled(ws) && Settled(vs)
    requires forall i: nat :: Lane(ws, i) == Lane(vs, i)
    ensures CallsIn(Slots([], ws)) == CallsIn(Slots([], vs))
  {
    hide Slots, CallsIn, CallsAlone, Lane, Alone, Settled;
    var n := |Slots([], ws)| + |Slots([], vs)|;
    CallsAreBuiltAlone(ws, n);
    CallsAreBuiltAlone(vs, n);
    SameLanesSameCallsAlone(ws, vs, n);
  }

  /** Along the way slots do differ: padding takes the type of whoever arrives first. */
  lemma PaddingTypeDependsOnOrder(w: Write, v: Write)
    requires w.index == v.index + 1 && w.padding == Custom && v.padding == Function && v.toolType.None?
    ensures Slots([], [w, v])[v.index].toolType == Custom
    ensures Slots([], [v, w])[v.index].toolType == Function
    ensures forall i: nat :: Lane([w, v], i) == Lane([v, w], i)
  {
    TwoWrites(w, v);
    TwoWrites(v, w);
    hide Slots, Lane, Written;
    WrittenAt([], w, v.index);
    WrittenAt(Written([], w), v, v.index);
    WrittenAt([], v, v.index);
    WrittenAt(Written([], v), w, v.index);
  }

  lemma TwoWrites(w: Write, v: Write)
    ensures Slots([], [w, v]) == Written(Written([], w), v)
    ensures forall i: nat :: w.index != v.index ==>
      Lane([w, v], i) == if i == w.index then [w] else if i == v.index then [v] else []
  {
    assert [w, v][..1] == [w] && [w][..0] == [];
    assert [] + [w] == [w] && [] + [v] == [v];
    assert Slots([], [w]) == Written([], w);
    forall i: nat | w.index != v.index
      ensures Lane([w, v], i) == if i == w.index then [w] else if i == v.index then [v] else []
    {
      assert Lane([w], i) == if i == w.index then [w] else [];
    }
  }
}
