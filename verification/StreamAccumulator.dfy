/**
 The two streaming backends that fill the tool-call slots: one Responses event
 at a time, or one chat-completions choice at a time.
 */
module StreamAccumulator {
  import opened Basics
  import opened ToolCallSlots

  // ---- Responses events -----------------------------------------------------

  datatype ItemKind = FunctionCall | CustomCall | ReasoningItem | MessageItem(phase: Option<Phase>) | OtherItem

  /** A field the event lacks, or carries as something other than a string, is `None`. */
  datatype StreamItem = StreamItem(
    kind: ItemKind, callId: Option<string>, name: Option<string>, arguments: Option<string>, input: Option<string>,
    encrypted: bool, json: string)

  datatype Event =
    | OutputText(delta: Option<string>)
    | ReasoningText(delta: Option<string>)
    | ReasoningPart
    | ArgumentsDelta(index: nat, delta: Option<string>)
    | CustomInputDelta(index: nat, delta: Option<string>)
    | OutputItem(done: bool, index: nat, item: Option<StreamItem>)
    | Completed(outputs: seq<StreamItem>)
    | Failed
    | Unknown

  datatype State = State(
    text: string, thinking: Option<string>, slots: seq<Slot>, phase: Option<Phase>, reasoningItems: seq<string>)

  const Blank := State("", None, [], None, [])

  function TypeOf(kind: ItemKind): Option<ToolType> {
    match kind
    case FunctionCall => Some(Function)
    case CustomCall => Some(Custom)
    case _ => None
  }

  /** The slot write an event makes, if any. */
  function WriteOf(e: Event): Option<Write> {
    match e
    case ArgumentsDelta(index, Some(delta)) => Some(Write(index, Function, None, None, None, delta, None))
    case CustomInputDelta(index, Some(delta)) => Some(Write(index, Custom, None, None, Some(Custom), delta, None))
    case OutputItem(_, index, Some(item)) =>
      (match TypeOf(item.kind)
       case None => None
       case Some(toolType) =>
         var final := if toolType == Function then item.arguments else item.input;
         Some(Write(index, toolType, item.callId, item.name, Some(toolType), "", final)))
    case _ => None
  }

  function PhaseOf(item: StreamItem): Option<Phase> {
    if item.kind.MessageItem? then item.kind.phase else None
  }

  function FirstPhase(items: seq<StreamItem>): Option<Phase> {
    if items == [] then None else if PhaseOf(items[0]).Some? then PhaseOf(items[0]) else FirstPhase(items[1..])
  }

  predicate EndsWithBlankLine(s: string) {
    |s| >= 2 && s[|s| - 2..] == "\n\n"
  }

  /** The part of the state that is not tool calls. */
  function ApplyRest(s: State, e: Event): State {
    match e
    case OutputText(Some(delta)) => s.(text := s.text + delta)
    case ReasoningText(Some(delta)) => s.(thinking := Some(Or(s.thinking, "") + delta))
    case ReasoningPart =>
      if s.thinking.Some? && s.thinking.value != "" && !EndsWithBlankLine(s.thinking.value)
      then s.(thinking := Some(s.thinking.value + "\n\n")) else s
    case OutputItem(done, _, Some(item)) =>
      s.(reasoningItems :=
           if done && item.kind.ReasoningItem? && item.encrypted then s.reasoningItems + [item.json]
           else s.reasoningItems,
         phase := if s.phase.None? then PhaseOf(item) else s.phase)
    case Completed(outputs) => s.(phase := if s.phase.None? then FirstPhase(outputs) else s.phase)
    case _ => s
  }

  function Apply(s: State, e: Event): State {
    ApplyRest(s, e).(slots := if WriteOf(e).Some? then Written(s.slots, WriteOf(e).value) else s.slots)
  }

  datatype Verdict = KeepReading | Finished | ModelError

  function VerdictOf(e: Event): Verdict {
    if e.Completed? then Finished else if e.Failed? then ModelError else KeepReading
  }

  /** The accumulator as the source updates it. */
  class Accumulator {
    var text: string
    var thinking: Option<string>
    var toolCalls: seq<Slot>
    var phase: Option<Phase>
    var reasoningItems: seq<string>

    constructor ()
      ensures View() == Blank
    {
      text, thinking, toolCalls, phase, reasoningItems := "", None, [], None, [];
    }

    function View(): State
      reads this
    {
      State(text, thinking, toolCalls, phase, reasoningItems)
    }

    method AppendArguments(index: nat, delta: string, custom: bool)
      modifies this`toolCalls
      ensures var e := if custom then CustomInputDelta(index, Some(delta)) else ArgumentsDelta(index, Some(delta));
        View() == Apply(old(View()), e)
    {
      hide Padded;
      toolCalls := PadTo(toolCalls, index, if custom then Custom else Function);
      var slot := toolCalls[index];
      if custom {
        slot := slot.(toolType := Custom);
      }
      toolCalls := toolCalls[index := slot.(arguments := slot.arguments + delta)];
    }

    method FillSlot(index: nat, toolType: ToolType, item: StreamItem)
      requires TypeOf(item.kind) == Some(toolType)
      modifies this`toolCalls
      ensures toolCalls == Written(old(toolCalls), WriteOf(OutputItem(true, index, Some(item))).value)
    {
      hide Padded;
      toolCalls := PadTo(toolCalls, index, toolType);
      var slot := toolCalls[index].(toolType := toolType);
      if item.callId.Some? {
        slot := slot.(id := item.callId.value);
      }
      if item.name.Some? {
        slot := slot.(name := item.name.value);
      }
      if slot.arguments == "" {
        var final := if toolType == Function then item.arguments else item.input;
        if final.Some? {
          slot := slot.(arguments := final.value);
        }
      }
      assert slot.arguments + "" == slot.arguments;
      toolCalls := toolCalls[index := slot];
    }

    method ApplyEvent(e: Event) returns (verdict: Verdict)
      modifies this
      ensures View() == Apply(old(View()), e)
      ensures verdict == VerdictOf(e)
    {
      hide Written, FirstPhase, PhaseOf, EndsWithBlankLine;
      verdict := KeepReading;
      match e
      case OutputText(Some(delta)) => text := text + delta;
      case ReasoningText(Some(delta)) => thinking := Some(Or(thinking, "") + delta);
      case ReasoningPart =>
        if thinking.Some? && thinking.value != "" && !EndsWithBlankLine(thinking.value) {
          thinking := Some(thinking.value + "\n\n");
        }
      case ArgumentsDelta(index, Some(delta)) => AppendArguments(index, delta, false);
      case CustomInputDelta(index, Some(delta)) => AppendArguments(index, delta, true);
      case OutputItem(done, index, Some(item)) =>
        var toolType := TypeOf(item.kind);
        if toolType.Some? {
          FillSlot(index, toolType.value, item);
        }
        if done && item.kind.ReasoningItem? && item.encrypted {
          reasoningItems := reasoningItems + [item.json];
        }
        if phase.None? {
          phase := PhaseOf(item);
        }
      case Completed(outputs) =>
        if phase.None? {
          phase := FirstPhase(outputs);
        }
        verdict := Finished;
      case Failed => verdict := ModelError;
      case _ =>
    }
  }

  // ---- Whole streams --------------------------------------------------------

  function After(events: seq<Event>): State {
    if events == [] then Blank else Apply(After(events[..|events| - 1]), events[|events| - 1])
  }

  /** How many events are read: up to and including the first that ends the stream. */
  function ReadLength(events: seq<Event>): (n: nat)
    ensures n <= |events|
  {
    if events == [] then 0 else if VerdictOf(events[0]) != KeepReading then 1 else 1 + ReadLength(events[1..])
  }

  lemma {:induction false} ReadLengthIs(events: seq<Event>, n: nat)
    requires n <= |events|
    requires forall i :: 0 <= i < n ==> VerdictOf(events[i]) == KeepReading
    requires n == |events| || VerdictOf(events[n]) != KeepReading
    ensures ReadLength(events) == if n == |events| then n else n + 1
  {
    if n != 0 {
      assert VerdictOf(events[0]) == KeepReading;
      ReadLengthIs(events[1..], n - 1);
    }
  }

  /** A stream that fails yields nothing; one that is cut short yields what it had. */
  method ReadStream(events: seq<Event>) returns (r: Option<State>)
    ensures var n := ReadLength(events);
      r == if n > 0 && events[n - 1].Failed? then None else Some(After(events[..n]))
  {
    var state := new Accumulator();
    for i := 0 to |events|
      invariant fresh(state)
      invariant state.View() == After(events[..i])
      invariant forall j :: 0 <= j < i ==> VerdictOf(events[j]) == KeepReading
    {
      var verdict := state.ApplyEvent(events[i]);
      assert events[..i + 1][..i] == events[..i];
      if verdict != KeepReading {
        ReadLengthIs(events, i);
        return if verdict == Finished then Some(state.View()) else None;
      }
    }
    ReadLengthIs(events, |events|);
    assert events[..|events|] == events;
    return Some(state.View());
  }

  function Writes(events: seq<Event>): seq<Write> {
    if events == [] then [] else
      var earlier, w := Writes(events[..|events| - 1]), WriteOf(events[|events| - 1]);
      if w.Some? then earlier + [w.value] else earlier
  }

  function Texts(events: seq<Event>): string {
    if events == [] then "" else
      var earlier, e := Texts(events[..|events| - 1]), events[|events| - 1];
      if e.OutputText? && e.delta.Some? then earlier + e.delta.value else earlier
  }

  lemma {:induction false} SlotsAreWritten(events: seq<Event>)
    ensures After(events).slots == Slots([], Writes(events))
  {
    hide Written, WriteOf, ApplyRest;
    if events != [] {
      var init, w := events[..|events| - 1], WriteOf(events[|events| - 1]);
      SlotsAreWritten(init);
      if w.Some? {
        assert (Writes(init) + [w.value])[..|Writes(init)|] == Writes(init);
      }
    }
  }

  lemma {:induction false} TextIsItsDeltas(events: seq<Event>)
    ensures After(events).text == Texts(events)
  {
    hide Written, WriteOf;
    if events != [] {
      TextIsItsDeltas(events[..|events| - 1]);
    }
  }

  lemma {:induction false} WritesAreTyped(events: seq<Event>)
    ensures forall i :: 0 <= i < |Writes(events)| ==> TypesWhatItNames(Writes(events)[i])
  {
    if events != [] {
      WritesAreTyped(events[..|events| - 1]);
      EventTypesWhatItNames(events[|events| - 1]);
      hide WriteOf, TypesWhatItNames;
    }
  }

  lemma EventTypesWhatItNames(e: Event)
    ensures WriteOf(e).Some? ==> TypesWhatItNames(WriteOf(e).value)
  {
  }

  /** Two streams whose events agree index by index and in their text deltas give
      the same answer text and the same tool calls, however they interleave. */
  lemma {:induction false} StreamOrderDoesNotMatter(es: seq<Event>, fs: seq<Event>)
    requires forall i: nat :: Lane(Writes(es), i) == Lane(Writes(fs), i)
    requires Texts(es) == Texts(fs)
    ensures CallsIn(After(es).slots) == CallsIn(After(fs).slots)
    ensures After(es).text == After(fs).text
  {
    hide Writes, Slots, Lane, CallsIn, Texts, TypesWhatItNames;
    SlotsAreWritten(es);
    SlotsAreWritten(fs);
    TextIsItsDeltas(es);
    TextIsItsDeltas(fs);
    WritesAreTyped(es);
    WritesAreTyped(fs);
    InterleavingDoesNotMatter(Writes(es), Writes(fs));
  }

  // ---- What a stream says of each call --------------------------------------

  /** The event describes the function or custom call at this index. */
  predicate Describes(e: Event, index: nat) {
    e.OutputItem? && e.index == index && e.item.Some? && e.item.value.kind in {FunctionCall, CustomCall}
  }

  /** All argument and input deltas of an index, in order. */
  function DeltasAt(events: seq<Event>, index: nat): string {
    if events == [] then "" else
      var e := events[|events| - 1];
      DeltasAt(events[..|events| - 1], index) +
        if (e.ArgumentsDelta? || e.CustomInputDelta?) && e.index == index && e.delta.Some? then e.delta.value else ""
  }

  /** The last call id, and the last name, given at an index. */
  function IdAt(events: seq<Event>, index: nat): string {
    if events == [] then "" else
      var e := events[|events| - 1];
      if Describes(e, index) && e.item.value.callId.Some? then e.item.value.callId.value
      else IdAt(events[..|events| - 1], index)
  }

  function NameAt(events: seq<Event>, index: nat): string {
    if events == [] then "" else
      var e := events[|events| - 1];
      if Describes(e, index) && e.item.value.name.Some? then e.item.value.name.value
      else NameAt(events[..|events| - 1], index)
  }

  /** A custom call if the last item or custom delta at the index says so. */
  function TypeAt(events: seq<Event>, index: nat): ToolType {
    if events == [] then Function else
      var e := events[|events| - 1];
      if Describes(e, index) then if e.item.value.kind == CustomCall then Custom else Function
      else if e.CustomInputDelta? && e.index == index && e.delta.Some? then Custom
      else TypeAt(events[..|events| - 1], index)
  }

  /** The first final input that is not empty, if no delta came before it. */
  function FinalAt(events: seq<Event>, index: nat): string {
    if events == [] then "" else
      var earlier, e := events[..|events| - 1], events[|events| - 1];
      if Describes(e, index) && FinalAt(earlier, index) == DeltasAt(earlier, index) == "" then
        var item := e.item.value;
        var final := if item.kind == CustomCall then item.input else item.arguments;
        if final.Some? then final.value else ""
      else FinalAt(earlier, index)
  }

  function ToldAt(events: seq<Event>, index: nat): Slot {
    Slot(IdAt(events, index), NameAt(events, index), TypeAt(events, index),
         FinalAt(events, index) + DeltasAt(events, index))
  }

  lemma ToldSnoc(events: seq<Event>, e: Event, index: nat)
    ensures var w := WriteOf(e);
      ToldAt(events + [e], index) ==
        if w.Some? && w.value.index == index then Updated(ToldAt(events, index), w.value) else ToldAt(events, index)
  {
    assert (events + [e])[..|events|] == events;
    var told := ToldAt(events, index);
    assert told.arguments + "" == told.arguments;
    assert forall d: string :: FinalAt(events, index) + (DeltasAt(events, index) + d) == told.arguments + d;
    assert DeltasAt(events, index) + "" == DeltasAt(events, index);
    assert forall d: string :: d + "" == d && "" + d == d;
  }

  lemma {:induction false} LaneIsTold(events: seq<Event>, index: nat)
    ensures Alone(Lane(Writes(events), index)) == ToldAt(events, index)
  {
    hide ToldAt, WriteOf, Updated, Lane, Alone;
    if events == [] {
      NothingTold(index);
    } else {
      var init, e := events[..|events| - 1], events[|events| - 1];
      LaneIsTold(init, index);
      ToldSnoc(init, e, index);
      assert init + [e] == events;
      if WriteOf(e).Some? {
        LaneSnoc(Writes(init), WriteOf(e).value, index);
      }
    }
  }

  lemma NothingTold(index: nat)
    ensures ToldAt([], index) == Padding(Function) == Alone(Lane([], index))
  {
  }

  /** After a stream every slot holds what the events of its index say, its type
      once it has a name; an index beyond the slots has been given none. */
  lemma SlotsAreTold(events: seq<Event>)
    ensures var slots := After(events).slots;
      && (forall i :: 0 <= i < |slots| ==> Matches(slots[i], ToldAt(events, i)))
      && (forall i: nat :: |slots| <= i ==> NameAt(events, i) == "")
  {
    hide ToldAt, Lane, Alone, Matches, Writes, Slots, After;
    SlotsAreWritten(events);
    WritesAreTyped(events);
    TypedWritesMatch(Writes(events));
    forall i: nat
      ensures Alone(Lane(Writes(events), i)) == ToldAt(events, i)
      ensures Lane(Writes(events), i) == [] ==> NameAt(events, i) == ""
    {
      LaneIsTold(events, i);
      NameOfSlot(events, i);
      NothingTold(i);
      EmptyLane(Writes(events), i);
    }
  }

  lemma NameOfSlot(events: seq<Event>, index: nat)
    ensures ToldAt(events, index).name == NameAt(events, index)
  {
  }

  lemma EmptyLane(writes: seq<Write>, index: nat)
    ensures Lane(writes, index) == [] ==> Alone(Lane(writes, index)).name == ""
  {
  }

  /** The type of the first event to write past an index: deltas count as a
      function's or a custom tool's as they are, items as they say. */
  function TypePast(events: seq<Event>, index: nat): Option<ToolType> {
    if events == [] then None else
      var earlier := TypePast(events[..|events| - 1], index);
      if earlier.Some? then earlier else
        match events[|events| - 1]
        case ArgumentsDelta(i, Some(_)) => if index < i then Some(Function) else None
        case CustomInputDelta(i, Some(_)) => if index < i then Some(Custom) else None
        case OutputItem(_, i, Some(item)) => if index < i then TypeOf(item.kind) else None
        case _ => None
  }

  /** A slot no event has written to is there exactly when one has written past
      it, and has that event's type. */
  lemma {:induction false} PassedOverSlot(events: seq<Event>, index: nat)
    requires Lane(Writes(events), index) == []
    ensures var slots := After(events).slots;
      && (index < |slots| <==> TypePast(events, index).Some?)
      && (index < |slots| ==> slots[index] == Padding(TypePast(events, index).value))
  {
    hide Written, Padded, ApplyRest;
    if events != [] {
      var init, e := events[..|events| - 1], events[|events| - 1];
      if WriteOf(e).Some? {
        assert (Writes(init) + [WriteOf(e).value])[..|Writes(init)|] == Writes(init);
        WrittenAt(After(init).slots, WriteOf(e).value, index);
      }
      PassedOverSlot(init, index);
    }
  }

  /** The reasoning items kept are the finished, encrypted ones, in order. */
  function ReasoningIn(events: seq<Event>): seq<string> {
    if events == [] then [] else
      var e := events[|events| - 1];
      ReasoningIn(events[..|events| - 1]) +
        match e
        case OutputItem(true, _, Some(StreamItem(ReasoningItem, _, _, _, _, true, json))) => [json]
        case _ => []
  }

  lemma {:induction false} ReasoningIsKept(events: seq<Event>)
    ensures After(events).reasoningItems == ReasoningIn(events)
  {
    hide Written, WriteOf, FirstPhase;
    if events != [] {
      ReasoningIsKept(events[..|events| - 1]);
    }
  }

  /** The thinking text grows by its deltas; between parts it gets a blank line
      unless it is empty or ends with one already; nothing else touches it. */
  lemma ThinkingGrows(events: seq<Event>, e: Event)
    ensures var s, t := After(events).thinking, After(events + [e]).thinking;
      var before := if s.Some? then s.value else "";
      if e.ReasoningText? && e.delta.Some? then t == Some(before + e.delta.value)
      else if e.ReasoningPart? && before != "" then
        && t.Some? && (t.value == before || t.value == before + "\n\n")
        && (t.value == before <==> exists text :: before == text + "\n\n")
      else t == s
  {
    hide Written, WriteOf, FirstPhase;
    assert (events + [e])[..|events|] == events;
    var before := Or(After(events).thinking, "");
    BlankLineAtEnd(before);
  }

  lemma BlankLineAtEnd(s: string)
    ensures EndsWithBlankLine(s) <==> exists text :: s == text + "\n\n"
  {
    if EndsWithBlankLine(s) {
      assert s == s[..|s| - 2] + "\n\n";
    }
    forall text | s == text + "\n\n" ensures EndsWithBlankLine(s) {
      assert s[|s| - 2..] == "\n\n";
    }
  }

  /** A stream is read to the first event that completes or fails it. */
  lemma {:induction false} ReadsToFirstEnd(events: seq<Event>)
    ensures var n := ReadLength(events);
      && (forall i :: 0 <= i < n - 1 ==> !events[i].Completed? && !events[i].Failed?)
      && (n < |events| ==> 0 < n && (events[n - 1].Completed? || events[n - 1].Failed?))
  {
    if events != [] {
      ReadsToFirstEnd(events[1..]);
    }
  }

  /** The phase an event carries for the whole response. */
  function CarriedBy(e: Event): Option<Phase> {
    match e
    case OutputItem(_, _, Some(item)) => PhaseOf(item)
    case Completed(outputs) => FirstPhase(outputs)
    case _ => None
  }

  function FirstCarried(events: seq<Event>): Option<Phase> {
    if events == [] then None
    else if CarriedBy(events[0]).Some? then CarriedBy(events[0])
    else FirstCarried(events[1..])
  }

  lemma {:induction false} FirstCarriedSnoc(events: seq<Event>, e: Event)
    ensures FirstCarried(events + [e]) == if FirstCarried(events).Some? then FirstCarried(events) else CarriedBy(e)
  {
    hide CarriedBy;
    if events == [] {
      assert [] + [e] == [e] && [e][1..] == [];
    } else {
      assert (events + [e])[1..] == events[1..] + [e];
      FirstCarriedSnoc(events[1..], e);
    }
  }

  /** The phase of a response is the first one its events carry. */
  lemma {:induction false} PhaseIsFirstCarried(events: seq<Event>)
    ensures After(events).phase == FirstCarried(events)
  {
    hide Written, WriteOf, FirstPhase, FirstCarried;
    if events == [] {
      NothingCarried();
    } else {
      var init, e := events[..|events| - 1], events[|events| - 1];
      PhaseIsFirstCarried(init);
      FirstCarriedSnoc(init, e);
      assert init + [e] == events;
    }
  }

  lemma NothingCarried()
    ensures FirstCarried([]) == None
  {
  }

  /** The items a stream shows, one by one and then all together. */
  function ItemsIn(events: seq<Event>): seq<StreamItem> {
    if events == [] then [] else
      ItemsIn(events[..|events| - 1]) +
        match events[|events| - 1]
        case OutputItem(_, _, Some(item)) => [item]
        case Completed(outputs) => outputs
        case _ => []
  }

  predicate SaysPhase(item: StreamItem) {
    item.kind.MessageItem? && item.kind.phase.Some?
  }

  /** `phase` is that of the first message item that has one. */
  ghost predicate IsFirstPhase(items: seq<StreamItem>, phase: Option<Phase>) {
    match phase
    case None => forall i :: 0 <= i < |items| ==> !SaysPhase(items[i])
    case Some(_) => exists i :: 0 <= i < |items| && SaysPhase(items[i]) && items[i].kind.phase == phase
                      && forall j :: 0 <= j < i ==> !SaysPhase(items[j])
  }

  lemma {:induction false} FirstPhaseIs(items: seq<StreamItem>)
    ensures IsFirstPhase(items, FirstPhase(items))
  {
    if items != [] && !SaysPhase(items[0]) {
      FirstPhaseIs(items[1..]);
      if FirstPhase(items).Some? {
        var i :| 0 <= i < |items| - 1 && SaysPhase(items[1..][i]) && items[1..][i].kind.phase == FirstPhase(items)
              && forall j :: 0 <= j < i ==> !SaysPhase(items[1..][j]);
        assert items[i + 1] == items[1..][i];
        forall j | 0 <= j < i + 1 ensures !SaysPhase(items[j]) {
          assert j > 0 ==> items[j] == items[1..][j - 1];
        }
      } else {
        assert forall j :: 1 <= j < |items| ==> items[j] == items[1..][j - 1];
      }
    }
  }

  lemma FirstPhaseJoin(a: seq<StreamItem>, b: seq<StreamItem>, p: Option<Phase>, q: Option<Phase>)
    requires IsFirstPhase(a, p) && IsFirstPhase(b, q)
    ensures IsFirstPhase(a + b, if p.Some? then p else q)
  {
    if p.Some? {
      var i :| 0 <= i < |a| && SaysPhase(a[i]) && a[i].kind.phase == p && forall j :: 0 <= j < i ==> !SaysPhase(a[j]);
      assert (a + b)[i] == a[i];
    } else if q.Some? {
      var i :| 0 <= i < |b| && SaysPhase(b[i]) && b[i].kind.phase == q && forall j :: 0 <= j < i ==> !SaysPhase(b[j]);
      assert (a + b)[|a| + i] == b[i];
    }
  }

  /** Item by item: the phase of the first message, in the order shown, that has one. */
  lemma {:induction false} PhaseIsFirstMessages(events: seq<Event>)
    ensures IsFirstPhase(ItemsIn(events), After(events).phase)
  {
    hide Written, WriteOf, FirstPhase, IsFirstPhase;
    if events == [] {
      assert IsFirstPhase([], None) by { FirstPhaseIs([]); NoItems(); }
    } else {
      var init, e := events[..|events| - 1], events[|events| - 1];
      PhaseIsFirstMessages(init);
      var shown := match e
        case OutputItem(_, _, Some(item)) => [item]
        case Completed(outputs) => outputs
        case _ => [];
      FirstPhaseIs(shown);
      OneItem(e);
      FirstPhaseJoin(ItemsIn(init), shown, After(init).phase, FirstPhase(shown));
    }
  }

  lemma OneItem(e: Event)
    ensures FirstPhase([]) == None
    ensures e.OutputItem? && e.item.Some? ==> FirstPhase([e.item.value]) == PhaseOf(e.item.value)
  {
  }

  lemma NoItems()
    ensures FirstPhase([]) == None
  {
  }

  /** So the phase is not protected from interleaving as the calls are: two
      streams agree on it exactly when the first phases they carry agree. */
  lemma PhasesAgreeIff(es: seq<Event>, fs: seq<Event>)
    ensures After(es).phase == After(fs).phase <==> FirstCarried(es) == FirstCarried(fs)
  {
    PhaseIsFirstCarried(es);
    PhaseIsFirstCarried(fs);
  }

  /** The same two items in either order, for instance. */
  lemma PhaseDependsOnOrder(a: StreamItem, b: StreamItem, i: nat, j: nat)
    requires PhaseOf(a) == Some(Commentary) && PhaseOf(b) == Some(FinalAnswer)
    ensures After([OutputItem(true, i, Some(a)), OutputItem(true, j, Some(b))]).phase == Some(Commentary)
    ensures After([OutputItem(true, j, Some(b)), OutputItem(true, i, Some(a))]).phase == Some(FinalAnswer)
  {
    hide After;
    PhaseIsFirstCarried([OutputItem(true, i, Some(a)), OutputItem(true, j, Some(b))]);
    PhaseIsFirstCarried([OutputItem(true, j, Some(b)), OutputItem(true, i, Some(a))]);
  }

  // ---- Chat-completions choices ---------------------------------------------

  /** One entry of a choice's `tool_calls`. */
  datatype CallDelta = CallDelta(
    index: Option<nat>, id: Option<string>, saysCustom: bool, functionPart: Option<Part>, customPart: Option<Part>)

  datatype Part = Part(name: Option<string>, content: Option<string>)

  function NameIn(part: Option<Part>): Option<string> {
    if part.Some? then part.value.name else None
  }

  function ContentIn(part: Option<Part>): string {
    if part.Some? then Or(part.value.content, "") else ""
  }

  function ChatWrite(d: CallDelta): Write {
    Write(Or(d.index, 0), Function, d.id,
          if NameIn(d.customPart).Some? then NameIn(d.customPart) else NameIn(d.functionPart),
          if d.saysCustom || d.customPart.Some? then Some(Custom) else None,
          ContentIn(d.functionPart) + ContentIn(d.customPart), None)
  }

  function ChatWrites(deltas: seq<CallDelta>): seq<Write> {
    seq(|deltas|, i requires 0 <= i < |deltas| => ChatWrite(deltas[i]))
  }

  method ApplyCallDelta(slots0: seq<Slot>, d: CallDelta) returns (slots: seq<Slot>)
    ensures slots == Written(slots0, ChatWrite(d))
  {
    hide Padded;
    var index := Or(d.index, 0);
    slots := PadTo(slots0, index, Function);
    ghost var start := slots[index];
    var acc := slots[index];
    if d.id.Some? {
      acc := acc.(id := d.id.value);
    }
    if d.saysCustom || d.customPart.Some? {
      acc := acc.(toolType := Custom);
    }
    acc := Extended(acc, d.functionPart);
    acc := Extended(acc, d.customPart);
    assert start.arguments + (ContentIn(d.functionPart) + ContentIn(d.customPart))
        == start.arguments + ContentIn(d.functionPart) + ContentIn(d.customPart);
    slots := slots[index := acc];
  }

  function Extended(slot: Slot, part: Option<Part>): (r: Slot)
    ensures r == slot.(name := Or(NameIn(part), slot.name), arguments := slot.arguments + ContentIn(part))
  {
    assert slot.arguments + "" == slot.arguments;
    match part
    case None => slot
    case Some(Part(name, content)) =>
      var named := if name.Some? then slot.(name := name.value) else slot;
      if content.Some? then named.(arguments := named.arguments + content.value) else named
  }

  /** The tool calls of one choice, applied in order. */
  method ApplyStreamChoice(slots0: seq<Slot>, deltas: seq<CallDelta>) returns (slots: seq<Slot>)
    ensures slots == Slots(slots0, ChatWrites(deltas))
  {
    hide Written, ChatWrite, ChatWrites, Slots;
    slots := slots0;
    assert Slots(slots0, ChatWrites([])) == slots0 by { NoDeltas(slots0); }
    for i := 0 to |deltas|
      invariant slots == Slots(slots0, ChatWrites(deltas[..i]))
    {
      slots := ApplyCallDelta(slots, deltas[i]);
      OneMoreDelta(slots0, deltas, i);
    }
    assert deltas[..|deltas|] == deltas;
  }

  lemma NoDeltas(slots: seq<Slot>)
    ensures Slots(slots, ChatWrites([])) == slots
  {
  }

  lemma OneMoreDelta(slots: seq<Slot>, deltas: seq<CallDelta>, i: nat)
    requires i < |deltas|
    ensures Slots(slots, ChatWrites(deltas[..i + 1]))
         == Written(Slots(slots, ChatWrites(deltas[..i])), ChatWrite(deltas[i]))
  {
    hide Written, ChatWrite;
    var writes := ChatWrites(deltas[..i + 1]);
    assert writes[..i] == ChatWrites(deltas[..i]) && writes[i] == ChatWrite(deltas[i]);
  }

  /** Chat deltas never pad with the custom type, so their slots do not even
      differ along the way: each equals the one its own deltas build. */
  lemma ChatSlotsAreExact(deltas: seq<CallDelta>)
    ensures SlotsAre(Slots([], ChatWrites(deltas)), ChatWrites(deltas))
    ensures Settled(ChatWrites(deltas))
  {
    PlainPaddingIsExact(ChatWrites(deltas));
  }

  lemma ChatOrderDoesNotMatter(ds: seq<CallDelta>, es: seq<CallDelta>)
    requires forall i: nat :: Lane(ChatWrites(ds), i) == Lane(ChatWrites(es), i)
    ensures CallsIn(Slots([], ChatWrites(ds))) == CallsIn(Slots([], ChatWrites(es)))
  {
    ChatSlotsAreExact(ds);
    ChatSlotsAreExact(es);
    InterleavingDoesNotMatter(ChatWrites(ds), ChatWrites(es));
  }

  // ---- What chat deltas say of each call ------------------------------------

  predicate At(d: CallDelta, index: nat) {
    if d.index.Some? then d.index.value == index else index == 0
  }

  /** The last id, and the last name, given at an index; a custom part's name
      goes before a function part's. */
  function ChatId(deltas: seq<CallDelta>, index: nat): string {
    if deltas == [] then "" else
      var d := deltas[|deltas| - 1];
      if At(d, index) && d.id.Some? then d.id.value else ChatId(deltas[..|deltas| - 1], index)
  }

  function ChatName(deltas: seq<CallDelta>, index: nat): string {
    if deltas == [] then "" else
      var d := deltas[|deltas| - 1];
      if At(d, index) && d.customPart.Some? && d.customPart.value.name.Some? then d.customPart.value.name.value
      else if At(d, index) && d.functionPart.Some? && d.functionPart.value.name.Some?
      then d.functionPart.value.name.value
      else ChatName(deltas[..|deltas| - 1], index)
  }

  /** Custom from the first delta on that says so or has a custom part. */
  predicate ChatCustom(deltas: seq<CallDelta>, index: nat) {
    exists i :: 0 <= i < |deltas| && At(deltas[i], index) && (deltas[i].saysCustom || deltas[i].customPart.Some?)
  }

  function ChatArguments(deltas: seq<CallDelta>, index: nat): string {
    if deltas == [] then "" else
      var d := deltas[|deltas| - 1];
      var earlier := ChatArguments(deltas[..|deltas| - 1], index);
      if !At(d, index) then earlier else
        var function_ := if d.functionPart.Some? && d.functionPart.value.content.Some?
                         then d.functionPart.value.content.value else "";
        var custom := if d.customPart.Some? && d.customPart.value.content.Some?
                      then d.customPart.value.content.value else "";
        earlier + function_ + custom
  }

  lemma ChatSnoc(deltas: seq<CallDelta>, d: CallDelta, index: nat)
    ensures ChatCustom(deltas + [d], index)
       <==> ChatCustom(deltas, index) || (At(d, index) && (d.saysCustom || d.customPart.Some?))
    ensures ChatWrites(deltas + [d]) == ChatWrites(deltas) + [ChatWrite(d)]
    ensures ChatWrite(d).index == index <==> At(d, index)
  {
    var longer := deltas + [d];
    if ChatCustom(deltas, index) {
      var i :| 0 <= i < |deltas| && At(deltas[i], index) && (deltas[i].saysCustom || deltas[i].customPart.Some?);
      assert longer[i] == deltas[i];
    }
    assert longer[|deltas|] == d;
  }

  function ChatTold(deltas: seq<CallDelta>, index: nat): Slot {
    Slot(ChatId(deltas, index), ChatName(deltas, index), if ChatCustom(deltas, index) then Custom else Function,
         ChatArguments(deltas, index))
  }

  lemma ChatToldSnoc(deltas: seq<CallDelta>, d: CallDelta, index: nat)
    ensures ChatTold(deltas + [d], index) ==
      if At(d, index) then Updated(ChatTold(deltas, index), ChatWrite(d)) else ChatTold(deltas, index)
  {
    assert (deltas + [d])[..|deltas|] == deltas;
    ChatSnoc(deltas, d, index);
    hide ChatCustom, ChatWrites;
    assert ChatArguments(deltas + [d], index) ==
      if At(d, index) then ChatArguments(deltas, index) + (ContentIn(d.functionPart) + ContentIn(d.customPart))
      else ChatArguments(deltas, index);
  }

  lemma {:induction false} ChatLaneIsTold(deltas: seq<CallDelta>, index: nat)
    ensures Alone(Lane(ChatWrites(deltas), index)) == ChatTold(deltas, index)
  {
    hide ChatTold, ChatWrite, ChatWrites, Updated, Lane, Alone, ChatCustom;
    if deltas == [] {
      NothingChatted(index);
    } else {
      var init, d := deltas[..|deltas| - 1], deltas[|deltas| - 1];
      ChatLaneIsTold(init, index);
      ChatSnoc(init, d, index);
      ChatToldSnoc(init, d, index);
      assert init + [d] == deltas;
      LaneSnoc(ChatWrites(init), ChatWrite(d), index);
    }
  }

  lemma NothingChatted(index: nat)
    ensures Alone(Lane(ChatWrites([]), index)) == ChatTold([], index)
  {
  }

  /** The slots of a choice hold exactly what its deltas say, index by index. */
  lemma ChatSlotsAreTold(deltas: seq<CallDelta>)
    ensures var slots := Slots([], ChatWrites(deltas));
      && (forall i :: 0 <= i < |slots| ==> slots[i] == ChatTold(deltas, i))
      && (forall i: nat :: |slots| <= i ==> ChatTold(deltas, i) == Padding(Function))
  {
    hide ChatTold, Slots, Lane, Alone, ChatWrites;
    ChatSlotsAreExact(deltas);
    forall i: nat ensures Alone(Lane(ChatWrites(deltas), i)) == ChatTold(deltas, i) {
      ChatLaneIsTold(deltas, i);
    }
    assert Alone([]) == Padding(Function) by { NoWrites(); }
  }

  lemma NoWrites()
    ensures Alone([]) == Padding(Function)
  {
  }
}
