/**
 What a Responses request's input says, whatever items the blocks were packed
 into: read back line by line it is the conversation, piece for piece.
 */
module RequestContent {
  import opened Basics
  import opened ResponsesRequest

  datatype Piece =
    | Said(role: Role, phase: Option<Phase>, text: string)
    | Called(toolType: ToolType, id: string, name: string, payload: string)
    | Answered(id: string, output: string)
    | Thought(json: string)

  function Lines(text: string): (r: seq<string>)
    ensures |r| > 0
  {
    if text == [] then [""] else
      AddChar(Lines(text[..|text| - 1]), text[|text| - 1])
  }

  function AddChar(lines: seq<string>, c: char): (r: seq<string>)
    requires |lines| > 0
    ensures |r| > 0
  {
    var last := lines[|lines| - 1];
    if c == '\n' then lines + [""] else lines[..|lines| - 1] + [last + [c]]
  }

  function SayAll(role: Role, phase: Option<Phase>, texts: seq<string>): seq<Piece> {
    seq(|texts|, i requires 0 <= i < |texts| => Said(role, phase, texts[i]))
  }

  function PiecesOf(item: Item): seq<Piece> {
    match item
    case UserMessage(texts) => SayAll(User, None, texts)
    case AssistantMessage(text, phase) => SayAll(Assistant, phase, Lines(text))
    case CallOutput(_, id, output) => [Answered(id, output)]
    case Replayed(json) => [Thought(json)]
    case FunctionCall(_, id, name, arguments) => [Called(Function, id, name, arguments)]
    case CustomCall(_, id, name, input) => [Called(Custom, id, name, input)]
  }

  function Pieces(items: seq<Item>): seq<Piece> {
    if items == [] then [] else Pieces(items[..|items| - 1]) + PiecesOf(items[|items| - 1])
  }

  function Stamp(w: Wire, phase: Option<Phase>): Option<Phase> {
    if w.supportsPhase then Some(if phase.Some? then phase.value else FinalAnswer) else None
  }

  function SaidBy(w: Wire, role: Role, phase: Option<Phase>, text: string): seq<Piece> {
    match role
    case User => [Said(User, None, text)]
    case Assistant => SayAll(Assistant, Stamp(w, phase), Lines(text))
  }

  /** What one block says, whatever item it ends up in. */
  function Meaning(w: Wire, t: Tick): seq<Piece> {
    match t
    case Visit(role, phase, Text(text)) => SaidBy(w, role, phase, text)
    case Visit(User, _, ToolResult(id, content, isError)) =>
      [Answered(id, if isError then "ERROR: " + content else content)]
    case Visit(Assistant, _, ToolUse(id, name, toolType, input)) =>
      var payload := if toolType == Custom && input.TextInput? then input.text else w.toJson(input);
      [Called(toolType, id, EncodeName(name), payload)]
    case Visit(Assistant, _, Reasoning(item)) =>
      if w.reparse(item).Some? then [Thought(w.reparse(item).value)] else []
    case _ => []
  }

  function Meanings(w: Wire, ticks: seq<Tick>): seq<Piece> {
    if ticks == [] then [] else Meanings(w, ticks[..|ticks| - 1]) + Meaning(w, ticks[|ticks| - 1])
  }

  function PendingPieces(w: Wire, role: Role, phase: Option<Phase>, pending: seq<string>): seq<Piece> {
    if pending == [] then [] else
      PendingPieces(w, role, phase, pending[..|pending| - 1]) + SaidBy(w, role, phase, pending[|pending| - 1])
  }

  lemma {:induction false} LinesOfJoin(a: string, b: string)
    ensures Lines(a + "\n" + b) == Lines(a) + Lines(b)
  {
    hide AddChar;
    if b == [] {
      assert (a + "\n" + b)[..|a|] == a;
      AddCharAfter(Lines(a), [""], '\n');
    } else {
      var init, c := b[..|b| - 1], b[|b| - 1];
      LinesOfJoin(a, init);
      assert (a + "\n" + b)[..|a| + |b|] == a + "\n" + init;
      AddCharAfter(Lines(a), Lines(init), c);
    }
  }

  lemma AddCharAfter(lines: seq<string>, more: seq<string>, c: char)
    requires |more| > 0
    ensures AddChar(lines + more, c) == lines + AddChar(more, c)
    ensures |lines| > 0 ==> AddChar(lines, '\n') == lines + [""]
  {
  }

  lemma {:induction false} PendingIsItsItem(w: Wire, role: Role, phase: Option<Phase>, pending: seq<string>)
    requires pending != []
    ensures PiecesOf(TextItem(w, role, phase, pending)) == PendingPieces(w, role, phase, pending)
  {
    var init, last := pending[..|pending| - 1], pending[|pending| - 1];
    if init == [] {
      assert PendingPieces(w, role, phase, init) == [];
      assert pending == [last];
    } else {
      PendingIsItsItem(w, role, phase, init);
      hide Lines, SayAll;
      if role == Assistant {
        LinesOfJoin(Join(init), last);
        SayAllJoin(Assistant, Stamp(w, phase), Lines(Join(init)), Lines(last));
      } else {
        SayAllJoin(User, None, init, [last]);
        assert pending == init + [last];
        assert SayAll(User, None, [last]) == [Said(User, None, last)] by { SayOne(User, None, last); }
      }
    }
  }

  lemma SayOne(role: Role, phase: Option<Phase>, text: string)
    ensures SayAll(role, phase, [text]) == [Said(role, phase, text)]
  {
  }

  lemma SayAllJoin(role: Role, phase: Option<Phase>, a: seq<string>, b: seq<string>)
    ensures SayAll(role, phase, a + b) == SayAll(role, phase, a) + SayAll(role, phase, b)
  {
  }

  lemma PiecesSnoc(items: seq<Item>, item: Item)
    ensures Pieces(items + [item]) == Pieces(items) + PiecesOf(item)
  {
    assert (items + [item])[..|items|] == items;
  }

  predicate OfMessage(t: Tick, role: Role, phase: Option<Phase>) {
    t.role == role && t.phase == phase
  }

  ghost predicate AllOf(ticks: seq<Tick>, role: Role, phase: Option<Phase>) {
    forall i :: 0 <= i < |ticks| ==> OfMessage(ticks[i], role, phase)
  }

  lemma OwnMeaning(w: Wire, types: Types, t: Tick, out: seq<Item>)
    requires Flushes(t)
    ensures Pieces(out + Own(w, types, t)) == Pieces(out) + Meaning(w, t)
  {
    hide Own, Meaning, Flushes;
    var own := Own(w, types, t);
    OwnSays(w, types, t);
    if own == [] {
      assert out + own == out;
    } else {
      PiecesSnoc(out, own[0]);
    }
  }

  lemma OwnSays(w: Wire, types: Types, t: Tick)
    requires Flushes(t)
    ensures var own := Own(w, types, t);
      if own == [] then Meaning(w, t) == [] else own == [own[0]] && PiecesOf(own[0]) == Meaning(w, t)
  {
    hide KindOf, Prefixed, EncodeName;
  }

  lemma StepMeaning(w: Wire, c: Conversion, t: Tick)
    ensures var s := Step(w, c, t);
      Pieces(s.out) + PendingPieces(w, t.role, t.phase, s.pending)
      == Pieces(c.out) + PendingPieces(w, t.role, t.phase, c.pending) + Meaning(w, t)
  {
    StepOut(w, c, t);
    hide Step, Emitted, Meaning, PiecesOf, Own;
    var role, phase := t.role, t.phase;
    if Flushes(t) {
      var f := c.out + Packed(w, c.pending, role, phase);
      OwnMeaning(w, c.types, t, f);
      if c.pending == [] {
        assert f == c.out;
      } else {
        PendingIsItsItem(w, role, phase, c.pending);
        PiecesSnoc(c.out, TextItem(w, role, phase, c.pending));
      }
      FlushEmpties(w, c, t);
    } else {
      QuietMeaning(w, c, t);
    }
  }

  lemma FlushEmpties(w: Wire, c: Conversion, t: Tick)
    ensures Flushes(t) ==> Step(w, c, t).pending == []
  {
  }

  lemma QuietMeaning(w: Wire, c: Conversion, t: Tick)
    requires !Flushes(t)
    ensures PendingPieces(w, t.role, t.phase, Step(w, c, t).pending)
         == PendingPieces(w, t.role, t.phase, c.pending) + Meaning(w, t)
  {
    if t.block.Text? {
      var pending := c.pending + [t.block.text];
      assert pending[..|c.pending|] == c.pending;
    } else {
      assert Meaning(w, t) == [];
    }
  }

  lemma {:induction false} MessageMeaning(w: Wire, c: Conversion, ticks: seq<Tick>, role: Role, phase: Option<Phase>)
    requires AllOf(ticks, role, phase)
    ensures var r := Run(w, c, ticks);
      Pieces(r.out) + PendingPieces(w, role, phase, r.pending)
      == Pieces(c.out) + PendingPieces(w, role, phase, c.pending) + Meanings(w, ticks)
  {
    hide Step, Meaning, Pieces, PendingPieces;
    if ticks != [] {
      var init, t := ticks[..|ticks| - 1], ticks[|ticks| - 1];
      MessageMeaning(w, c, init, role, phase);
      assert OfMessage(t, role, phase);
      StepMeaning(w, Run(w, c, init), t);
    }
  }

  lemma {:induction false} MeaningsJoin(w: Wire, s: seq<Tick>, t: seq<Tick>)
    ensures Meanings(w, s + t) == Meanings(w, s) + Meanings(w, t)
  {
    hide Meaning;
    if t == [] {
      assert s + t == s;
    } else {
      MeaningsJoin(w, s, t[..|t| - 1]);
      assert (s + t)[..|s + t| - 1] == s + t[..|t| - 1];
    }
  }

  /** Read back line by line, a request's input says what the blocks say, each
      piece once, in order and with its message's role and phase. */
  lemma {:induction false} InputSaysEverything(w: Wire, all: seq<Message>, messages: seq<Message>)
    ensures Pieces(InputOf(w, all, messages)) == Meanings(w, Ticks(messages))
  {
    hide Step, Meaning, PiecesOf, Visits;
    if messages != [] {
      var init, m := messages[..|messages| - 1], messages[|messages| - 1];
      InputSaysEverything(w, all, init);
      var start := Conversion(Collect(Ticks(all)), [], []);
      RunJoin(w, start, Ticks(init), TicksOf(m));
      NothingPendingBetweenMessages(w, start.types, init);
      NothingPendingBetweenMessages(w, start.types, messages);
      assert AllOf(TicksOf(m), m.role, m.phase) by { TicksOfOneMessage(m); }
      MessageMeaning(w, Run(w, start, Ticks(init)), TicksOf(m), m.role, m.phase);
      MeaningsJoin(w, Ticks(init), TicksOf(m));
      var said := Pieces(InputOf(w, all, messages));
      assert PendingPieces(w, m.role, m.phase, []) == [];
      assert said + [] == said && Pieces(InputOf(w, all, init)) + [] == Pieces(InputOf(w, all, init));
    }
  }

  lemma TicksOfOneMessage(m: Message)
    ensures AllOf(TicksOf(m), m.role, m.phase)
  {
  }

  /** The server is told the whole conversation, once: a request that names a
      previous response names the prompt's own, and what came before that anchor
      followed by the input is the conversation; one that names none says it all
      by itself. It names one exactly when the anchor lies within the messages. */
  lemma RequestTellsConversation(c: Config, p: Payload)
    ensures var r := Built(c, p);
      var said := Meanings(c.wire, Ticks(p.messages));
      && (r.previousResponseId.Some? <==> p.previous.Some? && p.previous.value.messageIndex <= |p.messages|)
      && (r.previousResponseId.None? ==> Pieces(r.input) == said)
      && (r.previousResponseId.Some? ==>
            && r.previousResponseId.value == p.previous.value.id
            && Meanings(c.wire, Ticks(p.messages[..p.previous.value.messageIndex])) + Pieces(r.input) == said)
  {
    hide Meanings, Pieces, Ticks, Run;
    InputSaysEverything(c.wire, p.messages, p.messages);
    if Chains(p) {
      var k := p.previous.value.messageIndex;
      InputSaysEverything(c.wire, p.messages, p.messages[k..]);
      assert p.messages == p.messages[..k] + p.messages[k..];
      TicksJoin(p.messages[..k], p.messages[k..]);
      MeaningsJoin(c.wire, Ticks(p.messages[..k]), Ticks(p.messages[k..]));
    }
  }

  // ---- The kind of every output ---------------------------------------------

  function Kinds(items: seq<Item>): seq<(string, ToolType)> {
    if items == [] then [] else
      var item := items[|items| - 1];
      Kinds(items[..|items| - 1]) + if item.CallOutput? then [(item.callId, item.kind)] else []
  }

  /** The type an output is given: that of the last assistant call of its id
      before it, else of the id's last use anywhere, else a function's. */
  function KindAt(all: seq<Tick>, earlier: seq<Tick>, id: string): ToolType {
    if LastCall(earlier, id).Some? then LastCall(earlier, id).value
    else if LastUse(all, id).Some? then LastUse(all, id).value
    else Function
  }

  function KindsOf(all: seq<Tick>, ticks: seq<Tick>): seq<(string, ToolType)> {
    if ticks == [] then [] else
      var earlier, t := ticks[..|ticks| - 1], ticks[|ticks| - 1];
      KindsOf(all, earlier) + if Answers(t) then [(t.block.id, KindAt(all, earlier, t.block.id))] else []
  }

  lemma {:induction false} KindsJoin(a: seq<Item>, b: seq<Item>)
    ensures Kinds(a + b) == Kinds(a) + Kinds(b)
  {
    if b == [] {
      assert a + b == a;
    } else {
      KindsJoin(a, b[..|b| - 1]);
      assert (a + b)[..|a + b| - 1] == a + b[..|b| - 1];
    }
  }

  lemma TickKinds(w: Wire, types: Types, pending: seq<string>, t: Tick)
    ensures Kinds(Emitted(w, types, pending, t)) ==
      if Answers(t) then [(t.block.id, KindOf(types, t.block.id))] else []
  {
    hide KindOf, Prefixed, EncodeName, Join;
    var before, own := Packed(w, pending, t.role, t.phase), Own(w, types, t);
    KindsJoin(before, own);
    assert before != [] ==> before[..|before| - 1] == [];
    assert own != [] ==> own[..|own| - 1] == [];
  }

  lemma {:induction false} RunKinds(w: Wire, all: seq<Tick>, ticks: seq<Tick>)
    ensures Kinds(Run(w, Conversion(Collect(all), [], []), ticks).out) == KindsOf(all, ticks)
  {
    hide Collect, LastCall, LastUse, Emitted, Typed, Held;
    var start := Conversion(Collect(all), [], []);
    if ticks != [] {
      var init, t := ticks[..|ticks| - 1], ticks[|ticks| - 1];
      RunKinds(w, all, init);
      var c := Run(w, start, init);
      KindsJoin(c.out, Emitted(w, c.types, c.pending, t));
      TickKinds(w, c.types, c.pending, t);
      if Answers(t) {
        TypesAfter(w, start, init, t.block.id);
        assert Lookup(Collect(all), t.block.id) == LastUse(all, t.block.id);
      }
    }
  }

  /** Every tool result in an input is presented as its call's kind. */
  lemma OutputKindsAreTheirCalls(w: Wire, all: seq<Message>, messages: seq<Message>)
    ensures Kinds(InputOf(w, all, messages)) == KindsOf(Ticks(all), Ticks(messages))
  {
    RunKinds(w, Ticks(all), Ticks(messages));
  }
}
