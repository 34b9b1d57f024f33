/**
 Building a Responses request out of a conversation. A request that names a
 previous response sends only the messages after it; when the server no longer
 knows that response, the whole conversation is sent instead.
 */
module ResponsesRequest {
  import opened Basics

  // ---- Conversations and wire items -----------------------------------------

  datatype Role = User | Assistant

  datatype Input = TextInput(text: string) | Structured(cbor: seq<bv8>)

  datatype Block =
    | Text(text: string)
    | ToolUse(id: string, name: string, toolType: ToolType, input: Input)
    | ToolResult(id: string, content: string, isError: bool)
    | Reasoning(item: string)

  datatype Message = Message(role: Role, content: seq<Block>, phase: Option<Phase>)

  /** One element of a request's `input` array. */
  datatype Item =
    | UserMessage(texts: seq<string>)
    | AssistantMessage(text: string, phase: Option<Phase>)
    | FunctionCall(itemId: string, callId: string, name: string, arguments: string)
    | CustomCall(itemId: string, callId: string, name: string, input: string)
    | CallOutput(kind: ToolType, callId: string, output: string)
    | Replayed(json: string)

  /** What the provider accepts, and the two JSON conversions. */
  datatype Wire = Wire(supportsPhase: bool, toJson: Input -> string, reparse: string -> Option<string>)

  type Types = map<string, ToolType>

  function KindOf(types: Types, id: string): ToolType {
    if id in types && types[id] == Custom then Custom else Function
  }

  function Join(texts: seq<string>): string {
    if texts == [] then "" else
      var earlier, last := texts[..|texts| - 1], texts[|texts| - 1];
      if earlier == [] then last else Join(earlier) + "\n" + last
  }

  /** Every character outside `[a-zA-Z0-9_-]` becomes an underscore. */
  function EncodeName(name: string): string {
    seq(|name|, i requires 0 <= i < |name| =>
      var c := name[i];
      if 'a' <= c <= 'z' || 'A' <= c <= 'Z' || '0' <= c <= '9' || c == '_' || c == '-' then c else '_')
  }

  function Prefixed(prefix: string, id: string): string {
    if prefix <= id then id else prefix + id
  }

  predicate IsNameChar(c: char) {
    'a' <= c <= 'z' || 'A' <= c <= 'Z' || '0' <= c <= '9' || c == '_' || c == '-'
  }

  predicate IsWireName(name: string) {
    forall c :: c in name ==> IsNameChar(c)
  }

  /** Encoding always gives a name the wire accepts, leaves such names alone and
      so changes nothing the second time; it is not injective. */
  lemma EncodedNameIsWireName(name: string)
    ensures IsWireName(EncodeName(name)) && |EncodeName(name)| == |name|
    ensures EncodeName(name) == name <==> IsWireName(name)
    ensures EncodeName("a.b") == EncodeName("a_b")
  {
    assert EncodeName("a.b") == "a_b" == EncodeName("a_b");
    if EncodeName(name) != name {
      var i :| 0 <= i < |name| && EncodeName(name)[i] != name[i];
      assert name[i] in name && !IsNameChar(name[i]);
    }
  }

  /** An item id carries the prefix once, however often it is put on, and the call id behind it. */
  lemma PrefixedOnce(prefix: string, id: string)
    ensures prefix <= Prefixed(prefix, id)
    ensures Prefixed(prefix, Prefixed(prefix, id)) == Prefixed(prefix, id)
    ensures Prefixed(prefix, id) == id || Prefixed(prefix, id)[|prefix|..] == id
  {
  }

  function CallItem(w: Wire, id: string, name: string, toolType: ToolType, input: Input): Item {
    match toolType
    case Function => FunctionCall(Prefixed("fc_", id), id, EncodeName(name), w.toJson(input))
    case Custom =>
      CustomCall(Prefixed("ctc_", id), id, EncodeName(name), if input.TextInput? then input.text else w.toJson(input))
  }

  /** The two kinds of call are told apart by their item ids, which end in the call id. */
  lemma CallIdsArePrefixed(w: Wire, id: string, name: string, toolType: ToolType, input: Input)
    ensures var item := CallItem(w, id, name, toolType, input);
      && (item.FunctionCall? || item.CustomCall?) && (item.CustomCall? <==> toolType == Custom)
      && (toolType == Function ==> item.itemId == if "fc_" <= id then id else "fc_" + id)
      && (toolType == Custom ==> item.itemId == if "ctc_" <= id then id else "ctc_" + id)
  {
  }

  function TextItem(w: Wire, role: Role, phase: Option<Phase>, texts: seq<string>): Item {
    match role
    case User => UserMessage(texts)
    case Assistant =>
      AssistantMessage(Join(texts),
                       if w.supportsPhase then Some(if phase.Some? then phase.value else FinalAnswer) else None)
  }

  // ---- Conversion, one block at a time --------------------------------------

  /** `pending` holds the text blocks not yet packed into an item. */
  datatype Conversion = Conversion(types: Types, pending: seq<string>, out: seq<Item>)

  datatype Tick = Visit(role: Role, phase: Option<Phase>, block: Block) | End(role: Role, phase: Option<Phase>)

  function Packed(w: Wire, pending: seq<string>, role: Role, phase: Option<Phase>): seq<Item> {
    if pending == [] then [] else [TextItem(w, role, phase, pending)]
  }

  /** Whether a tick packs the pending text before anything else. */
  predicate Flushes(t: Tick) {
    match t
    case End(_, _) => true
    case Visit(User, _, block) => block.ToolResult?
    case Visit(Assistant, _, block) => block.ToolUse? || block.Reasoning?
  }

  /** The item a tick stands for by itself. */
  function Own(w: Wire, types: Types, t: Tick): seq<Item> {
    match t
    case Visit(User, _, ToolResult(id, content, isError)) =>
      [CallOutput(KindOf(types, id), id, if isError then "ERROR: " + content else content)]
    case Visit(Assistant, _, ToolUse(id, name, toolType, input)) => [CallItem(w, id, name, toolType, input)]
    case Visit(Assistant, _, Reasoning(item)) =>
      if w.reparse(item).Some? then [Replayed(w.reparse(item).value)] else []
    case _ => []
  }

  function Emitted(w: Wire, types: Types, pending: seq<string>, t: Tick): seq<Item> {
    if Flushes(t) then Packed(w, pending, t.role, t.phase) + Own(w, types, t) else []
  }

  function Held(pending: seq<string>, t: Tick): seq<string> {
    if Flushes(t) then [] else if t.Visit? && t.block.Text? then pending + [t.block.text] else pending
  }

  function Typed(types: Types, t: Tick): Types {
    if t.Visit? && t.role == Assistant && t.block.ToolUse? then types[t.block.id := t.block.toolType] else types
  }

  function Step(w: Wire, c: Conversion, t: Tick): Conversion {
    Conversion(Typed(c.types, t), Held(c.pending, t), c.out + Emitted(w, c.types, c.pending, t))
  }

  function Run(w: Wire, c: Conversion, ticks: seq<Tick>): Conversion {
    if ticks == [] then c else Step(w, Run(w, c, ticks[..|ticks| - 1]), ticks[|ticks| - 1])
  }

  function Visits(m: Message, n: nat): seq<Tick>
    requires n <= |m.content|
  {
    seq(n, i requires 0 <= i < n => Visit(m.role, m.phase, m.content[i]))
  }

  function TicksOf(m: Message): seq<Tick> {
    Visits(m, |m.content|) + [End(m.role, m.phase)]
  }

  function Ticks(messages: seq<Message>): seq<Tick> {
    if messages == [] then [] else Ticks(messages[..|messages| - 1]) + TicksOf(messages[|messages| - 1])
  }

  /** The tool type of the last use of a call id in the conversation. */
  function LastUse(ticks: seq<Tick>, id: string): Option<ToolType> {
    if ticks == [] then None else
      var t := ticks[|ticks| - 1];
      if t.Visit? && t.block.ToolUse? && t.block.id == id then Some(t.block.toolType)
      else LastUse(ticks[..|ticks| - 1], id)
  }

  /** The same, over the uses an assistant message made. */
  function LastCall(ticks: seq<Tick>, id: string): Option<ToolType> {
    if ticks == [] then None else
      var t := ticks[|ticks| - 1];
      if t.Visit? && t.role == Assistant && t.block.ToolUse? && t.block.id == id then Some(t.block.toolType)
      else LastCall(ticks[..|ticks| - 1], id)
  }

  function Lookup(types: Types, id: string): Option<ToolType> {
    if id in types then Some(types[id]) else None
  }

  function Collect(ticks: seq<Tick>): (types: Types)
    ensures forall id :: Lookup(types, id) == LastUse(ticks, id)
  {
    if ticks == [] then map[] else
      var earlier, t := Collect(ticks[..|ticks| - 1]), ticks[|ticks| - 1];
      if t.Visit? && t.block.ToolUse? then earlier[t.block.id := t.block.toolType] else earlier
  }

  lemma CollectSnoc(ticks: seq<Tick>, t: Tick)
    ensures Collect(ticks + [t])
         == if t.Visit? && t.block.ToolUse? then Collect(ticks)[t.block.id := t.block.toolType] else Collect(ticks)
  {
    assert (ticks + [t])[..|ticks|] == ticks;
  }

  lemma RunSnoc(w: Wire, c: Conversion, ticks: seq<Tick>, t: Tick)
    ensures Run(w, c, ticks + [t]) == Step(w, Run(w, c, ticks), t)
  {
    assert (ticks + [t])[..|ticks|] == ticks;
  }

  lemma {:induction false} RunJoin(w: Wire, c: Conversion, s: seq<Tick>, t: seq<Tick>)
    ensures Run(w, c, s + t) == Run(w, Run(w, c, s), t)
  {
    hide Step;
    if t == [] {
      assert s + t == s;
    } else {
      var init, last := t[..|t| - 1], t[|t| - 1];
      RunJoin(w, c, s, init);
      RunSnoc(w, c, s + init, last);
      assert s + t == s + init + [last];
    }
  }

  lemma VisitsSnoc(m: Message, n: nat)
    requires n < |m.content|
    ensures Visits(m, n + 1) == Visits(m, n) + [Visit(m.role, m.phase, m.content[n])]
  {
  }

  // ---- The source's loops ---------------------------------------------------

  /** The tool type of every call id used anywhere, later uses winning. */
  method CollectToolTypes(messages: seq<Message>) returns (types: Types)
    ensures types == Collect(Ticks(messages))
  {
    types := map[];
    for i := 0 to |messages|
      invariant types == Collect(Ticks(messages[..i]))
    {
      var m := messages[i];
      ghost var before := Ticks(messages[..i]);
      assert before + Visits(m, 0) == before;
      for j := 0 to |m.content|
        invariant types == Collect(before + Visits(m, j))
      {
        VisitsSnoc(m, j);
        CollectSnoc(before + Visits(m, j), Visit(m.role, m.phase, m.content[j]));
        assert before + Visits(m, j + 1) == before + Visits(m, j) + [Visit(m.role, m.phase, m.content[j])];
        match m.content[j]
        case ToolUse(id, _, toolType, _) => types := types[id := toolType];
        case _ =>
      }
      assert messages[..i + 1][..i] == messages[..i];
      CollectSnoc(before + Visits(m, |m.content|), End(m.role, m.phase));
      assert Ticks(messages[..i + 1]) == before + Visits(m, |m.content|) + [End(m.role, m.phase)];
    }
    assert messages[..|messages|] == messages;
  }

  method ConvertMessage(w: Wire, m: Message, types0: Types, out0: seq<Item>) returns (types: Types, out: seq<Item>)
    ensures Conversion(types, [], out) == Run(w, Conversion(types0, [], out0), TicksOf(m))
  {
    match m.role
    case User =>
      types := types0;
      out := ConvertUser(w, m, types, out0);
    case Assistant =>
      types, out := ConvertAssistant(w, m, types0, out0);
  }

  method ConvertUser(w: Wire, m: Message, types: Types, out0: seq<Item>) returns (out: seq<Item>)
    requires m.role == User
    ensures Conversion(types, [], out) == Run(w, Conversion(types, [], out0), TicksOf(m))
  {
    out := out0;
    ghost var start := Conversion(types, [], out0);
    var pending := [];
    for i := 0 to |m.content|
      invariant Conversion(types, pending, out) == Run(w, start, Visits(m, i))
    {
      hide Step;
      VisitsSnoc(m, i);
      RunSnoc(w, start, Visits(m, i), Visit(User, m.phase, m.content[i]));
      pending, out := UserBlock(w, m.phase, m.content[i], types, pending, out);
    }
    RunSnoc(w, start, Visits(m, |m.content|), End(User, m.phase));
    StepOut(w, Conversion(types, pending, out), End(User, m.phase));
    if pending != [] {
      out := out + [UserMessage(pending)];
    }
  }

  method UserBlock(w: Wire, ghost phase: Option<Phase>, block: Block, types: Types, pending0: seq<string>,
                   out0: seq<Item>)
    returns (pending: seq<string>, out: seq<Item>)
    ensures Conversion(types, pending, out) == Step(w, Conversion(types, pending0, out0), Visit(User, phase, block))
  {
    StepOut(w, Conversion(types, pending0, out0), Visit(User, phase, block));
    hide Emitted, KindOf;
    pending, out := pending0, out0;
    match block
    case Text(text) => pending := pending + [text];
    case ToolResult(id, content, isError) =>
      if pending != [] {
        out := out + [UserMessage(pending)];
        pending := [];
      }
      var output := if isError then "ERROR: " + content else content;
      out := out + [CallOutput(KindOf(types, id), id, output)];
    case _ =>
  }

  method ConvertAssistant(w: Wire, m: Message, types0: Types, out0: seq<Item>) returns (types: Types, out: seq<Item>)
    requires m.role == Assistant
    ensures Conversion(types, [], out) == Run(w, Conversion(types0, [], out0), TicksOf(m))
  {
    types, out := types0, out0;
    ghost var start := Conversion(types0, [], out0);
    var pending := [];
    for i := 0 to |m.content|
      invariant Conversion(types, pending, out) == Run(w, start, Visits(m, i))
    {
      hide Step;
      VisitsSnoc(m, i);
      RunSnoc(w, start, Visits(m, i), Visit(Assistant, m.phase, m.content[i]));
      types, pending, out := AssistantBlock(w, m.phase, m.content[i], types, pending, out);
    }
    RunSnoc(w, start, Visits(m, |m.content|), End(Assistant, m.phase));
    StepOut(w, Conversion(types, pending, out), End(Assistant, m.phase));
    if pending != [] {
      out := out + [TextItem(w, Assistant, m.phase, pending)];
    }
  }

  method AssistantBlock(w: Wire, phase: Option<Phase>, block: Block, types0: Types, pending0: seq<string>,
                        out0: seq<Item>)
    returns (types: Types, pending: seq<string>, out: seq<Item>)
    ensures Conversion(types, pending, out)
         == Step(w, Conversion(types0, pending0, out0), Visit(Assistant, phase, block))
  {
    StepOut(w, Conversion(types0, pending0, out0), Visit(Assistant, phase, block));
    hide Emitted, TextItem, CallItem;
    types, pending, out := types0, pending0, out0;
    match block
    case Text(text) => pending := pending + [text];
    case ToolUse(id, name, toolType, input) =>
      if pending != [] {
        out := out + [TextItem(w, Assistant, phase, pending)];
        pending := [];
      }
      types := types[id := toolType];
      out := out + [CallItem(w, id, name, toolType, input)];
    case Reasoning(item) =>
      if pending != [] {
        out := out + [TextItem(w, Assistant, phase, pending)];
        pending := [];
      }
      var json := w.reparse(item);
      if json.Some? {
        out := out + [Replayed(json.value)];
      }
    case _ =>
  }

  lemma StepOut(w: Wire, c: Conversion, t: Tick)
    ensures Step(w, c, t).out
         == if Flushes(t) then c.out + Packed(w, c.pending, t.role, t.phase) + Own(w, c.types, t) else c.out
  {
    hide Packed, Own;
    var before, own := Packed(w, c.pending, t.role, t.phase), Own(w, c.types, t);
    assert c.out + (before + own) == c.out + before + own;
    assert c.out + [] == c.out;
  }

  method ConvertAll(w: Wire, messages: seq<Message>, types0: Types) returns (out: seq<Item>)
    ensures out == Run(w, Conversion(types0, [], []), Ticks(messages)).out
  {
    out := [];
    var types := types0;
    ghost var start := Conversion(types0, [], []);
    for i := 0 to |messages|
      invariant Conversion(types, [], out) == Run(w, start, Ticks(messages[..i]))
    {
      types, out := ConvertMessage(w, messages[i], types, out);
      assert messages[..i + 1][..i] == messages[..i];
      RunJoin(w, start, Ticks(messages[..i]), TicksOf(messages[i]));
    }
    assert messages[..|messages|] == messages;
  }

  // ---- Requests -------------------------------------------------------------

  datatype Previous = Previous(id: string, messageIndex: nat)

  datatype Originator = ByUser | ByExtension(name: string)

  /** The parts of a prompt that decide `input`, the chain and the cache key. */
  datatype Payload = Payload(
    messages: seq<Message>, previous: Option<Previous>, originator: Originator, shareUserCacheKey: bool,
    sessionId: string)

  /** `sessionKey` and `extensionKey` stand for the two hashes. */
  datatype Config = Config(
    wire: Wire, supportsCacheKey: bool, baseUrl: string, sessionKey: (string, string) -> string,
    extensionKey: (string, string) -> string)

  datatype Request = Request(input: seq<Item>, previousResponseId: Option<string>, promptCacheKey: Option<string>)

  predicate Chains(p: Payload) {
    p.previous.Some? && p.previous.value.messageIndex <= |p.messages|
  }

  function CacheKey(c: Config, p: Payload): Option<string> {
    if !c.supportsCacheKey then None else
      var base := c.sessionKey(c.baseUrl, p.sessionId);
      if p.shareUserCacheKey || p.originator.ByUser? then Some(base) else Some(c.extensionKey(base, p.originator.name))
  }

  /** Whose prompts share a cache: a user's all get the session's key, an
      extension's too if it shares, and otherwise one made of that key and the
      extension's name. Messages and chains do not matter. */
  lemma CacheKeyIsShared(c: Config, p: Payload)
    requires c.supportsCacheKey
    ensures var users := CacheKey(c, Payload([], None, ByUser, false, p.sessionId));
      && users == Some(c.sessionKey(c.baseUrl, p.sessionId))
      && CacheKey(c, p) ==
         if p.originator.ByExtension? && !p.shareUserCacheKey
         then Some(c.extensionKey(users.value, p.originator.name)) else users
    ensures CacheKey(c.(supportsCacheKey := false), p) == None
  {
  }

  /** What messages turn into when call ids have the types of the whole conversation. */
  function InputOf(w: Wire, all: seq<Message>, messages: seq<Message>): seq<Item> {
    Run(w, Conversion(Collect(Ticks(all)), [], []), Ticks(messages)).out
  }

  function Built(c: Config, p: Payload): Request {
    var (messages, id) :=
      if Chains(p) then (p.messages[p.previous.value.messageIndex..], Some(p.previous.value.id))
      else (p.messages, None);
    Request(InputOf(c.wire, p.messages, messages), id, CacheKey(c, p))
  }

  method BuildRequest(c: Config, p: Payload) returns (r: Request)
    ensures r == Built(c, p)
  {
    var messages, id := p.messages, None;
    if Chains(p) {
      messages, id := p.messages[p.previous.value.messageIndex..], Some(p.previous.value.id);
    }
    var types := CollectToolTypes(p.messages);
    var input := ConvertAll(c.wire, messages, types);
    return Request(input, id, CacheKey(c, p));
  }

  function Fallback(p: Payload): Payload {
    p.(previous := None, shareUserCacheKey := false)
  }

  // ---- A chained input against full replay ----------------------------------

  /** Call ids whose result is in the ticks with no earlier assistant call there. */
  function Awaited(ticks: seq<Tick>): set<string> {
    if ticks == [] then {} else
      var earlier, t := ticks[..|ticks| - 1], ticks[|ticks| - 1];
      if t.Visit? && t.role == User && t.block.ToolResult? && LastCall(earlier, t.block.id).None?
      then Awaited(earlier) + {t.block.id} else Awaited(earlier)
  }

  /** An item without the kind of a call's output. */
  function Blinded(item: Item): Item {
    if item.CallOutput? then item.(kind := Function) else item
  }

  function Blind(items: seq<Item>): (r: seq<Item>)
    ensures |r| == |items|
  {
    seq(|items|, i requires 0 <= i < |items| => Blinded(items[i]))
  }

  lemma {:induction false} TicksJoin(a: seq<Message>, b: seq<Message>)
    ensures Ticks(a + b) == Ticks(a) + Ticks(b)
  {
    hide TicksOf;
    if b == [] {
      assert a + b == a;
    } else {
      TicksJoin(a, b[..|b| - 1]);
      assert (a + b)[..|a + b| - 1] == a + b[..|b| - 1];
    }
  }

  lemma {:induction false} OutOnlyGrows(w: Wire, c: Conversion, ticks: seq<Tick>)
    ensures var r := Run(w, c.(out := []), ticks);
      Run(w, c, ticks) == r.(out := c.out + r.out)
  {
    hide Emitted, Held, Typed;
    if ticks == [] {
      assert c.out + [] == c.out;
    } else {
      OutOnlyGrows(w, c, ticks[..|ticks| - 1]);
    }
  }

  lemma {:induction false} TypesAfter(w: Wire, c: Conversion, ticks: seq<Tick>, id: string)
    ensures Lookup(Run(w, c, ticks).types, id)
         == if LastCall(ticks, id).Some? then LastCall(ticks, id) else Lookup(c.types, id)
  {
    if ticks != [] {
      TypesAfter(w, c, ticks[..|ticks| - 1], id);
    }
  }

  lemma {:induction false} NothingPendingBetweenMessages(w: Wire, types: Types, messages: seq<Message>)
    ensures Run(w, Conversion(types, [], []), Ticks(messages)).pending == []
  {
    if messages != [] {
      var m := messages[|messages| - 1];
      var t := Ticks(messages[..|messages| - 1]) + Visits(m, |m.content|);
      assert Ticks(messages) == t + [End(m.role, m.phase)];
      RunSnoc(w, Conversion(types, [], []), t, End(m.role, m.phase));
    }
  }

  ghost predicate SameKinds(m1: Types, m2: Types, ids: set<string>) {
    forall id :: id in ids ==> KindOf(m1, id) == KindOf(m2, id)
  }

  /** Two conversions of the same ticks that start from different types emit the
      same items but for output kinds, and the very same items exactly when the
      types agree on the awaited ids. */
  lemma {:induction false} Lockstep(w: Wire, m1: Types, m2: Types, ticks: seq<Tick>)
    ensures var r1, r2 := Run(w, Conversion(m1, [], []), ticks), Run(w, Conversion(m2, [], []), ticks);
      && r1.pending == r2.pending
      && Blind(r1.out) == Blind(r2.out)
      && (r1.out == r2.out <==> SameKinds(m1, m2, Awaited(ticks)))
  {
    if ticks != [] {
      var init, t := ticks[..|ticks| - 1], ticks[|ticks| - 1];
      Lockstep(w, m1, m2, init);
      var r1, r2 := Run(w, Conversion(m1, [], []), init), Run(w, Conversion(m2, [], []), init);
      LockstepTick(w, m1, m2, init, t, r1, r2);
    }
  }

  lemma LockstepTick(w: Wire, m1: Types, m2: Types, init: seq<Tick>, t: Tick, r1: Conversion, r2: Conversion)
    requires r1 == Run(w, Conversion(m1, [], []), init) && r2 == Run(w, Conversion(m2, [], []), init)
    requires r1.pending == r2.pending && Blind(r1.out) == Blind(r2.out)
    requires r1.out == r2.out <==> SameKinds(m1, m2, Awaited(init))
    ensures var (s1, s2) := (Step(w, r1, t), Step(w, r2, t));
      && s1.pending == s2.pending && Blind(s1.out) == Blind(s2.out)
      && (s1.out == s2.out <==> SameKinds(m1, m2, Awaited(init + [t])))
  {
    AwaitedTick(w, m1, m2, init, t, r1, r2);
    hide Run, LastCall, Awaited, Packed, CallItem, Blind, SameKinds, KindOf;
    var e1, e2 := Emitted(w, r1.types, r1.pending, t), Emitted(w, r2.types, r2.pending, t);
    EmittedAlike(w, r1.types, r2.types, r1.pending, t);
    hide Emitted;
    JoinAlike(r1.out, e1, r2.out, e2);
  }

  lemma AwaitedTick(w: Wire, m1: Types, m2: Types, init: seq<Tick>, t: Tick, r1: Conversion, r2: Conversion)
    requires r1 == Run(w, Conversion(m1, [], []), init) && r2 == Run(w, Conversion(m2, [], []), init)
    ensures SameKinds(m1, m2, Awaited(init + [t]))
       <==> && SameKinds(m1, m2, Awaited(init))
            && (Answers(t) ==> KindOf(r1.types, t.block.id) == KindOf(r2.types, t.block.id))
  {
    assert (init + [t])[..|init|] == init;
    if Answers(t) {
      TypesAfter(w, Conversion(m1, [], []), init, t.block.id);
      TypesAfter(w, Conversion(m2, [], []), init, t.block.id);
    }
  }

  predicate Answers(t: Tick) {
    t.Visit? && t.role == User && t.block.ToolResult?
  }

  lemma EmittedAlike(w: Wire, m1: Types, m2: Types, pending: seq<string>, t: Tick)
    ensures var (e1, e2) := (Emitted(w, m1, pending, t), Emitted(w, m2, pending, t));
      && |e1| == |e2| && Blind(e1) == Blind(e2)
      && (e1 == e2 <==> (Answers(t) ==> KindOf(m1, t.block.id) == KindOf(m2, t.block.id)))
  {
    if Answers(t) {
      var before := Packed(w, pending, t.role, t.phase);
      var (o1, o2) := (Own(w, m1, t), Own(w, m2, t));
      assert Blind(o1) == Blind(o2);
      assert o1[0] == o2[0] <==> KindOf(m1, t.block.id) == KindOf(m2, t.block.id);
      JoinAlike(before, o1, before, o2);
    }
  }

  lemma JoinAlike(a1: seq<Item>, b1: seq<Item>, a2: seq<Item>, b2: seq<Item>)
    requires Blind(a1) == Blind(a2) && Blind(b1) == Blind(b2)
    ensures Blind(a1 + b1) == Blind(a2 + b2)
    ensures a1 + b1 == a2 + b2 <==> a1 == a2 && b1 == b2
  {
    assert |a1| == |a2| && |b1| == |b2|;
    assert Blind(a1 + b1) == Blind(a1) + Blind(b1);
    assert Blind(a2 + b2) == Blind(a2) + Blind(b2);
    assert (a1 + b1)[..|a1|] == a1 && (a1 + b1)[|a1|..] == b1;
    assert (a2 + b2)[..|a2|] == a2 && (a2 + b2)[|a2|..] == b2;
  }

  lemma {:induction false} RunFromScratch(w: Wire, all: seq<Message>, a: seq<Message>, b: seq<Message>)
    ensures var after := Run(w, Conversion(Collect(Ticks(all)), [], []), Ticks(a));
      && InputOf(w, all, a + b) == InputOf(w, all, a) + Run(w, Conversion(after.types, [], []), Ticks(b)).out
  {
    hide Run, Step;
    var start := Conversion(Collect(Ticks(all)), [], []);
    TicksJoin(a, b);
    RunJoin(w, start, Ticks(a), Ticks(b));
    NothingPendingBetweenMessages(w, start.types, a);
    OutOnlyGrows(w, Run(w, start, Ticks(a)), Ticks(b));
  }

  /** The tool type the prefix's last call gave an id is the one its last use anywhere gives it. */
  predicate Steady(messages: seq<Message>, k: nat, id: string)
    requires k <= |messages|
  {
    var called := LastCall(Ticks(messages[..k]), id);
    called.Some? ==> called == LastUse(Ticks(messages), id)
  }

  ghost predicate SteadyAcross(messages: seq<Message>, k: nat)
    requires k <= |messages|
  {
    forall id :: id in Awaited(Ticks(messages[k..])) ==> Steady(messages, k, id)
  }

  lemma UsedBefore(ticks: seq<Tick>, more: seq<Tick>, id: string)
    requires LastCall(ticks, id).Some?
    ensures LastUse(ticks + more, id).Some?
  {
    if more == [] {
      assert ticks + more == ticks;
      CallIsUse(ticks, id);
    } else {
      UsedBefore(ticks, more[..|more| - 1], id);
      assert (ticks + more)[..|ticks + more| - 1] == ticks + more[..|more| - 1];
    }
  }

  lemma {:induction false} CallIsUse(ticks: seq<Tick>, id: string)
    requires LastCall(ticks, id).Some?
    ensures LastUse(ticks, id).Some?
  {
    var t := ticks[|ticks| - 1];
    if !(t.Visit? && t.block.ToolUse? && t.block.id == id) {
      CallIsUse(ticks[..|ticks| - 1], id);
    }
  }

  lemma SteadyIffSameKind(w: Wire, messages: seq<Message>, k: nat, id: string)
    requires k <= |messages|
    ensures var m2 := Collect(Ticks(messages));
      var m1 := Run(w, Conversion(m2, [], []), Ticks(messages[..k])).types;
      KindOf(m1, id) == KindOf(m2, id) <==> Steady(messages, k, id)
  {
    hide Run, Step, Ticks, LastCall, LastUse;
    var m2 := Collect(Ticks(messages));
    TypesAfter(w, Conversion(m2, [], []), Ticks(messages[..k]), id);
    assert Lookup(m2, id) == LastUse(Ticks(messages), id);
    if LastCall(Ticks(messages[..k]), id).Some? {
      assert messages == messages[..k] + messages[k..];
      TicksJoin(messages[..k], messages[k..]);
      UsedBefore(Ticks(messages[..k]), Ticks(messages[k..]), id);
    }
  }

  /** Dropping the chain puts the items of the messages before the anchor in
      front and changes nothing else but, at most, output kinds. The rest is the
      chained input itself exactly when every call awaited after the anchor and
      made before it has the type of its id's last use. */
  lemma ChainedInputIsSuffixIff(c: Config, p: Payload)
    requires Chains(p)
    ensures var k := p.previous.value.messageIndex;
      var chained, full := Built(c, p).input, Built(c, Fallback(p)).input;
      var before := InputOf(c.wire, p.messages, p.messages[..k]);
      && |full| == |before| + |chained|
      && full[..|before|] == before
      && Blind(full[|before|..]) == Blind(chained)
      && (full[|before|..] == chained <==> SteadyAcross(p.messages, k))
  {
    hide Run, Step, Ticks, Awaited, Steady, Blind;
    var k, w := p.previous.value.messageIndex, c.wire;
    var (a, b) := (p.messages[..k], p.messages[k..]);
    var m2 := Collect(Ticks(p.messages));
    var m1 := Run(w, Conversion(m2, [], []), Ticks(a)).types;
    assert a + b == p.messages;
    RunFromScratch(w, p.messages, a, b);
    Lockstep(w, m1, m2, Ticks(b));
    forall id ensures KindOf(m1, id) == KindOf(m2, id) <==> Steady(p.messages, k, id) {
      SteadyIffSameKind(w, p.messages, k, id);
    }
    var before, rest := InputOf(w, p.messages, a), Run(w, Conversion(m1, [], []), Ticks(b)).out;
    SplitAt(before, rest, Built(c, Fallback(p)).input);
    assert |Blind(rest)| == |Blind(Built(c, p).input)|;
  }

  lemma SplitAt(a: seq<Item>, b: seq<Item>, whole: seq<Item>)
    requires whole == a + b
    ensures whole[..|a|] == a && whole[|a|..] == b
  {
  }

  ghost predicate OneTypePerCall(messages: seq<Message>) {
    forall i, j ::
      0 <= i < |Ticks(messages)| && 0 <= j < |Ticks(messages)| ==> SameType(Ticks(messages)[i], Ticks(messages)[j])
  }

  predicate SameType(t: Tick, u: Tick) {
    t.Visit? && t.block.ToolUse? && u.Visit? && u.block.ToolUse? && t.block.id == u.block.id ==>
      t.block.toolType == u.block.toolType
  }

  predicate Uses(t: Tick, id: string, toolType: ToolType) {
    t.Visit? && t.block.ToolUse? && t.block.id == id && t.block.toolType == toolType
  }

  lemma {:induction false} CalledAt(ticks: seq<Tick>, id: string) returns (i: nat)
    requires LastCall(ticks, id).Some?
    ensures i < |ticks| && Uses(ticks[i], id, LastCall(ticks, id).value)
  {
    i := |ticks| - 1;
    var t := ticks[i];
    if !(t.Visit? && t.role == Assistant && t.block.ToolUse? && t.block.id == id) {
      i := CalledAt(ticks[..|ticks| - 1], id);
    }
  }

  lemma {:induction false} UsedAt(ticks: seq<Tick>, id: string) returns (i: nat)
    requires LastUse(ticks, id).Some?
    ensures i < |ticks| && Uses(ticks[i], id, LastUse(ticks, id).value)
  {
    i := |ticks| - 1;
    if !(ticks[i].Visit? && ticks[i].block.ToolUse? && ticks[i].block.id == id) {
      i := UsedAt(ticks[..|ticks| - 1], id);
    }
  }

  /** With one tool type per call id, every anchor is safe. */
  lemma OneTypePerCallIsSteady(messages: seq<Message>, k: nat)
    requires OneTypePerCall(messages) && k <= |messages|
    ensures SteadyAcross(messages, k)
  {
    hide Ticks, Awaited;
    forall id ensures Steady(messages, k, id) {
      var (a, b) := (Ticks(messages[..k]), Ticks(messages[k..]));
      if LastCall(a, id).Some? {
        assert messages == messages[..k] + messages[k..];
        TicksJoin(messages[..k], messages[k..]);
        UsedBefore(a, b, id);
        var i := CalledAt(a, id);
        var j := UsedAt(a + b, id);
        assert SameType(Ticks(messages)[i], Ticks(messages)[j]);
      }
    }
  }

  /** A custom call, its result, and the same id called again as a function: the
      chained request presents the result as a function's, full replay as a custom tool's. */
  lemma RetypedCallBreaksTheSuffix(c: Config, p: Payload, input: Input)
    requires p.previous == Some(Previous("resp", 1)) && p.messages == Retyped(input)
    ensures var before := InputOf(c.wire, p.messages, p.messages[..1]);
      Built(c, Fallback(p)).input != before + Built(c, p).input
  {
    var full, before := Built(c, Fallback(p)).input, InputOf(c.wire, p.messages, p.messages[..1]);
    ChainedInputIsSuffixIff(c, p);
    RetypedIsNotSteady(input);
    assert (before + Built(c, p).input)[|before|..] == Built(c, p).input;
  }

  function Retyped(input: Input): seq<Message> {
    [Message(Assistant, [ToolUse("c", "t", Custom, input)], None),
     Message(User, [ToolResult("c", "ok", false)], None),
     Message(Assistant, [ToolUse("c", "t", Function, input)], None)]
  }

  lemma RetypedIsNotSteady(input: Input)
    ensures !SteadyAcross(Retyped(input), 1)
  {
    var call, answer, again := Retyped(input)[0], Retyped(input)[1], Retyped(input)[2];
    hide Ticks, TicksOf, LastUse, LastCall, Awaited;
    var all := [call, answer, again];
    OneBlock(call);
    OneBlock(answer);
    OneBlock(again);
    assert all[..1] == [call] && all[1..] == [answer] + [again] && all == [call, answer] + [again];
    TicksJoin([answer], [again]);
    TicksJoin([call, answer], [again]);
    LastBlock([], Assistant, call.content[0]);
    LastBlock(Ticks([call, answer]), Assistant, again.content[0]);
    assert [] + Ticks([call]) == Ticks([call]);
    var r := Ticks([answer]);
    assert [r[0]] + ([r[1]] + Ticks([again])) == r + Ticks([again]);
    AwaitedAtHead(r[0], [r[1]] + Ticks([again]), "c");
    assert !Steady(all, 1, "c");
  }

  lemma OneBlock(m: Message)
    requires |m.content| == 1
    ensures Ticks([m]) == [Visit(m.role, m.phase, m.content[0]), End(m.role, m.phase)]
  {
    assert [m][..0] == [];
    assert Ticks([m]) == TicksOf(m);
  }

  lemma LastBlock(earlier: seq<Tick>, role: Role, block: Block)
    requires block.ToolUse?
    ensures var ticks := earlier + [Visit(role, None, block), End(role, None)];
      && LastUse(ticks, block.id) == Some(block.toolType)
      && (role == Assistant ==> LastCall(ticks, block.id) == Some(block.toolType))
  {
    var ticks := earlier + [Visit(role, None, block), End(role, None)];
    var init := ticks[..|ticks| - 1];
    assert ticks[|ticks| - 1] == End(role, None) && init[|init| - 1] == Visit(role, None, block);
  }

  lemma {:induction false} AwaitedAtHead(t: Tick, more: seq<Tick>, id: string)
    requires Answers(t) && t.block.id == id
    ensures id in Awaited([t] + more)
  {
    if more == [] {
      assert [t] + more == [t] && [t][..0] == [];
    } else {
      AwaitedAtHead(t, more[..|more| - 1], id);
      assert ([t] + more)[..|more|] == [t] + more[..|more| - 1];
    }
  }

  // ---- Falling back ---------------------------------------------------------

  datatype Reply = Streamed(text: string) | Refused(status: nat, body: string) | Broken

  /** A 4xx whose body says the previous response is not known. */
  predicate IsStaleChain(stale: string -> bool, r: Reply) {
    r.Refused? && 400 <= r.status < 500 && stale(r.body)
  }

  /** What goes to the server `ask`, which answers a first and a second request. */
  function Sent(c: Config, p: Payload, stale: string -> bool, ask: (nat, Request) -> Reply): seq<Request> {
    if p.previous.Some? && IsStaleChain(stale, ask(0, Built(c, p))) then [Built(c, p), Built(c, Fallback(p))]
    else [Built(c, p)]
  }

  method Stream(c: Config, p: Payload, stale: string -> bool, ask: (nat, Request) -> Reply)
    returns (reply: Reply, sent: seq<Request>)
    ensures sent == Sent(c, p, stale, ask) && reply == ask(|sent| - 1, sent[|sent| - 1])
  {
    var first := BuildRequest(c, p);
    reply, sent := ask(0, first), [first];
    if p.previous.None? || !IsStaleChain(stale, reply) {
      return;
    }
    var second := BuildRequest(c, Fallback(p));
    reply, sent := ask(1, second), sent + [second];
  }

  /** A second request goes out exactly when the first named a previous response
      and came back as a client error saying that response is not known. */
  lemma SecondRequestIff(c: Config, p: Payload, stale: string -> bool, ask: (nat, Request) -> Reply)
    ensures var first := ask(0, Built(c, p));
      && 1 <= |Sent(c, p, stale, ask)| <= 2 && Sent(c, p, stale, ask)[0] == Built(c, p)
      && (|Sent(c, p, stale, ask)| == 2 <==>
            p.previous.Some? && first.Refused? && first.status / 100 == 4 && stale(first.body))
      && (|Sent(c, p, stale, ask)| == 2 ==>
            Sent(c, p, stale, ask)[1] == Built(c, p.(previous := None, shareUserCacheKey := false)))
  {
    hide Built;
  }

  /** A cache key is sent, an extension's prompt had been given the user's, and
      the extension's own is another. */
  predicate LosesSharedKey(c: Config, p: Payload) {
    && c.supportsCacheKey && p.shareUserCacheKey && p.originator.ByExtension?
    && var base := c.sessionKey(c.baseUrl, p.sessionId);
       c.extensionKey(base, p.originator.name) != base
  }

  /** The fallback drops the chain. It keeps the cache key unless an extension's
      prompt had been given the user's key and has another of its own. */
  lemma FallbackKeepsCacheKeyIff(c: Config, p: Payload)
    ensures Built(c, Fallback(p)).previousResponseId.None?
    ensures Built(c, Fallback(p)).promptCacheKey == Built(c, p).promptCacheKey <==> !LosesSharedKey(c, p)
  {
    hide InputOf;
  }

  /** An extension's side query on a chain the server has forgotten: the replay
      goes out under another key. */
  lemma FallbackCanChangeCacheKey(w: Wire, first: Message, next: Message)
    ensures
      var c := Config(w, true, "url", (url, session) => "tau-1", (base, name) => "tau-2");
      var p := Payload([first, next], Some(Previous("r1", 1)), ByExtension("notes"), true, "s1");
      var sent := Sent(c, p, body => true, (k, request) => if k == 0 then Refused(404, "") else Streamed("ok"));
      |sent| == 2 && sent[0].promptCacheKey == Some("tau-1") && sent[1].promptCacheKey == Some("tau-2")
  {
    hide InputOf;
  }
}
