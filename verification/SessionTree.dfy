/**
 The session tree: a fold of durable session events. Nodes are numbered in
 insertion order; `head` is where the next event lands unless its caller names
 another parent.
 */
module SessionTree {
  import opened Basics

  datatype ToolOutcome =
    | Requested(toolType: ToolType, arguments: string)
    | Succeeded(result: string)
    | Failed(message: string, details: Option<string>)

  datatype Entry =
    | UserMessage(text: string)
    | AgentMessage(reply: Option<string>, thinking: Option<string>, phase: Option<Phase>, reasoning: seq<string>)
    | ToolActivity(callId: string, toolName: string, outcome: ToolOutcome)

  datatype Event =
    | UiPromptSubmitted(text: string)
    | SessionUserMessageInjected(text: string)
    | SessionPromptSteered(text: string)
    | AgentResponseFinished(
        reply: Option<string>, thinking: Option<string>, phase: Option<Phase>, reasoning: seq<string>)
    | ToolRequest(callId: string, toolName: string, toolType: ToolType, arguments: string)
    | ToolResult(callId: string, toolName: string, result: string)
    | ToolError(callId: string, toolName: string, message: string, details: Option<string>)
    | UiNavigateTree(node: nat)
    | OtherEvent

  /** The fold parent a caller passes: none, the root, or a node. */
  datatype Parent = InheritHead | AtRoot | Under(id: nat)

  datatype Node = Node(id: nat, parent: Option<nat>, entry: Entry)

  datatype Tree = Tree(nodes: seq<Node>, head: Option<nat>, nextEventId: nat)

  const Empty := Tree([], None, 0)

  /** The entry an event folds into, if any. */
  function EntryOf(e: Event): Option<Entry> {
    match e
    case UiPromptSubmitted(text) => Some(UserMessage(text))
    case SessionUserMessageInjected(text) => Some(UserMessage(text))
    case SessionPromptSteered(text) => Some(UserMessage(text))
    case AgentResponseFinished(reply, thinking, phase, reasoning) =>
      if reply.Some? || (thinking.Some? && thinking.value != []) || reasoning != []
      then Some(AgentMessage(reply, thinking, phase, reasoning))
      else None
    case ToolRequest(callId, toolName, toolType, arguments) =>
      Some(ToolActivity(callId, toolName, Requested(toolType, arguments)))
    case ToolResult(callId, toolName, result) => Some(ToolActivity(callId, toolName, Succeeded(result)))
    case ToolError(callId, toolName, message, details) =>
      Some(ToolActivity(callId, toolName, Failed(message, details)))
    case UiNavigateTree(_) => None
    case OtherEvent => None
  }

  /** An event that folds into a given entry. */
  function EventFor(entry: Entry): Event {
    match entry
    case UserMessage(text) => UiPromptSubmitted(text)
    case AgentMessage(reply, thinking, phase, reasoning) => AgentResponseFinished(reply, thinking, phase, reasoning)
    case ToolActivity(callId, toolName, Requested(toolType, arguments)) =>
      Event.ToolRequest(callId, toolName, toolType, arguments)
    case ToolActivity(callId, toolName, Succeeded(result)) => Event.ToolResult(callId, toolName, result)
    case ToolActivity(callId, toolName, Failed(message, details)) =>
      Event.ToolError(callId, toolName, message, details)
  }

  /** The three ways a user's text arrives. */
  function UserText(e: Event): Option<string> {
    match e
    case UiPromptSubmitted(text) => Some(text)
    case SessionUserMessageInjected(text) => Some(text)
    case SessionPromptSteered(text) => Some(text)
    case _ => None
  }

  /** Entries keep everything of their events: an event that makes an entry is
      the one that entry stands for, but for how a user's text arrived. Every
      entry arises but an agent message with nothing in it. */
  lemma EntriesKeepTheirEvents(e: Event, entry: Entry)
    ensures EntryOf(e) == Some(entry) ==>
      e == EventFor(entry) || (UserText(e).Some? && entry == UserMessage(UserText(e).value))
    ensures EntryOf(EventFor(entry)) == Some(entry) <==>
      entry.AgentMessage? ==>
        entry.reply.Some? || (entry.thinking.Some? && entry.thinking.value != []) || entry.reasoning != []
  {
  }

  function ParentId(t: Tree, parent: Parent): Option<nat> {
    match parent
    case InheritHead => t.head
    case AtRoot => None
    case Under(id) => Some(id)
  }

  function AppendNode(t: Tree, parent: Option<nat>, entry: Entry): Tree {
    t.(nodes := t.nodes + [Node(|t.nodes|, parent, entry)], head := Some(|t.nodes|))
  }

  /** `apply_event_at`; the second part is the node the event produced. */
  function Apply(t: Tree, parent: Parent, e: Event): (Tree, Option<nat>) {
    match EntryOf(e)
    case Some(entry) => (AppendNode(t, ParentId(t, parent), entry), Some(|t.nodes|))
    case None =>
      if e.UiNavigateTree? && e.node < |t.nodes| then (t.(head := Some(e.node)), None) else (t, None)
  }

  // ---- Branches -------------------------------------------------------------

  /** Ids are positions; true of every tree, whatever parents its callers name. */
  ghost predicate Numbered(t: Tree) {
    forall i :: 0 <= i < |t.nodes| ==> t.nodes[i].id == i
  }

  ghost predicate WellFormed(t: Tree) {
    && Numbered(t)
    && (forall i :: 0 <= i < |t.nodes| && t.nodes[i].parent.Some? ==> t.nodes[i].parent.value < i)
    && (t.head.Some? ==> t.head.value < |t.nodes|)
  }

  predicate ParentExists(t: Tree, parent: Parent) {
    parent.Under? ==> parent.id < |t.nodes|
  }

  /** The ids from the root to node `n`. */
  ghost function Path(t: Tree, n: nat): (p: seq<nat>)
    requires WellFormed(t) && n < |t.nodes|
    ensures p != [] && p[|p| - 1] == n
    ensures forall k :: 0 <= k < |p| ==> p[k] <= n
    decreases n
  {
    match t.nodes[n].parent
    case None => [n]
    case Some(parent) => Path(t, parent) + [n]
  }

  ghost function EntriesAt(t: Tree, ids: seq<nat>): (r: seq<Entry>)
    requires forall k :: 0 <= k < |ids| ==> ids[k] < |t.nodes|
    ensures |r| == |ids|
    ensures forall k :: 0 <= k < |ids| ==> r[k] == t.nodes[ids[k]].entry
  {
    seq(|ids|, k requires 0 <= k < |ids| => t.nodes[ids[k]].entry)
  }

  ghost function Branch(t: Tree, head: Option<nat>): seq<Entry>
    requires WellFormed(t)
  {
    if head.Some? && head.value < |t.nodes| then EntriesAt(t, Path(t, head.value)) else []
  }

  function Reverse<T>(s: seq<T>): (r: seq<T>)
    ensures |r| == |s|
    ensures forall k :: 0 <= k < |s| ==> r[k] == s[|s| - 1 - k]
  {
    if s == [] then [] else Reverse(s[1..]) + [s[0]]
  }

  lemma {:induction false} ReverseSnoc<T>(s: seq<T>, x: T)
    ensures Reverse(s + [x]) == [x] + Reverse(s)
  {
    if s != [] {
      assert (s + [x])[1..] == s[1..] + [x];
      ReverseSnoc(s[1..], x);
    }
  }

  lemma BranchStep(t: Tree, n: nat)
    requires WellFormed(t) && n < |t.nodes|
    ensures Branch(t, Some(n)) == Branch(t, t.nodes[n].parent) + [t.nodes[n].entry]
  {
    assert Path(t, n) == (if t.nodes[n].parent.Some? then Path(t, t.nodes[n].parent.value) else []) + [n];
  }

  function Children(t: Tree, id: nat): (r: seq<nat>)
    requires Numbered(t)
    ensures forall c: nat :: c in r <==> c < |t.nodes| && t.nodes[c].parent == Some(id)
    ensures forall i, j :: 0 <= i < j < |r| ==> r[i] < r[j]
  {
    ChildrenUpTo(t, id, |t.nodes|)
  }

  function ChildrenUpTo(t: Tree, id: nat, n: nat): (r: seq<nat>)
    requires Numbered(t) && n <= |t.nodes|
    ensures forall c: nat :: c in r <==> c < n && t.nodes[c].parent == Some(id)
    ensures forall i, j :: 0 <= i < j < |r| ==> r[i] < r[j]
  {
    if n == 0 then []
    else
      var earlier := ChildrenUpTo(t, id, n - 1);
      assert forall i :: 0 <= i < |earlier| ==> earlier[i] in earlier;
      if t.nodes[n - 1].parent == Some(id) then earlier + [t.nodes[n - 1].id] else earlier
  }

  function Parents(t: Tree): (r: set<nat>)
    ensures forall id: nat :: id in r <==> exists i :: 0 <= i < |t.nodes| && t.nodes[i].parent == Some(id)
  {
    set i | 0 <= i < |t.nodes| && t.nodes[i].parent.Some? :: t.nodes[i].parent.value
  }

  function Leaves(t: Tree): (r: seq<nat>)
    requires Numbered(t)
    ensures forall id: nat :: id in r <==> id < |t.nodes| && id !in Parents(t)
    ensures forall i, j :: 0 <= i < j < |r| ==> r[i] < r[j]
  {
    LeavesUpTo(t, |t.nodes|)
  }

  function LeavesUpTo(t: Tree, n: nat): (r: seq<nat>)
    requires Numbered(t) && n <= |t.nodes|
    ensures forall id: nat :: id in r <==> id < n && id !in Parents(t)
    ensures forall i, j :: 0 <= i < j < |r| ==> r[i] < r[j]
  {
    if n == 0 then []
    else
      var earlier := LeavesUpTo(t, n - 1);
      assert forall i :: 0 <= i < |earlier| ==> earlier[i] in earlier;
      if t.nodes[n - 1].id !in Parents(t) then earlier + [t.nodes[n - 1].id] else earlier
  }

  /** `branch_from` cut off after `fuel` steps: `None` when it has not finished. */
  function Walk(nodes: seq<Node>, current: Option<nat>, fuel: nat): Option<seq<Entry>>
    decreases fuel
  {
    if current.None? || |nodes| <= current.value then Some([])
    else if fuel == 0 then None
    else
      match Walk(nodes, nodes[current.value].parent, fuel - 1)
      case None => None
      case Some(rest) => Some([nodes[current.value].entry] + rest)
  }

  predicate Ends(nodes: seq<Node>, current: Option<nat>, fuel: nat) {
    Walk(nodes, current, fuel).Some?
  }

  ghost predicate EndsSomehow(nodes: seq<Node>, current: Option<nat>) {
    exists fuel: nat :: Ends(nodes, current, fuel)
  }

  lemma {:induction false} WalkIsOne(nodes: seq<Node>, current: Option<nat>, fuel: nat, more: nat)
    requires Ends(nodes, current, fuel) && Ends(nodes, current, more)
    ensures Walk(nodes, current, fuel) == Walk(nodes, current, more)
    decreases fuel
  {
    if current.Some? && current.value < |nodes| {
      WalkIsOne(nodes, nodes[current.value].parent, fuel - 1, more - 1);
    }
  }

  // ---- The tree as the source updates it ------------------------------------

  class Session {
    var nodes: seq<Node>
    var head: Option<nat>
    var nextEventId: nat

    constructor ()
      ensures View() == Empty
    {
      nodes, head, nextEventId := [], None, 0;
    }

    function View(): Tree
      reads this
    {
      Tree(nodes, head, nextEventId)
    }

    method AppendNodeAt(parent: Option<nat>, entry: Entry) returns (id: nat)
      modifies this
      ensures View() == AppendNode(old(View()), parent, entry)
      ensures id == |old(nodes)|
    {
      id := |nodes|;
      nodes := nodes + [Node(id, parent, entry)];
      head := Some(id);
    }

    method ApplyEventAt(parent: Parent, e: Event) returns (folded: Option<nat>)
      modifies this
      ensures (View(), folded) == Apply(old(View()), parent, e)
    {
      var under := match parent case InheritHead => head case AtRoot => None case Under(id) => Some(id);
      match EntryOf(e) {
        case Some(entry) =>
          var id := AppendNodeAt(under, entry);
          return Some(id);
        case None =>
          if e.UiNavigateTree? && e.node < |nodes| {
            head := Some(e.node);
          }
          return None;
      }
    }

    method FoldEvents(records: seq<Record>)
      modifies this
      ensures View() == Replay(records)
    {
      nodes, head, nextEventId := [], None, 0;
      for i := 0 to |records|
        invariant View() == Replay(records[..i])
      {
        assert records[..i + 1][..i] == records[..i];
        var _ := ApplyEventAt(Replayed(records[i].parent), records[i].event);
        nextEventId := records[i].id + 1;
      }
      assert records[..|records|] == records;
    }

    /** Walks parent links from `from`, which must end, and reverses what it
        collected. Where parents exist it yields the branch, root first. */
    method BranchFrom(from: Option<nat>) returns (entries: seq<Entry>)
      requires EndsSomehow(nodes, from)
      ensures forall fuel: nat :: Ends(nodes, from, fuel) ==> entries == Reverse(Walk(nodes, from, fuel).value)
      ensures WellFormed(View()) ==> entries == Branch(View(), from)
    {
      hide Reverse;
      ghost var fuel: nat :| Ends(nodes, from, fuel);
      ghost var left := fuel;
      var collected: seq<Entry> := [];
      var current: Option<nat> := from;
      assert [] + Walk(nodes, from, fuel).value == Walk(nodes, from, fuel).value;
      while current.Some?
        invariant Ends(nodes, current, left)
        invariant collected + Walk(nodes, current, left).value == Walk(nodes, from, fuel).value
        decreases left
      {
        var id := current.value;
        if |nodes| <= id {
          break;
        }
        ghost var rest := Walk(nodes, nodes[id].parent, left - 1).value;
        assert collected + ([nodes[id].entry] + rest) == collected + [nodes[id].entry] + rest;
        collected := collected + [nodes[id].entry];
        current := nodes[id].parent;
        left := left - 1;
      }
      assert collected + [] == collected;
      entries := Reverse(collected);
      forall more: nat | Ends(nodes, from, more) ensures Walk(nodes, from, more) == Walk(nodes, from, fuel) {
        WalkIsOne(nodes, from, more, fuel);
      }
      if WellFormed(View()) {
        BranchByWalk(View(), from, fuel);
      }
    }
  }

  lemma {:induction false} BranchByWalk(t: Tree, from: Option<nat>, fuel: nat)
    requires WellFormed(t) && Ends(t.nodes, from, fuel)
    ensures Reverse(Walk(t.nodes, from, fuel).value) == Branch(t, from)
  {
    hide Branch, Reverse;
    if from.Some? && from.value < |t.nodes| {
      WalkEnds(t, from.value, from.value + 1);
      WalkIsOne(t.nodes, from, fuel, from.value + 1);
      ReverseTwice(Branch(t, from));
    } else {
      OffTheTree(t, from);
    }
  }

  lemma {:induction false} ReverseTwice<T>(s: seq<T>)
    ensures Reverse(Reverse(s)) == s
  {
    assert |Reverse(Reverse(s))| == |s|;
  }

  lemma OffTheTree(t: Tree, head: Option<nat>)
    requires WellFormed(t)
    ensures head.None? || |t.nodes| <= head.value ==> Branch(t, head) == []
    ensures Reverse<Entry>([]) == []
  {
  }

  // ---- Durable records ------------------------------------------------------

  /** A durable record keeps only the inner part of the parent. */
  datatype Record = Record(id: nat, parent: Option<nat>, event: Event)

  function Stored(parent: Parent): Option<nat> {
    if parent.Under? then Some(parent.id) else None
  }

  function Replayed(stored: Option<nat>): Parent {
    match stored
    case None => InheritHead
    case Some(id) => Under(id)
  }

  /** `from_events`. */
  function Replay(records: seq<Record>): Tree {
    if records == [] then Empty else
      var r := records[|records| - 1];
      Apply(Replay(records[..|records| - 1]), Replayed(r.parent), r.event).0.(nextEventId := r.id + 1)
  }

  // ---- Reachable trees ------------------------------------------------------

  /** The tree after a sequence of events with their fold parents. */
  function ApplyAll(t: Tree, steps: seq<(Parent, Event)>): Tree
    decreases |steps|
  {
    if steps == [] then t else ApplyAll(Apply(t, steps[0].0, steps[0].1).0, steps[1..])
  }

  /** Every parent named along the way exists when it is named. */
  predicate ParentsExist(t: Tree, steps: seq<(Parent, Event)>)
    decreases |steps|
  {
    steps == []
    || (ParentExists(t, steps[0].0) && ParentsExist(Apply(t, steps[0].0, steps[0].1).0, steps[1..]))
  }

  lemma {:induction false} EveryTreeIsNumbered(t: Tree, steps: seq<(Parent, Event)>)
    requires Numbered(t)
    ensures Numbered(ApplyAll(t, steps))
    decreases |steps|
  {
    if steps != [] {
      EveryTreeIsNumbered(Apply(t, steps[0].0, steps[0].1).0, steps[1..]);
    }
  }

  lemma ApplyKeepsWellFormed(t: Tree, parent: Parent, e: Event)
    requires WellFormed(t)
    ensures WellFormed(Apply(t, parent, e).0) <==> EntryOf(e).None? || ParentExists(t, parent)
    ensures t.nodes <= Apply(t, parent, e).0.nodes
  {
    if EntryOf(e).Some? && !ParentExists(t, parent) {
      var bad := Apply(t, parent, e).0.nodes[|t.nodes|];
      assert bad.parent == Some(parent.id) && |t.nodes| <= parent.id;
    }
  }

  /** Callers that name only existing parents keep every reachable tree in
      insertion order with parents before children. */
  lemma {:induction false} ReachableIsWellFormed(t: Tree, steps: seq<(Parent, Event)>)
    requires WellFormed(t) && ParentsExist(t, steps)
    ensures WellFormed(ApplyAll(t, steps)) && t.nodes <= ApplyAll(t, steps).nodes
    decreases |steps|
  {
    if steps != [] {
      ApplyKeepsWellFormed(t, steps[0].0, steps[0].1);
      ReachableIsWellFormed(Apply(t, steps[0].0, steps[0].1).0, steps[1..]);
    }
  }

  /** The path is the unique chain of parent links from a root to the node. */
  lemma {:induction false} PathIsChain(t: Tree, n: nat)
    requires WellFormed(t) && n < |t.nodes|
    ensures t.nodes[Path(t, n)[0]].parent == None
    ensures forall k :: 0 < k < |Path(t, n)| ==> t.nodes[Path(t, n)[k]].parent == Some(Path(t, n)[k - 1])
    decreases n
  {
    if t.nodes[n].parent.Some? {
      PathIsChain(t, t.nodes[n].parent.value);
    }
  }

  lemma {:induction false} PathIsStable(t: Tree, t': Tree, n: nat)
    requires WellFormed(t) && WellFormed(t') && t.nodes <= t'.nodes && n < |t.nodes|
    ensures Path(t', n) == Path(t, n)
    decreases n
  {
    assert t'.nodes[n] == t.nodes[n];
    if t.nodes[n].parent.Some? {
      PathIsStable(t, t', t.nodes[n].parent.value);
    }
  }

  /** Where an event lands: the conversation its parent names, the head's if it
      names none, goes on with its entry, and the head moves there. */
  lemma EventContinuesBranch(t: Tree, parent: Parent, e: Event, entry: Entry)
    requires WellFormed(t) && ParentExists(t, parent) && EntryOf(e) == Some(entry)
    ensures var (t', folded) := Apply(t, parent, e);
      && WellFormed(t') && folded.Some? && t'.head == folded && folded.value == |t.nodes| == |t'.nodes| - 1
      && Branch(t', t'.head) ==
         (match parent case InheritHead => Branch(t, t.head) case AtRoot => [] case Under(id) => Branch(t, Some(id)))
         + [entry]
  {
    hide Branch, Path;
    ApplyKeepsWellFormed(t, parent, e);
    var t' := Apply(t, parent, e).0;
    var at := match parent case InheritHead => t.head case AtRoot => None case Under(id) => Some(id);
    BranchStep(t', |t.nodes|);
    SameBranch(t, t', at);
    NoHeadNoBranch(t');
  }

  lemma SameBranch(t: Tree, t': Tree, at: Option<nat>)
    requires WellFormed(t) && WellFormed(t') && t.nodes <= t'.nodes && (at.Some? ==> at.value < |t.nodes|)
    ensures Branch(t', at) == Branch(t, at)
  {
    if at.Some? {
      PathIsStable(t, t', at.value);
    }
  }

  lemma NoHeadNoBranch(t: Tree)
    requires WellFormed(t)
    ensures Branch(t, None) == []
  {
  }

  /** Navigating moves the head to a node that exists and changes nothing else;
      to one that does not, it changes nothing at all. The conversation goes on
      from there. */
  lemma NavigatingMovesHead(t: Tree, parent: Parent, node: nat, e: Event, entry: Entry)
    requires WellFormed(t) && EntryOf(e) == Some(entry)
    ensures var (u, folded) := Apply(t, parent, UiNavigateTree(node));
      && folded.None? && u == t.(head := if node < |t.nodes| then Some(node) else t.head)
      && (node < |t.nodes| ==>
            var v := Apply(u, InheritHead, e).0;
            WellFormed(v) && Branch(v, v.head) == Branch(t, Some(node)) + [entry])
  {
    if node < |t.nodes| {
      var u := t.(head := Some(node));
      EventContinuesBranch(u, InheritHead, e, entry);
      PathIsStable(t, u, node);
    }
  }

  /** Every other event without an entry leaves the tree alone. */
  lemma OtherEventsChangeNothing(t: Tree, parent: Parent, e: Event)
    requires EntryOf(e).None? && !e.UiNavigateTree?
    ensures Apply(t, parent, e) == (t, None)
  {
  }

  /** Later events never change what a branch shows. */
  lemma {:induction false} BranchIsStable(t: Tree, steps: seq<(Parent, Event)>, n: nat)
    requires WellFormed(t) && ParentsExist(t, steps) && n < |t.nodes|
    ensures WellFormed(ApplyAll(t, steps))
    ensures Branch(ApplyAll(t, steps), Some(n)) == Branch(t, Some(n))
  {
    ReachableIsWellFormed(t, steps);
    PathIsStable(t, ApplyAll(t, steps), n);
  }

  /** Every node lies on the branch of some leaf, and that branch extends its own. */
  lemma {:induction false} EveryNodeIsOnALeafBranch(t: Tree, n: nat) returns (leaf: nat)
    requires WellFormed(t) && n < |t.nodes|
    ensures leaf in Leaves(t) && n in Path(t, leaf) && Path(t, n) <= Path(t, leaf)
    decreases |t.nodes| - n
  {
    if n !in Parents(t) {
      leaf := n;
      assert Path(t, n)[|Path(t, n)| - 1] == n;
    } else {
      var child :| 0 <= child < |t.nodes| && t.nodes[child].parent == Some(n);
      leaf := EveryNodeIsOnALeafBranch(t, child);
      assert Path(t, child) == Path(t, n) + [child];
      assert Path(t, n)[|Path(t, n)| - 1] == n;
      assert Path(t, leaf)[|Path(t, n)| - 1] == n;
    }
  }

  // ---- Parents that do not exist --------------------------------------------

  lemma {:induction false} WalkEnds(t: Tree, n: nat, fuel: nat)
    requires WellFormed(t) && n < |t.nodes| && n < fuel
    ensures Walk(t.nodes, Some(n), fuel) == Some(Reverse(Branch(t, Some(n))))
    decreases n
  {
    var parent := t.nodes[n].parent;
    hide Branch, Reverse;
    BranchStep(t, n);
    ReverseSnoc(Branch(t, parent), t.nodes[n].entry);
    if parent.Some? {
      WalkEnds(t, parent.value, fuel - 1);
    } else {
      NothingAbove(t, parent);
    }
  }

  lemma NothingAbove(t: Tree, parent: Option<nat>)
    requires WellFormed(t) && parent.None?
    ensures Reverse(Branch(t, parent)) == []
  {
  }

  lemma {:induction false} SelfParentNeverEnds(nodes: seq<Node>, n: nat, fuel: nat)
    requires n < |nodes| && nodes[n].parent == Some(n)
    ensures Walk(nodes, Some(n), fuel).None?
    decreases fuel
  {
    if fuel != 0 {
      SelfParentNeverEnds(nodes, n, fuel - 1);
    }
  }

  /** Where a walk leaves the node list: above a root, or at an id no node has. */
  function Exit(nodes: seq<Node>, current: Option<nat>, fuel: nat): Option<Option<nat>>
    decreases fuel
  {
    if current.None? || |nodes| <= current.value then Some(current)
    else if fuel == 0 then None
    else Exit(nodes, nodes[current.value].parent, fuel - 1)
  }

  lemma {:induction false} EndsWhenItExits(nodes: seq<Node>, current: Option<nat>, fuel: nat)
    ensures Ends(nodes, current, fuel) <==> Exit(nodes, current, fuel).Some?
    decreases fuel
  {
    if current.Some? && current.value < |nodes| && fuel != 0 {
      EndsWhenItExits(nodes, nodes[current.value].parent, fuel - 1);
    }
  }

  lemma {:induction false} MoreFuel(nodes: seq<Node>, current: Option<nat>, fuel: nat, more: nat)
    requires Exit(nodes, current, fuel).Some? && fuel <= more
    ensures Exit(nodes, current, more) == Exit(nodes, current, fuel)
    decreases fuel
  {
    if current.Some? && current.value < |nodes| {
      MoreFuel(nodes, nodes[current.value].parent, fuel - 1, more - 1);
    }
  }

  predicate ExitsAt(nodes: seq<Node>, current: Option<nat>, fuel: nat, id: nat) {
    Exit(nodes, current, fuel) == Some(Some(id))
  }

  /** Following parents from here runs off the node list at this id. */
  ghost predicate RunsOffAt(nodes: seq<Node>, current: Option<nat>, id: nat) {
    exists fuel: nat :: ExitsAt(nodes, current, fuel, id)
  }

  /** Every walk over the tree ends. */
  ghost predicate AllEnd(nodes: seq<Node>) {
    forall n: nat :: n < |nodes| ==> EndsSomehow(nodes, Some(n))
  }

  lemma {:induction false} ExitOfLonger(nodes: seq<Node>, x: Node, current: Option<nat>, fuel: nat)
    requires Exit(nodes, current, fuel).Some? && Exit(nodes, current, fuel) != Some(Some(|nodes|))
    ensures Exit(nodes + [x], current, fuel) == Exit(nodes, current, fuel)
    decreases fuel
  {
    if current.Some? && current.value < |nodes| {
      assert (nodes + [x])[current.value] == nodes[current.value];
      ExitOfLonger(nodes, x, nodes[current.value].parent, fuel - 1);
    }
  }

  lemma {:induction false} ExitThroughNew(nodes: seq<Node>, x: Node, current: Option<nat>, fuel: nat, more: nat)
    requires ExitsAt(nodes, current, fuel, |nodes|) && Exit(nodes + [x], Some(|nodes|), more).Some?
    ensures Exit(nodes + [x], current, fuel + more).Some?
    decreases fuel
  {
    if current.value < |nodes| {
      assert (nodes + [x])[current.value] == nodes[current.value];
      ExitThroughNew(nodes, x, nodes[current.value].parent, fuel - 1, more);
    } else {
      MoreFuel(nodes + [x], current, more, fuel + more);
    }
  }

  /** A new node whose parents lead back to its own id closes a cycle. */
  lemma {:induction false} NewCycle(nodes: seq<Node>, x: Node, current: Option<nat>, fuel: nat)
    requires RunsOffAt(nodes, current, |nodes|) && RunsOffAt(nodes, x.parent, |nodes|)
    ensures Exit(nodes + [x], current, fuel).None?
    decreases fuel
  {
    var f: nat :| ExitsAt(nodes, current, f, |nodes|);
    if fuel != 0 {
      if current.value < |nodes| {
        assert (nodes + [x])[current.value] == nodes[current.value];
        assert ExitsAt(nodes, nodes[current.value].parent, f - 1, |nodes|);
        NewCycle(nodes, x, nodes[current.value].parent, fuel - 1);
      } else {
        NewCycle(nodes, x, x.parent, fuel - 1);
      }
    }
  }

  lemma NewNodeEnds(nodes: seq<Node>, x: Node)
    requires AllEnd(nodes) && !RunsOffAt(nodes, x.parent, |nodes|)
    ensures exists fuel: nat :: Ends(nodes + [x], Some(|nodes|), fuel)
  {
    var fuel: nat := 0;
    if x.parent.Some? && x.parent.value < |nodes| {
      assert EndsSomehow(nodes, x.parent);
      fuel :| Ends(nodes, x.parent, fuel);
    }
    EndsWhenItExits(nodes, x.parent, fuel);
    assert !ExitsAt(nodes, x.parent, fuel, |nodes|);
    ExitOfLonger(nodes, x, x.parent, fuel);
    assert (nodes + [x])[|nodes|] == x;
    assert Exit(nodes + [x], Some(|nodes|), fuel + 1).Some?;
    EndsWhenItExits(nodes + [x], Some(|nodes|), fuel + 1);
  }

  lemma OldNodeEnds(nodes: seq<Node>, x: Node, n: nat)
    requires AllEnd(nodes) && n < |nodes| && EndsSomehow(nodes + [x], Some(|nodes|))
    ensures EndsSomehow(nodes + [x], Some(n))
  {
    assert EndsSomehow(nodes, Some(n));
    var fuel: nat :| Ends(nodes, Some(n), fuel);
    EndsWhenItExits(nodes, Some(n), fuel);
    var more: nat :| Ends(nodes + [x], Some(|nodes|), more);
    EndsWhenItExits(nodes + [x], Some(|nodes|), more);
    if ExitsAt(nodes, Some(n), fuel, |nodes|) {
      ExitThroughNew(nodes, x, Some(n), fuel, more);
      EndsWhenItExits(nodes + [x], Some(n), fuel + more);
    } else {
      ExitOfLonger(nodes, x, Some(n), fuel);
      EndsWhenItExits(nodes + [x], Some(n), fuel);
    }
  }

  /** After one more node every walk still ends exactly when following parents
      up from the parent it was given does not run off the list at its own id. */
  lemma WalksStillEndIff(nodes: seq<Node>, x: Node)
    requires AllEnd(nodes)
    ensures AllEnd(nodes + [x]) <==> !RunsOffAt(nodes, x.parent, |nodes|)
  {
    hide Exit, Walk;
    var n := |nodes|;
    if RunsOffAt(nodes, x.parent, n) {
      assert ExitsAt(nodes, Some(n), 0, n) by { NewIdExits(nodes); }
      forall fuel: nat ensures !Ends(nodes + [x], Some(n), fuel) {
        NewCycle(nodes, x, Some(n), fuel);
        EndsWhenItExits(nodes + [x], Some(n), fuel);
      }
      assert !EndsSomehow(nodes + [x], Some(n));
    } else {
      NewNodeEnds(nodes, x);
      forall m: nat | m < n + 1 ensures EndsSomehow(nodes + [x], Some(m)) {
        if m < n {
          OldNodeEnds(nodes, x, m);
        }
      }
    }
  }

  lemma NewIdExits(nodes: seq<Node>)
    ensures ExitsAt(nodes, Some(|nodes|), 0, |nodes|)
  {
  }

  lemma {:induction false} EndsInPrefix(nodes: seq<Node>, longer: seq<Node>, current: Option<nat>, fuel: nat)
    requires nodes <= longer && Ends(longer, current, fuel)
    ensures Ends(nodes, current, fuel)
    decreases fuel
  {
    if current.Some? && current.value < |nodes| {
      assert longer[current.value] == nodes[current.value];
      EndsInPrefix(nodes, longer, nodes[current.value].parent, fuel - 1);
    }
  }

  /** A walk that does not end never will. */
  lemma CyclesStay(nodes: seq<Node>, longer: seq<Node>)
    requires nodes <= longer && AllEnd(longer)
    ensures AllEnd(nodes)
  {
    hide Ends;
    forall n: nat | n < |nodes| ensures EndsSomehow(nodes, Some(n)) {
      assert EndsSomehow(longer, Some(n));
      var fuel: nat :| Ends(longer, Some(n), fuel);
      EndsInPrefix(nodes, longer, Some(n), fuel);
    }
  }

  /** No event of the run makes a node whose parents lead back to its own id. */
  ghost predicate ClosesNoCycle(t: Tree, steps: seq<(Parent, Event)>)
    decreases |steps|
  {
    steps == []
    || ((EntryOf(steps[0].1).Some? ==> !RunsOffAt(t.nodes, ParentId(t, steps[0].0), |t.nodes|))
        && ClosesNoCycle(Apply(t, steps[0].0, steps[0].1).0, steps[1..]))
  }

  lemma {:induction false} NodesOnlyGrow(t: Tree, steps: seq<(Parent, Event)>)
    ensures t.nodes <= ApplyAll(t, steps).nodes
    decreases |steps|
  {
    if steps != [] {
      NodesOnlyGrow(Apply(t, steps[0].0, steps[0].1).0, steps[1..]);
    }
  }

  lemma StepEndsIff(t: Tree, parent: Parent, e: Event)
    requires AllEnd(t.nodes)
    ensures AllEnd(Apply(t, parent, e).0.nodes)
       <==> (EntryOf(e).Some? ==> !RunsOffAt(t.nodes, ParentId(t, parent), |t.nodes|))
  {
    hide AllEnd, RunsOffAt;
    if EntryOf(e).Some? {
      WalksStillEndIff(t.nodes, Node(|t.nodes|, ParentId(t, parent), EntryOf(e).value));
    }
  }

  /** Trees built on existing parents only are among those in which every walk ends. */
  lemma WellFormedWalksEnd(t: Tree)
    requires WellFormed(t)
    ensures AllEnd(t.nodes)
  {
    hide Walk, Branch;
    forall n: nat | n < |t.nodes| ensures EndsSomehow(t.nodes, Some(n)) {
      WalkEnds(t, n, n + 1);
      assert Ends(t.nodes, Some(n), n + 1);
    }
  }

  /** Over a run with any parents, existing or not, every walk over the tree ends
      exactly when no event along the way closed a cycle. */
  lemma {:induction false} WalksEndIff(t: Tree, steps: seq<(Parent, Event)>)
    requires AllEnd(t.nodes)
    ensures AllEnd(ApplyAll(t, steps).nodes) <==> ClosesNoCycle(t, steps)
    decreases |steps|
  {
    hide AllEnd, RunsOffAt, Apply, EntryOf;
    if steps != [] {
      var t' := Apply(t, steps[0].0, steps[0].1).0;
      StepEndsIff(t, steps[0].0, steps[0].1);
      if AllEnd(t'.nodes) {
        WalksEndIff(t', steps[1..]);
      } else if AllEnd(ApplyAll(t, steps).nodes) {
        NodesOnlyGrow(t', steps[1..]);
        CyclesStay(t'.nodes, ApplyAll(t', steps[1..]).nodes);
      }
    }
  }

  /** A parent that does not exist yet ends the walk today but can close a cycle
      with the node that takes its number. */
  lemma DanglingParentCanLoopLater(e: Event, fuel: nat)
    requires EntryOf(e).Some?
    ensures var t := ApplyAll(Empty, [(Under(1), e), (Under(0), e)]);
      Walk(t.nodes, t.head, fuel).None? && !ClosesNoCycle(Empty, [(Under(1), e), (Under(0), e)])
  {
    var first := Apply(Empty, Under(1), e).0;
    var second := Apply(first, Under(0), e).0;
    var steps := [(Under(1), e), (Under(0), e)];
    assert steps[1..] == [(Under(0), e)];
    assert steps[1..][1..] == [];
    assert ApplyAll(first, steps[1..]) == ApplyAll(second, steps[1..][1..]) == second;
    assert ApplyAll(Empty, steps) == second;
    TwoNodeCycle(second.nodes, 1, fuel);
    assert ExitsAt(first.nodes, Some(0), 1, 1);
    assert !ClosesNoCycle(first, steps[1..]);
  }

  lemma {:induction false} TwoNodeCycle(nodes: seq<Node>, n: nat, fuel: nat)
    requires |nodes| == 2 && n < 2 && nodes[0].parent == Some(1) && nodes[1].parent == Some(0)
    ensures Walk(nodes, Some(n), fuel).None?
    decreases fuel
  {
    if fuel != 0 {
      TwoNodeCycle(nodes, 1 - n, fuel - 1);
    }
  }
}
