/**
 Routing frames between connections: broadcasting to subscribers, sending to
 one connection, and sending a tool request to the connection that provides
 the tool.
 */
module EventBus {
  import opened Basics
  import T = ToolRegistry

  // ---- Frames and connections -----------------------------------------------

  /** Written `category.call`. */
  datatype EventName = EventName(category: string, call: string)

  /** An event, an event inside its log envelope, or any other message. */
  datatype Frame = Event(name: EventName, body: string) | Logged(name: EventName, body: string) | Control(body: string)

  datatype Routed = Routed(source: Option<string>, frame: Frame)

  datatype Selector = Exact(name: EventName) | Prefix(prefix: string)

  /** Whether the written name starts with the prefix, without writing it out. */
  function MatchesPrefix(name: EventName, prefix: string): bool {
    var n := |name.category|;
    if |prefix| <= n then prefix <= name.category
    else name.category <= prefix && prefix[n] == '.' && prefix[n + 1..] <= name.call
  }

  lemma PrefixOfWrittenName(name: EventName, prefix: string)
    ensures MatchesPrefix(name, prefix) <==> prefix <= name.category + "." + name.call
  {
    var n, written := |name.category|, name.category + "." + name.call;
    if |prefix| <= n {
      assert written[..|prefix|] == name.category[..|prefix|];
    } else {
      assert written[..n] == name.category && written[n] == '.' && written[n + 1..] == name.call;
      if prefix <= written {
        assert prefix[..n] == written[..n] && prefix[n + 1..] == name.call[..|prefix| - n - 1];
      }
    }
  }

  predicate Matches(s: Selector, f: Frame) {
    match s
    case Exact(name) => !f.Control? && name == f.name
    case Prefix(prefix) => !f.Control? && MatchesPrefix(f.name, prefix)
  }

  /** `allows` is the visibility filter, `accepts` whether the sink takes a
      frame, `inbox` what it has taken. */
  datatype Entry = Entry(
    selectors: seq<Selector>, allows: Routed -> bool, accepts: Routed -> bool, inbox: seq<Routed>)

  datatype Fate = Delivered | Blocked | Skipped | Failed

  function DirectFate(e: Entry, r: Routed): Fate {
    if !e.allows(r) then Blocked else if e.accepts(r) then Delivered else Failed
  }

  function FateOf(e: Entry, r: Routed): Fate {
    if exists s :: s in e.selectors && Matches(s, r.frame) then DirectFate(e, r) else Skipped
  }

  function Offered(e: Entry, r: Routed, fate: Fate): Entry {
    if fate == Delivered then e.(inbox := e.inbox + [r]) else e
  }

  datatype Report = Report(deliveredTo: seq<string>, blocked: seq<string>, skipped: seq<string>, failed: seq<string>)

  const NoReport := Report([], [], [], [])

  function Noted(report: Report, id: string, fate: Fate): Report {
    match fate
    case Delivered => report.(deliveredTo := report.deliveredTo + [id])
    case Blocked => report.(blocked := report.blocked + [id])
    case Skipped => report.(skipped := report.skipped + [id])
    case Failed => report.(failed := report.failed + [id])
  }

  type Connections = map<string, Entry>

  /** The connections among `ids` that meet this fate. */
  ghost function Meeting(
    cs: Connections, r: Routed, ids: set<string>, fate: Fate): set<string>
  {
    set id | id in ids && id in cs && FateOf(cs[id], r) == fate
  }

  /** Each list holds the ids that met its fate, each once, in some order. */
  ghost predicate Reports(
    cs: Connections, r: Routed, ids: set<string>, report: Report)
  {
    && multiset(report.deliveredTo) == multiset(Meeting(cs, r, ids, Delivered))
    && multiset(report.blocked) == multiset(Meeting(cs, r, ids, Blocked))
    && multiset(report.skipped) == multiset(Meeting(cs, r, ids, Skipped))
    && multiset(report.failed) == multiset(Meeting(cs, r, ids, Failed))
  }

  ghost predicate OfferedAmong(
    before: Connections, after: Connections, r: Routed, ids: set<string>)
  {
    && after.Keys == before.Keys
    && forall id :: id in before ==>
         after[id] == if id in ids then Offered(before[id], r, FateOf(before[id], r)) else before[id]
  }

  lemma MeetingGrows(
    cs: Connections, r: Routed, ids: set<string>, id: string, fate: Fate)
    requires id in cs && id !in ids
    ensures multiset(Meeting(cs, r, ids + {id}, fate))
         == if FateOf(cs[id], r) == fate
            then multiset(Meeting(cs, r, ids, fate)) + multiset{id}
            else multiset(Meeting(cs, r, ids, fate))
  {
    var (a, b) := (Meeting(cs, r, ids, fate), Meeting(cs, r, ids + {id}, fate));
    hide FateOf;
    assert b == if FateOf(cs[id], r) == fate then a + {id} else a;
  }

  lemma NotedReports(
    cs: Connections, r: Routed, ids: set<string>, id: string, report: Report)
    requires id in cs && id !in ids && Reports(cs, r, ids, report)
    ensures Reports(cs, r, ids + {id}, Noted(report, id, FateOf(cs[id], r)))
  {
    MeetingGrows(cs, r, ids, id, Delivered);
    MeetingGrows(cs, r, ids, id, Blocked);
    MeetingGrows(cs, r, ids, id, Skipped);
    MeetingGrows(cs, r, ids, id, Failed);
    hide FateOf, Meeting;
  }

  /** A broadcast accounts for every connection exactly once. */
  lemma ReportIsPartition(cs: Connections, r: Routed, report: Report)
    requires Reports(cs, r, cs.Keys, report)
    ensures multiset(report.deliveredTo) + multiset(report.blocked) + multiset(report.skipped) + multiset(report.failed)
         == multiset(cs.Keys)
  {
    var d, b := Meeting(cs, r, cs.Keys, Delivered), Meeting(cs, r, cs.Keys, Blocked);
    var s, f := Meeting(cs, r, cs.Keys, Skipped), Meeting(cs, r, cs.Keys, Failed);
    forall id ensures (multiset(d) + multiset(b) + multiset(s) + multiset(f))[id] == multiset(cs.Keys)[id] {
      if id in cs {
        var fate := FateOf(cs[id], r);
        assert id in Meeting(cs, r, cs.Keys, fate);
      }
    }
  }

  /** The connection asked for events of this name; only events can be asked for. */
  ghost predicate Subscribed(e: Entry, f: Frame) {
    (f.Event? || f.Logged?) && exists s :: s in e.selectors && Covers(s, f.name)
  }

  predicate Covers(s: Selector, name: EventName) {
    s == Exact(name) || (s.Prefix? && s.prefix <= name.category + "." + name.call)
  }

  lemma FateIs(e: Entry, r: Routed)
    ensures FateOf(e, r) == Skipped <==> !Subscribed(e, r.frame)
    ensures FateOf(e, r) == Blocked <==> Subscribed(e, r.frame) && !e.allows(r)
    ensures FateOf(e, r) == Failed <==> Subscribed(e, r.frame) && e.allows(r) && !e.accepts(r)
    ensures FateOf(e, r) == Delivered <==> Subscribed(e, r.frame) && e.allows(r) && e.accepts(r)
  {
    forall s ensures Matches(s, r.frame) <==> !r.frame.Control? && Covers(s, r.frame.name) {
      if s.Prefix? && !r.frame.Control? {
        PrefixOfWrittenName(r.frame.name, s.prefix);
      }
    }
    hide Matches, Covers;
  }

  /** What a broadcast does, in terms of what each connection asked for, may see
      and takes: the frame reaches exactly the inboxes of those that asked for
      it, may see it and take it, once and last, and the report says so. */
  lemma BroadcastMeans(before: Connections, after: Connections, r: Routed, report: Report)
    requires Reports(before, r, before.Keys, report) && OfferedAmong(before, after, r, before.Keys)
    ensures after.Keys == before.Keys
    ensures forall id :: id in before ==>
      var e := before[id];
      && (id in report.skipped <==> !Subscribed(e, r.frame))
      && (id in report.blocked <==> Subscribed(e, r.frame) && !e.allows(r))
      && (id in report.failed <==> Subscribed(e, r.frame) && e.allows(r) && !e.accepts(r))
      && (id in report.deliveredTo <==> Subscribed(e, r.frame) && e.allows(r) && e.accepts(r))
      && after[id] == if id in report.deliveredTo then e.(inbox := e.inbox + [r]) else e
  {
    forall id | id in before
      ensures id in report.skipped <==> FateOf(before[id], r) == Skipped
      ensures id in report.blocked <==> FateOf(before[id], r) == Blocked
      ensures id in report.failed <==> FateOf(before[id], r) == Failed
      ensures id in report.deliveredTo <==> FateOf(before[id], r) == Delivered
    {
      InReport(before, r, report, id);
    }
    hide FateOf, Subscribed, Reports;
    forall id | id in before ensures FateOf(before[id], r) == Skipped <==> !Subscribed(before[id], r.frame)
      ensures FateOf(before[id], r) == Blocked <==> Subscribed(before[id], r.frame) && !before[id].allows(r)
      ensures FateOf(before[id], r) == Failed
         <==> Subscribed(before[id], r.frame) && before[id].allows(r) && !before[id].accepts(r)
      ensures FateOf(before[id], r) == Delivered
         <==> Subscribed(before[id], r.frame) && before[id].allows(r) && before[id].accepts(r)
    {
      FateIs(before[id], r);
    }
  }

  lemma InReport(cs: Connections, r: Routed, report: Report, id: string)
    requires Reports(cs, r, cs.Keys, report) && id in cs
    ensures id in report.skipped <==> FateOf(cs[id], r) == Skipped
    ensures id in report.blocked <==> FateOf(cs[id], r) == Blocked
    ensures id in report.failed <==> FateOf(cs[id], r) == Failed
    ensures id in report.deliveredTo <==> FateOf(cs[id], r) == Delivered
  {
    hide FateOf;
    Listed(report.skipped, Meeting(cs, r, cs.Keys, Skipped), id);
    Listed(report.blocked, Meeting(cs, r, cs.Keys, Blocked), id);
    Listed(report.failed, Meeting(cs, r, cs.Keys, Failed), id);
    Listed(report.deliveredTo, Meeting(cs, r, cs.Keys, Delivered), id);
  }

  lemma Listed(list: seq<string>, ids: set<string>, id: string)
    requires multiset(list) == multiset(ids)
    ensures id in list <==> id in ids
  {
    assert id in list <==> id in multiset(list);
    assert id in ids <==> id in multiset(ids);
  }

  // ---- Directed frames ------------------------------------------------------

  datatype RouteError = UnknownConnection(id: string) | NoProvider(name: string)

  function SentTo(cs: Connections, target: string, r: Routed): (Connections, Result<Report, RouteError>) {
    if target !in cs then (cs, Err(UnknownConnection(target))) else
      var fate := DirectFate(cs[target], r);
      (cs[target := Offered(cs[target], r, fate)], Ok(Noted(NoReport, target, fate)))
  }

  /** A directed frame needs no subscription, and touches no connection but its target. */
  lemma SendMeans(cs: Connections, target: string, r: Routed)
    ensures var (after, sent) := SentTo(cs, target, r);
      && after.Keys == cs.Keys && (forall id :: id in cs && id != target ==> after[id] == cs[id])
      && (sent.Err? <==> target !in cs) && (sent.Err? ==> sent.error == UnknownConnection(target))
      && (target in cs ==>
            var e := cs[target];
            && sent.value.skipped == []
            && sent.value.blocked == (if e.allows(r) then [] else [target])
            && sent.value.deliveredTo == (if e.allows(r) && e.accepts(r) then [target] else [])
            && sent.value.failed == (if e.allows(r) && !e.accepts(r) then [target] else [])
            && after[target] == if e.allows(r) && e.accepts(r) then e.(inbox := e.inbox + [r]) else e)
  {
  }

  datatype ToolRequest = ToolRequest(callId: string, toolName: string, arguments: string)

  datatype ToolRoute = ToolRoute(provider: string, report: Report)

  /** `invoke` is the frame that carries a request to its provider. */
  function ToolRouted(cs: Connections, registry: T.Registry, requester: string, request: ToolRequest,
                      invoke: ToolRequest -> Frame)
    : (Connections, Result<ToolRoute, RouteError>)
  {
    match T.Resolve(registry, request.toolName)
    case None => (cs, Err(NoProvider(request.toolName)))
    case Some(p) =>
      var (after, sent) := SentTo(cs, p.connection, Routed(Some(requester), invoke(request)));
      (after, if sent.Ok? then Ok(ToolRoute(p.connection, sent.value)) else Err(sent.error))
  }

  /** After any history of registrations, a tool request touches no connection
      but the oldest current provider, which gets at most that one frame, with
      the requester as its source. It is refused exactly when nobody provides
      the tool or the oldest provider is no longer on the bus. */
  lemma {:induction false} RequestReachesOnlyTheOldest(
    ops: seq<T.Op>, cs: Connections, requester: string, request: ToolRequest, invoke: ToolRequest -> Frame)
    ensures var (after, r) := ToolRouted(cs, T.After(ops), requester, request, invoke);
      && after.Keys == cs.Keys
      && (forall id :: id in cs && !T.IsOldest(ops, id, request.toolName) ==> after[id] == cs[id])
      && (forall id :: id in cs && T.IsOldest(ops, id, request.toolName) ==>
            var frame := Routed(Some(requester), invoke(request));
            && r.Ok? && r.value.provider == id
            && after[id] == (if cs[id].allows(frame) && cs[id].accepts(frame)
                             then cs[id].(inbox := cs[id].inbox + [frame]) else cs[id]))
      && (r.Ok? <==> exists id :: id in cs && T.IsOldest(ops, id, request.toolName))
      && (r.Err? ==>
            || (r.error == NoProvider(request.toolName) && forall id :: !T.IsOldest(ops, id, request.toolName))
            || (r.error.UnknownConnection? && T.IsOldest(ops, r.error.id, request.toolName) && r.error.id !in cs))
  {
    hide T.After, T.Since, T.Latest;
    T.OldestWins(ops, request.toolName);
    if T.Resolve(T.After(ops), request.toolName).None? {
      forall id ensures !T.IsOldest(ops, id, request.toolName) {
        assert T.Since(ops, id, request.toolName).None?;
      }
    }
  }

  // ---- Connection ids -------------------------------------------------------

  function Decimal(n: nat): string {
    if n < 10 then [('0' as int + n) as char] else Decimal(n / 10) + [('0' as int + n % 10) as char]
  }

  predicate AllDigits(s: string) {
    forall i :: 0 <= i < |s| ==> '0' <= s[i] <= '9'
  }

  /** The number a string of digits stands for. */
  function NumberOf(digits: string): nat
    requires AllDigits(digits)
  {
    if digits == "" then 0 else
      var n := |digits| - 1;
      10 * NumberOf(digits[..n]) + (digits[n] as int - '0' as int)
  }

  /** A number is written in decimal digits, without a leading zero, and reads back. */
  lemma {:induction false} DecimalReadsBack(n: nat)
    ensures Decimal(n) != "" && AllDigits(Decimal(n))
    ensures NumberOf(Decimal(n)) == n && (0 < n ==> Decimal(n)[0] != '0')
  {
    var last := ('0' as int + n % 10) as char;
    if n < 10 {
      assert Decimal(n)[..0] == "";
    } else {
      DecimalReadsBack(n / 10);
      assert Decimal(n)[..|Decimal(n)| - 1] == Decimal(n / 10);
    }
  }

  lemma DecimalIsInjective(n: nat, m: nat)
    requires Decimal(n) == Decimal(m)
    ensures n == m
  {
    DecimalReadsBack(n);
    DecimalReadsBack(m);
  }

  function Allocated(n: nat): string {
    "conn-" + Decimal(n)
  }

  datatype Admission = Connect(id: string) | Leave(id: string)

  /** `live` are the connected ids. */
  datatype IdState = IdState(next: nat, live: set<string>)

  function IdFor(s: IdState, requested: string): string {
    if requested == "" then Allocated(s.next + 1) else requested
  }

  function Admit(s: IdState, a: Admission): IdState {
    match a
    case Connect(requested) => IdState(if requested == "" then s.next + 1 else s.next, s.live + {IdFor(s, requested)})
    case Leave(id) => s.(live := s.live - {id})
  }

  function Admitted(admissions: seq<Admission>): IdState {
    if admissions == [] then IdState(0, {}) else
      Admit(Admitted(admissions[..|admissions| - 1]), admissions[|admissions| - 1])
  }

  /** The last admission that names this id. */
  function LastNaming(admissions: seq<Admission>, id: string): Option<Admission> {
    if admissions == [] then None else
      var a := admissions[|admissions| - 1];
      if a.id == id then Some(a) else LastNaming(admissions[..|admissions| - 1], id)
  }

  lemma AllocatedDiffer(n: nat, m: nat)
    requires n != m
    ensures Allocated(n) != Allocated(m)
  {
    hide Decimal;
    if Allocated(n) == Allocated(m) {
      assert Decimal(n) == Allocated(n)[5..] && Decimal(m) == Allocated(m)[5..];
      DecimalIsInjective(n, m);
    }
  }

  /** An id still to be allocated is live exactly when somebody asked for it by
      name and has not left since. */
  lemma {:induction false} FutureIdIsLiveIff(admissions: seq<Admission>, n: nat)
    requires Admitted(admissions).next < n
    ensures Allocated(n) in Admitted(admissions).live
       <==> LastNaming(admissions, Allocated(n)) == Some(Connect(Allocated(n)))
  {
    hide Decimal;
    if admissions != [] {
      var init, a := admissions[..|admissions| - 1], admissions[|admissions| - 1];
      FutureIdIsLiveIff(init, n);
      if a == Connect("") {
        AllocatedDiffer(Admitted(init).next + 1, n);
      }
    }
  }

  /** A connection that asks for an allocated id replaces a live one exactly when
      the last admission to name that id was a connection asking for it. */
  lemma AllocationEvictsIff(admissions: seq<Admission>)
    ensures var s := Admitted(admissions);
      IdFor(s, "") in s.live <==> LastNaming(admissions, IdFor(s, "")) == Some(Connect(IdFor(s, "")))
  {
    hide Admitted, Decimal;
    FutureIdIsLiveIff(admissions, Admitted(admissions).next + 1);
  }

  lemma {:induction false} NextOnlyGrows(admissions: seq<Admission>, i: nat)
    requires i <= |admissions|
    ensures Admitted(admissions[..i]).next <= Admitted(admissions).next
  {
    hide IdFor;
    if i == |admissions| {
      assert admissions[..i] == admissions;
    } else {
      NextOnlyGrows(admissions[..|admissions| - 1], i);
      assert admissions[..|admissions| - 1][..i] == admissions[..i];
    }
  }

  /** No id is allocated twice in a run. */
  lemma AllocatedIdsNeverRepeat(admissions: seq<Admission>, i: nat, j: nat)
    requires i < j <= |admissions| && admissions[i] == Connect("")
    ensures IdFor(Admitted(admissions[..i]), "") != IdFor(Admitted(admissions[..j]), "")
  {
    hide Decimal, Allocated;
    assert admissions[..i + 1][..i] == admissions[..i];
    assert Admitted(admissions[..i + 1]).next == Admitted(admissions[..i]).next + 1;
    NextOnlyGrows(admissions[..j], i + 1);
    assert admissions[..j][..i + 1] == admissions[..i + 1];
    AllocatedDiffer(Admitted(admissions[..i]).next + 1, Admitted(admissions[..j]).next + 1);
  }

  /** Which happens: */
  lemma AllocationCanEvict()
    ensures var s := Admitted([Connect("conn-1")]);
      IdFor(s, "") == "conn-1" && "conn-1" in s.live
  {
    assert [Connect("conn-1")][..0] == [];
    assert Decimal(1) == "1";
  }

  // ---- The bus as the source updates it -------------------------------------

  class EventBus {
    var nextConnectionId: nat
    var connections: Connections

    constructor ()
      ensures Ids() == IdState(0, {}) && connections == map[]
    {
      nextConnectionId, connections := 0, map[];
    }

    function Ids(): IdState
      reads this
    {
      IdState(nextConnectionId, connections.Keys)
    }

    /** An empty requested id asks for one to be allocated. */
    method Connect(requested: string, entry: Entry) returns (id: string)
      modifies this
      ensures id == IdFor(old(Ids()), requested)
      ensures Ids() == Admit(old(Ids()), Admission.Connect(requested))
      ensures connections == old(connections)[id := entry.(selectors := [])]
    {
      if requested == "" {
        nextConnectionId := nextConnectionId + 1;
        id := Allocated(nextConnectionId);
      } else {
        id := requested;
      }
      connections := connections[id := entry.(selectors := [])];
    }

    /** `permitted` is the subscription policy's answer. */
    method SetSubscriptions(id: string, selectors: seq<Selector>, permitted: bool) returns (replaced: bool)
      modifies this`connections
      ensures replaced <==> id in old(connections) && permitted
      ensures connections ==
        if replaced then old(connections)[id := old(connections)[id].(selectors := selectors)] else old(connections)
    {
      replaced := id in connections && permitted;
      if replaced {
        connections := connections[id := connections[id].(selectors := selectors)];
      }
    }

    method Disconnect(id: string) returns (present: bool)
      modifies this`connections
      ensures present <==> id in old(connections)
      ensures connections == old(connections) - {id}
      ensures Ids() == Admit(old(Ids()), Leave(id))
    {
      present := id in connections;
      connections := connections - {id};
    }

    /** Offers the frame to every connection, in whatever order the map yields them. */
    method PublishFrom(source: Option<string>, frame: Frame) returns (report: Report)
      modifies this`connections
      ensures var r := Routed(source, frame);
        && Reports(old(connections), r, old(connections).Keys, report)
        && OfferedAmong(old(connections), connections, r, old(connections).Keys)
    {
      hide FateOf, Offered, Reports, OfferedAmong, Noted;
      var r := Routed(source, frame);
      report := NoReport;
      var todo := connections.Keys;
      ghost var done := {};
      NothingReported(connections, r);
      while todo != {}
        invariant todo + done == old(connections).Keys && todo !! done
        invariant Reports(old(connections), r, done, report)
        invariant OfferedAmong(old(connections), connections, r, done)
        decreases |todo|
      {
        var id :| id in todo;
        assert id in connections by { SameKeys(old(connections), connections, r, done); }
        var fate := FateOf(connections[id], r);
        NotedReports(old(connections), r, done, id, report);
        OfferedOneMore(old(connections), connections, r, done, id);
        connections := connections[id := Offered(connections[id], r, fate)];
        report := Noted(report, id, fate);
        todo, done := todo - {id}, done + {id};
      }
      assert done == old(connections).Keys;
    }

    method SendTo(target: string, source: Option<string>, frame: Frame) returns (r: Result<Report, RouteError>)
      modifies this`connections
      ensures (connections, r) == SentTo(old(connections), target, Routed(source, frame))
    {
      if target !in connections {
        return Err(UnknownConnection(target));
      }
      var fate := DirectFate(connections[target], Routed(source, frame));
      connections := connections[target := Offered(connections[target], Routed(source, frame), fate)];
      return Ok(Noted(NoReport, target, fate));
    }

    method RouteToolRequest(registry: T.ToolRegistry, requester: string, request: ToolRequest,
                            invoke: ToolRequest -> Frame)
      returns (r: Result<ToolRoute, RouteError>)
      requires registry.Valid()
      modifies this`connections
      ensures (connections, r) == ToolRouted(old(connections), registry.View(), requester, request, invoke)
    {
      hide DirectFate;
      var p := registry.ResolveProvider(request.toolName);
      if p.None? {
        return Err(NoProvider(request.toolName));
      }
      var sent := SendTo(p.value.connection, Some(requester), invoke(request));
      if sent.Err? {
        return Err(sent.error);
      }
      return Ok(ToolRoute(p.value.connection, sent.value));
    }
  }

  lemma SameKeys(
    before: Connections, after: Connections, r: Routed, ids: set<string>)
    requires OfferedAmong(before, after, r, ids)
    ensures after.Keys == before.Keys
  {
  }

  lemma OfferedOneMore(
    before: Connections, after: Connections, r: Routed, ids: set<string>,
    id: string)
    requires OfferedAmong(before, after, r, ids) && id in before && id !in ids
    ensures after[id] == before[id]
    ensures OfferedAmong(before,
                         after[id := Offered(before[id], r, FateOf(before[id], r))], r, ids + {id})
  {
    hide Offered, FateOf;
  }

  lemma NothingReported(cs: Connections, r: Routed)
    ensures Reports(cs, r, {}, NoReport)
    ensures OfferedAmong(cs, cs, r, {})
  {
  }
}
