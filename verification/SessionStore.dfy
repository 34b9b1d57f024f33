/**
 The session store: one record log per session on disk and, for the sessions
 in use, the tree folded from it. Appending writes one record and folds the
 same event into the tree; a store opened later folds the log again.
 */
module SessionStore {
  import opened Basics
  import opened SessionTree
  import opened RecordLog

  // ---- One session ----------------------------------------------------------

  /** Serialization. What is assumed of it is assumed of the records in use only:
      no codec could encode every record faithfully below any bound. */
  datatype Codec = Codec(encode: Record -> seq<byte>, decode: seq<byte> -> Option<Record>)

  predicate Encodes(c: Codec, r: Record) {
    c.decode(c.encode(r)) == Some(r) && |c.encode(r)| < U64
  }

  predicate Faithful(c: Codec, records: seq<Record>) {
    forall i :: 0 <= i < |records| ==> Encodes(c, records[i])
  }

  function Payloads(c: Codec, records: seq<Record>): seq<seq<byte>> {
    seq(|records|, i requires 0 <= i < |records| => c.encode(records[i]))
  }

  /** No record exceeds what the reader accepts. */
  predicate Readable(c: Codec, records: seq<Record>) {
    WithinBound(Payloads(c, records))
  }

  /** What the session's file holds. */
  function FileOf(c: Codec, records: seq<Record>): seq<byte> {
    LogOf(Payloads(c, records))
  }

  /** The records on disk and the tree an append would fold into: the one in
      memory, or the one a load would give; none when the load fails. */
  datatype Live = Live(tree: Option<Tree>, records: seq<Record>)

  datatype Op = Append(parent: Parent, event: Event) | Reopen

  const Fresh := Live(Some(Empty), [])

  /** The tree takes the caller's parent, the record only what `Stored` keeps of it. */
  function Grown(t: Tree, parent: Parent, e: Event): Tree {
    Apply(t, parent, e).0.(nextEventId := t.nextEventId + 1)
  }

  function NewRecord(t: Tree, parent: Parent, e: Event): Record {
    Record(t.nextEventId, Stored(parent), e)
  }

  function Loaded(c: Codec, records: seq<Record>): Option<Tree> {
    if Readable(c, records) then Some(Replay(records)) else None
  }

  /** An append needs its tree; a reopen forgets the tree and loads it anew. */
  function Do(c: Codec, l: Live, op: Op): Live {
    match op
    case Append(parent, e) =>
      if l.tree.None? then l
      else Live(Some(Grown(l.tree.value, parent, e)), l.records + [NewRecord(l.tree.value, parent, e)])
    case Reopen => l.(tree := Loaded(c, l.records))
  }

  function DoAll(c: Codec, l: Live, ops: seq<Op>): Live {
    if ops == [] then l else Do(c, DoAll(c, l, ops[..|ops| - 1]), ops[|ops| - 1])
  }

  /** An event that makes a node, folded at the root while the head is set: the
      record forgets the root, and a replay will use the head. */
  predicate Strays(t: Tree, op: Op) {
    op.Append? && op.parent == AtRoot && t.head.Some? && EntryOf(op.event).Some?
  }

  /** Whether such an append happened since the last reopen. */
  function Strayed(c: Codec, ops: seq<Op>): bool {
    if ops == [] then false else
      var earlier, op := ops[..|ops| - 1], ops[|ops| - 1];
      var l := DoAll(c, Fresh, earlier);
      op.Append? && (Strayed(c, earlier) || (l.tree.Some? && Strays(l.tree.value, op)))
  }

  /** Same nodes but for their parents, same head, same next id. */
  ghost predicate Twins(t: Tree, u: Tree) {
    && |t.nodes| == |u.nodes| && t.head == u.head && t.nextEventId == u.nextEventId
    && (forall i :: 0 <= i < |t.nodes| ==> t.nodes[i].id == u.nodes[i].id && t.nodes[i].entry == u.nodes[i].entry)
  }

  lemma ReplaySnoc(records: seq<Record>, r: Record)
    ensures Replay(records + [r]) == Apply(Replay(records), Replayed(r.parent), r.event).0.(nextEventId := r.id + 1)
  {
    assert (records + [r])[..|records|] == records;
  }

  /** One append keeps the live tree and the replayed log twins; they stay equal
      exactly when they were and the append does not stray. */
  lemma AppendTwins(t: Tree, records: seq<Record>, parent: Parent, e: Event)
    requires Twins(t, Replay(records))
    ensures var t' := Grown(t, parent, e);
      var u' := Replay(records + [NewRecord(t, parent, e)]);
      var op := Append(parent, e);
      && Twins(t', u')
      && (t' == u' <==> t == Replay(records) && !Strays(t, op))
  {
    var t', u := Grown(t, parent, e), Replay(records);
    ReplaySnoc(records, NewRecord(t, parent, e));
    var u' := Replay(records + [NewRecord(t, parent, e)]);
    if t != u {
      assert t'.nodes[..|t.nodes|] == t.nodes && u'.nodes[..|t.nodes|] == u.nodes;
    }
    if Strays(t, Append(parent, e)) {
      var n := |t.nodes|;
      assert t'.nodes[n].parent != u'.nodes[n].parent;
    }
  }

  ghost predicate LikeReplay(l: Live, strayed: bool) {
    l.tree.Some? ==>
      && Twins(l.tree.value, Replay(l.records))
      && (l.tree.value == Replay(l.records) <==> !strayed)
  }

  /** After any appends and reopens the live tree and the replayed log differ at
      most in parents, and are equal exactly when no append strayed since the last
      reopen. */
  ghost predicate RunsLikeReplay(c: Codec, ops: seq<Op>) {
    LikeReplay(DoAll(c, Fresh, ops), Strayed(c, ops))
  }

  lemma {:induction false} LiveAgainstReplay(c: Codec, ops: seq<Op>)
    ensures RunsLikeReplay(c, ops)
  {
    hide Twins, Strays, Readable, Grown, NewRecord, Replay;
    if ops == [] {
      FreshIsReplayed();
    } else {
      var earlier, op := ops[..|ops| - 1], ops[|ops| - 1];
      LiveAgainstReplay(c, earlier);
      var l := DoAll(c, Fresh, earlier);
      if op.Reopen? {
        SelfTwins(Replay(l.records));
      } else if l.tree.Some? {
        AppendTwins(l.tree.value, l.records, op.parent, op.event);
      }
    }
  }

  lemma FreshIsReplayed()
    ensures LikeReplay(Fresh, false)
  {
    SelfTwins(Empty);
    assert Replay([]) == Empty;
  }

  lemma SelfTwins(t: Tree)
    ensures Twins(t, t)
  {
  }

  /** Closing a session in use and reading its file back gives the same tree,
      head and next id included, exactly when no record exceeds the reader's
      bound and no event that makes a node was folded at the root under a set
      head since the session was last opened. */
  lemma ReopenIsInvisibleIff(c: Codec, ops: seq<Op>)
    requires Faithful(c, DoAll(c, Fresh, ops).records) && DoAll(c, Fresh, ops).tree.Some?
    ensures var l := DoAll(c, Fresh, ops);
      var read := Read(FileOf(c, l.records), c.decode);
      read.Ok? && Replay(read.value) == l.tree.value <==> Readable(c, l.records) && !Strayed(c, ops)
  {
    hide Replay, Read, Faithful, Readable, FileOf, Twins, Strayed, Do;
    LiveAgainstReplay(c, ops);
    var l := DoAll(c, Fresh, ops);
    UncutFile(c, l.records);
  }

  /** The same as a run sees it. A session that could not be loaded stays so. */
  lemma ReopenChangesNothingIff(c: Codec, ops: seq<Op>)
    ensures var l := DoAll(c, Fresh, ops);
      DoAll(c, Fresh, ops + [Reopen]) == l <==> l.tree.None? || (Readable(c, l.records) && !Strayed(c, ops))
  {
    hide Replay, Readable, Twins, Strayed;
    LiveAgainstReplay(c, ops);
    ShutIsUnreadable(c, ops);
    var l := DoAll(c, Fresh, ops);
    assert (ops + [Reopen])[..|ops|] == ops;
  }

  lemma {:induction false} ShutIsUnreadable(c: Codec, ops: seq<Op>)
    ensures DoAll(c, Fresh, ops).tree.None? ==> !Readable(c, DoAll(c, Fresh, ops).records)
  {
    hide Replay, Readable, Grown, NewRecord;
    if ops != [] {
      ShutIsUnreadable(c, ops[..|ops| - 1]);
    }
  }

  /** A reopen that succeeds, which it does exactly when the log is readable,
      keeps every node, the head and the next id even where it shows: only parents
      differ. A second reopen changes nothing more. */
  lemma ReopenLosesOnlyParents(c: Codec, ops: seq<Op>)
    ensures var l, l' := DoAll(c, Fresh, ops), DoAll(c, Fresh, ops + [Reopen]);
      && (l'.tree.Some? <==> Readable(c, l.records))
      && (l.tree.Some? && l'.tree.Some? ==> Twins(l'.tree.value, l.tree.value))
      && DoAll(c, Fresh, ops + [Reopen, Reopen]) == l'
  {
    hide Replay, Twins, Strayed, Readable;
    LiveAgainstReplay(c, ops);
    var l := DoAll(c, Fresh, ops);
    if l.tree.Some? {
      TwinsBothWays(l.tree.value, Replay(l.records));
    }
    assert (ops + [Reopen])[..|ops|] == ops;
    assert (ops + [Reopen, Reopen])[..|ops| + 1] == ops + [Reopen];
  }

  lemma TwinsBothWays(t: Tree, u: Tree)
    ensures Twins(t, u) <==> Twins(u, t)
  {
  }

  ghost predicate CountsUp(l: Live) {
    && (l.tree.Some? ==> l.tree.value.nextEventId == |l.records|)
    && Replay(l.records).nextEventId == |l.records|
    && (forall i :: 0 <= i < |l.records| ==> l.records[i].id == i)
  }

  lemma DoKeepsCounting(c: Codec, l: Live, op: Op)
    requires CountsUp(l)
    ensures CountsUp(Do(c, l, op))
  {
    hide Replay, Apply, Readable;
    if op.Append? && l.tree.Some? {
      ReplaySnoc(l.records, NewRecord(l.tree.value, op.parent, op.event));
    }
  }

  /** Record ids count up from zero, across reopens. */
  lemma {:induction false} RecordIdsAreConsecutive(c: Codec, ops: seq<Op>)
    ensures CountsUp(DoAll(c, Fresh, ops))
  {
    hide CountsUp, Do;
    if ops == [] {
      FreshCounts();
    } else {
      RecordIdsAreConsecutive(c, ops[..|ops| - 1]);
      DoKeepsCounting(c, DoAll(c, Fresh, ops[..|ops| - 1]), ops[|ops| - 1]);
    }
  }

  lemma FreshCounts()
    ensures CountsUp(Fresh)
  {
    assert Replay([]) == Empty;
  }

  // ---- Sessions whose reopen shows ------------------------------------------

  const First := Record(0, None, UiPromptSubmitted("a"))
  const Second := Record(1, None, UiPromptSubmitted("b"))
  const Long := Record(0, None, UiPromptSubmitted("long"))

  /** Two records of one byte, and one just above the reader's bound. */
  const Sample: Codec := Codec(
    r => if r == First then [0] else if r == Second then [1] else seq(MAX_RECORD_BYTES + 1, i => 2),
    bytes => if bytes == [0] then Some(First) else if bytes == [1] then Some(Second) else Some(Long))

  lemma SampleRecords()
    ensures Encodes(Sample, First) && |Sample.encode(First)| == 1
    ensures Encodes(Sample, Second) && |Sample.encode(Second)| == 1
    ensures Encodes(Sample, Long) && |Sample.encode(Long)| == MAX_RECORD_BYTES + 1
  {
    assert "a" != "long" && "b" != "long";
  }

  lemma OneAndTwo(c: Codec, a: Op, b: Op)
    ensures DoAll(c, Fresh, [a]) == Do(c, Fresh, a)
    ensures DoAll(c, Fresh, [a, b]) == Do(c, Do(c, Fresh, a), b)
  {
    hide Do;
    assert [a, b][..1] == [a] && [a][..0] == [];
  }

  function PromptNode(id: nat, parent: Option<nat>, text: string): Node {
    Node(id, parent, UserMessage(text))
  }

  lemma PromptGrows(t: Tree, parent: Parent, text: string)
    ensures Grown(t, parent, UiPromptSubmitted(text)) ==
      Tree(t.nodes + [PromptNode(|t.nodes|, ParentId(t, parent), text)], Some(|t.nodes|), t.nextEventId + 1)
  {
  }

  /** A second prompt at the root reads back as the first one's child. */
  lemma ReopenCanShow()
    ensures var l := DoAll(Sample, Fresh, [Append(InheritHead, First.event), Append(AtRoot, Second.event)]);
      var read := Read(FileOf(Sample, l.records), Sample.decode);
      && Faithful(Sample, l.records) && Readable(Sample, l.records)
      && l.tree == Some(Tree([PromptNode(0, None, "a"), PromptNode(1, None, "b")], Some(1), 2))
      && read.Ok? && Replay(read.value) == Tree([PromptNode(0, None, "a"), PromptNode(1, Some(0), "b")], Some(1), 2)
  {
    var a, b := Append(InheritHead, First.event), Append(AtRoot, Second.event);
    var root := PromptNode(0, None, "a");
    var one := Tree([root], Some(0), 1);
    OneAndTwo(Sample, a, b);
    hide PromptNode;
    PromptGrows(Empty, InheritHead, "a");
    PromptGrows(one, AtRoot, "b");
    PromptGrows(one, InheritHead, "b");
    assert [] + [root] == [root];
    forall n: Node ensures [root] + [n] == [root, n] {
    }
    hide Grown;
    assert Do(Sample, Fresh, a) == Live(Some(one), [First]);
    assert [First] + [Second] == [First, Second];
    SampleRecords();
    UncutFile(Sample, [First, Second]);
    ReplaySnoc([], First);
    ReplaySnoc([First], Second);
  }

  /** One record above the bound, and the session cannot be loaded again. */
  lemma ReopenCanFail()
    ensures var l := DoAll(Sample, Fresh, [Append(InheritHead, Long.event)]);
      var read := Read(FileOf(Sample, l.records), Sample.decode);
      && Faithful(Sample, l.records) && l.tree == Some(Tree([PromptNode(0, None, "long")], Some(0), 1))
      && read.Err? && read.error.TooLong?
  {
    var a := Append(InheritHead, Long.event);
    OneAndTwo(Sample, a, a);
    PromptGrows(Empty, InheritHead, "long");
    assert [] + [PromptNode(0, None, "long")] == [PromptNode(0, None, "long")];
    SampleRecords();
    assert Do(Sample, Fresh, a).records == [Long];
    assert |Payloads(Sample, [Long])[0]| == MAX_RECORD_BYTES + 1;
    UncutFile(Sample, [Long]);
  }

  // ---- The store ------------------------------------------------------------

  ghost predicate Holds(c: Codec, file: seq<byte>, records: seq<Record>) {
    file == FileOf(c, records) && Faithful(c, records)
  }

  ghost predicate Folds(t: Tree, records: seq<Record>) {
    Twins(t, Replay(records))
  }

  datatype Outcome = Outcome(id: nat, folded: Option<nat>)

  type SessionId = string

  /** Every file holds its log, every tree in memory is the log folded. */
  ghost predicate Consistent(c: Codec, files: map<SessionId, seq<byte>>, sessions: map<SessionId, Tree>,
                             logs: map<SessionId, seq<Record>>)
  {
    && files.Keys == logs.Keys
    && (forall sid :: sid in files ==> Holds(c, files[sid], logs[sid]))
    && (forall sid :: sid in sessions ==> sid in logs && Folds(sessions[sid], logs[sid]))
  }

  lemma WritingKeepsConsistent(c: Codec, files: map<SessionId, seq<byte>>, sessions: map<SessionId, Tree>,
                               logs: map<SessionId, seq<Record>>, sid: SessionId, file: seq<byte>, tree: Tree,
                               records: seq<Record>)
    requires Consistent(c, files, sessions, logs)
    requires Holds(c, file, records) && Folds(tree, records)
    ensures Consistent(c, files[sid := file], sessions[sid := tree], logs[sid := records])
  {
    hide Holds, Folds;
  }

  /** `files` is the disk and survives `Close`; `logs` says what is on it. */
  class Store {
    const codec: Codec
    var files: map<SessionId, seq<byte>>
    var sessions: map<SessionId, Tree>
    ghost var logs: map<SessionId, seq<Record>>

    ghost predicate Valid()
      reads this
    {
      Consistent(codec, files, sessions, logs)
    }

    constructor (codec: Codec)
      ensures Valid() && this.codec == codec
      ensures files == map[] && sessions == map[] && logs == map[]
    {
      this.codec := codec;
      files, sessions, logs := map[], map[], map[];
    }

    /** What an append to this session starts from. */
    ghost function Session(sid: SessionId): Live
      reads this
      requires Valid()
    {
      if sid in sessions then Live(Some(sessions[sid]), logs[sid])
      else if sid in logs then Live(Loaded(codec, logs[sid]), logs[sid])
      else Fresh
    }

    ghost predicate EncodesNext(sid: SessionId, parent: Parent, e: Event)
      reads this
      requires Valid()
    {
      Session(sid).tree.Some? ==> Encodes(codec, NewRecord(Session(sid).tree.value, parent, e))
    }

    /** Drops every tree, as closing the store and opening it lazily does. */
    method Close()
      requires Valid()
      modifies this`sessions
      ensures Valid() && sessions == map[]
      ensures forall sid :: Session(sid) == Do(codec, old(Session(sid)), Reopen)
    {
      hide Replay, Readable, Faithful;
      EmptyLogLoads(codec);
      sessions := map[];
    }

    /** Loads the tree from disk unless it is in memory or has no file; no
        session changes by it. The load fails exactly when some record on disk
        exceeds the reader's bound. */
    method LoadIfNeeded(sid: SessionId) returns (error: Option<ReadError>)
      requires Valid()
      modifies this`sessions
      ensures Valid()
      ensures forall other :: Session(other) == old(Session(other))
      ensures error.None? <==> old(Session(sid)).tree.Some?
      ensures error.None? ==> sid in sessions || sid !in files
      ensures sessions ==
        if error.None? && sid in files then old(sessions)[sid := old(Session(sid)).tree.value] else old(sessions)
    {
      if sid in sessions || sid !in files {
        return None;
      }
      UncutFile(codec, logs[sid]);
      var records := ReadRecords(files[sid], codec.decode);
      match records {
        case Err(e) => return Some(e);
        case Ok(rs) =>
          var tree := Refold(rs);
          SelfTwins(tree);
          sessions := sessions[sid := tree];
          return None;
      }
    }

    method Refold(records: seq<Record>) returns (tree: Tree)
      ensures tree == Replay(records)
    {
      var session := new Session();
      session.FoldEvents(records);
      tree := session.View();
    }

    /** Writes one record and folds the same event into the tree. */
    method AppendSessionEventAt(sid: SessionId, parent: Parent, e: Event) returns (r: Result<Outcome, ReadError>)
      requires Valid() && EncodesNext(sid, parent, e)
      modifies this
      ensures Valid()
      ensures Session(sid) == Do(codec, old(Session(sid)), Append(parent, e))
      ensures forall other :: other != sid ==> Session(other) == old(Session(other))
      ensures r.Err? <==> old(Session(sid)).tree.None?
      ensures r.Err? ==> sessions == old(sessions) && files == old(files) && logs == old(logs)
      ensures r.Ok? ==>
        var tree := old(Session(sid)).tree.value;
        && sid in sessions && r.value == Outcome(tree.nextEventId, Apply(tree, parent, e).1)
    {
      hide Replay, Apply, Grown, Loaded, Holds, Folds, Faithful, Consistent;
      var error := LoadIfNeeded(sid);
      if error.Some? {
        return Err(error.value);
      }
      var outcome := Commit(sid, parent, e);
      return Ok(outcome);
    }

    method Commit(sid: SessionId, parent: Parent, e: Event) returns (outcome: Outcome)
      requires Valid() && (sid in sessions || sid !in files) && EncodesNext(sid, parent, e)
      modifies this
      ensures Valid()
      ensures var before := old(Session(sid));
        var after := Do(codec, before, Append(parent, e));
        && before.tree.Some? && after.tree.Some?
        && logs == old(logs)[sid := after.records]
        && sessions == old(sessions)[sid := after.tree.value]
        && outcome == Outcome(before.tree.value.nextEventId, Apply(before.tree.value, parent, e).1)
    {
      hide Replay, Apply, Faithful, Holds, Folds, Framed, Stored, Loaded;
      ghost var before := Session(sid);
      var tree := if sid in sessions then sessions[sid] else Empty;
      var file := if sid in files then files[sid] else [];
      var record := NewRecord(tree, parent, e);
      AppendKeepsStore(codec, file, tree, before.records, parent, e);
      hide Consistent;
      var (folded, node) := Apply(tree, parent, e);
      var grown := file + Framed(codec.encode(record));
      var next := folded.(nextEventId := tree.nextEventId + 1);
      WritingKeepsConsistent(codec, files, sessions, logs, sid, grown, next, before.records + [record]);
      files := files[sid := grown];
      logs := logs[sid := before.records + [record]];
      sessions := sessions[sid := next];
      return Outcome(tree.nextEventId, node);
    }
  }

  lemma EmptyLogLoads(c: Codec)
    ensures Loaded(c, []) == Some(Empty)
  {
  }

  lemma AppendKeepsStore(c: Codec, file: seq<byte>, t: Tree, records: seq<Record>, parent: Parent, e: Event)
    requires (Holds(c, file, records) && Folds(t, records)) || (file == [] && t == Empty && records == [])
    requires Encodes(c, NewRecord(t, parent, e))
    ensures var record := NewRecord(t, parent, e);
      && Holds(c, file + Framed(c.encode(record)), records + [record])
      && Folds(Grown(t, parent, e), records + [record])
  {
    FileAfterAppend(c, records, NewRecord(t, parent, e));
    assert Replay([]) == Empty;
    AppendTwins(t, records, parent, e);
  }

  /** A file holding these records reads back as them exactly when each is
      within the reader's bound. */
  lemma UncutFile(c: Codec, records: seq<Record>)
    requires Faithful(c, records)
    ensures Readable(c, records) ==> Read(FileOf(c, records), c.decode) == Ok(records)
    ensures !Readable(c, records) ==>
      Read(FileOf(c, records), c.decode).Err? && Read(FileOf(c, records), c.decode).error.TooLong?
  {
    var payloads := Payloads(c, records);
    assert Decodes(payloads, records, c.decode);
    UncutLog(payloads, records, c.decode);
  }

  lemma FileAfterAppend(c: Codec, records: seq<Record>, r: Record)
    ensures FileOf(c, []) == []
    ensures FileOf(c, records + [r]) == FileOf(c, records) + Framed(c.encode(r))
  {
    AppendFrames(Payloads(c, records), c.encode(r));
    assert Payloads(c, records + [r]) == Payloads(c, records) + [c.encode(r)];
  }
}
