/**
 Prompts that refer to earlier prompts. The agent keeps a map of materialized
 prompts and resolves each reference with one lookup; the meaning of a
 reference is the recursive unfolding of the prompts it has seen.
 */
module PromptSnapshots {
  import opened Basics

  type Spid = string

  datatype Prefix = Prefix(base: Spid, count: nat)

  datatype Prompt = Prompt(
    spid: Spid,
    system: string, systemRef: Option<Spid>,
    messages: seq<string>, prefix: Option<Prefix>,
    tools: seq<string>, toolsRef: Option<Spid>,
    fromExtension: bool)

  datatype BadReference =
    | NoSystemBase(base: Spid)
    | NoPrefixBase(base: Spid)
    | PrefixTooLong(base: Spid, have: nat, need: nat)
    | NoToolsBase(base: Spid)

  /** What one reference costs, given a way to find bases. */
  function ResolveWith(p: Prompt, find: Spid -> Option<Prompt>): Result<Prompt, BadReference> {
    if p.systemRef.Some? && find(p.systemRef.value).None? then Err(NoSystemBase(p.systemRef.value))
    else if p.prefix.Some? && find(p.prefix.value.base).None? then Err(NoPrefixBase(p.prefix.value.base))
    else if p.prefix.Some? && |find(p.prefix.value.base).value.messages| < p.prefix.value.count then
      Err(PrefixTooLong(p.prefix.value.base, |find(p.prefix.value.base).value.messages|, p.prefix.value.count))
    else if p.toolsRef.Some? && find(p.toolsRef.value).None? then Err(NoToolsBase(p.toolsRef.value))
    else
      Ok(p.(system := if p.systemRef.Some? then find(p.systemRef.value).value.system else p.system,
            systemRef := None,
            messages := if p.prefix.Some?
                        then find(p.prefix.value.base).value.messages[..p.prefix.value.count] + p.messages
                        else p.messages,
            prefix := None,
            tools := if p.toolsRef.Some? then find(p.toolsRef.value).value.tools else p.tools,
            toolsRef := None))
  }

  /** The first reference that fails decides the error: the system prompt's, then
      the prefix's, then the tools'. */
  lemma FirstFailureIsReported(p: Prompt, find: Spid -> Option<Prompt>)
    ensures var r := ResolveWith(p, find);
      var noSystem := p.systemRef.Some? && find(p.systemRef.value).None?;
      var noPrefix := p.prefix.Some? && find(p.prefix.value.base).None?;
      var short := p.prefix.Some? && !noPrefix && |find(p.prefix.value.base).value.messages| < p.prefix.value.count;
      && (r.Err? && r.error.NoSystemBase? <==> noSystem)
      && (r.Err? && r.error.NoPrefixBase? <==> !noSystem && noPrefix)
      && (r.Err? && r.error.PrefixTooLong? <==> !noSystem && short)
      && (r.Err? && r.error.NoToolsBase? <==>
            !noSystem && !noPrefix && !short && p.toolsRef.Some? && find(p.toolsRef.value).None?)
      && (r.Err? ==> r.error.base == if noSystem then p.systemRef.value else if noPrefix || short
                                      then p.prefix.value.base else p.toolsRef.value)
      && (r.Err? && r.error.PrefixTooLong? ==>
            r.error.have == |find(p.prefix.value.base).value.messages| < r.error.need == p.prefix.value.count)
  {
  }

  function Lookup(snapshots: map<Spid, Prompt>): Spid -> Option<Prompt> {
    spid => if spid in snapshots then Some(snapshots[spid]) else None
  }

  /** `materialize_prompt`: fills a copy in place, one reference after the other. */
  method MaterializePrompt(p: Prompt, snapshots: map<Spid, Prompt>) returns (r: Result<Prompt, BadReference>)
    ensures r == ResolveWith(p, Lookup(snapshots))
  {
    var full := p;
    if p.systemRef.Some? {
      if p.systemRef.value !in snapshots {
        return Err(NoSystemBase(p.systemRef.value));
      }
      full := full.(system := snapshots[p.systemRef.value].system, systemRef := None);
    }
    if p.prefix.Some? {
      if p.prefix.value.base !in snapshots {
        return Err(NoPrefixBase(p.prefix.value.base));
      }
      var base := snapshots[p.prefix.value.base];
      if |base.messages| < p.prefix.value.count {
        return Err(PrefixTooLong(p.prefix.value.base, |base.messages|, p.prefix.value.count));
      }
      full := full.(messages := base.messages[..p.prefix.value.count] + p.messages, prefix := None);
    }
    if p.toolsRef.Some? {
      if p.toolsRef.value !in snapshots {
        return Err(NoToolsBase(p.toolsRef.value));
      }
      full := full.(tools := snapshots[p.toolsRef.value].tools, toolsRef := None);
    }
    return Ok(full);
  }

  /** The map after one more prompt: only prompts that materialize are kept. */
  function Remember(snapshots: map<Spid, Prompt>, p: Prompt): map<Spid, Prompt> {
    match ResolveWith(p, Lookup(snapshots))
    case Ok(full) => snapshots[p.spid := full]
    case Err(_) => snapshots
  }

  function SnapshotsAfter(history: seq<Prompt>): map<Spid, Prompt> {
    if history == [] then map[]
    else Remember(SnapshotsAfter(history[..|history| - 1]), history[|history| - 1])
  }

  // ---- Recursive unfolding --------------------------------------------------

  /** Field by field, what prompt `n` of the history means. A base is the latest
      earlier prompt of that name that has a meaning. */
  ghost predicate HasMeaning(history: seq<Prompt>, n: nat)
    requires n < |history|
    decreases n, 1
  {
    var p := history[n];
    && (p.systemRef.Some? ==> Latest(history, n, p.systemRef.value).Some?)
    && (p.toolsRef.Some? ==> Latest(history, n, p.toolsRef.value).Some?)
    && (p.prefix.Some? ==>
          && Latest(history, n, p.prefix.value.base).Some?
          && p.prefix.value.count <= |MessagesOf(history, Latest(history, n, p.prefix.value.base).value)|)
  }

  ghost function Latest(history: seq<Prompt>, n: nat, spid: Spid): (r: Option<nat>)
    requires n <= |history|
    ensures r.Some? ==> r.value < n && history[r.value].spid == spid && HasMeaning(history, r.value)
    decreases n, 0
  {
    if n == 0 then None
    else if history[n - 1].spid == spid && HasMeaning(history, n - 1) then Some(n - 1)
    else Latest(history, n - 1, spid)
  }

  ghost function SystemOf(history: seq<Prompt>, n: nat): string
    requires n < |history| && HasMeaning(history, n)
    decreases n, 2
  {
    if history[n].systemRef.None? then history[n].system
    else SystemOf(history, Latest(history, n, history[n].systemRef.value).value)
  }

  ghost function MessagesOf(history: seq<Prompt>, n: nat): seq<string>
    requires n < |history| && HasMeaning(history, n)
    decreases n, 2
  {
    match history[n].prefix
    case None => history[n].messages
    case Some(prefix) =>
      MessagesOf(history, Latest(history, n, prefix.base).value)[..prefix.count] + history[n].messages
  }

  ghost function ToolsOf(history: seq<Prompt>, n: nat): seq<string>
    requires n < |history| && HasMeaning(history, n)
    decreases n, 2
  {
    if history[n].toolsRef.None? then history[n].tools
    else ToolsOf(history, Latest(history, n, history[n].toolsRef.value).value)
  }

  /** The self-contained prompt that prompt `n` stands for. */
  ghost function Unfold(history: seq<Prompt>, n: nat): Prompt
    requires n < |history| && HasMeaning(history, n)
  {
    history[n].(system := SystemOf(history, n), systemRef := None,
                messages := MessagesOf(history, n), prefix := None,
                tools := ToolsOf(history, n), toolsRef := None)
  }

  /** The map holds exactly the meanings of the latest meaningful prompts. */
  ghost predicate MapMatches(history: seq<Prompt>, n: nat, snapshots: map<Spid, Prompt>)
    requires n <= |history|
  {
    forall spid ::
      && (spid in snapshots <==> Latest(history, n, spid).Some?)
      && (spid in snapshots ==> snapshots[spid] == Unfold(history, Latest(history, n, spid).value))
  }

  lemma ResolveIsUnfold(history: seq<Prompt>, n: nat, snapshots: map<Spid, Prompt>)
    requires n < |history| && MapMatches(history, n, snapshots)
    ensures var r := ResolveWith(history[n], Lookup(snapshots));
      && (r.Ok? <==> HasMeaning(history, n))
      && (r.Ok? ==> r.value == Unfold(history, n))
  {
    var p := history[n];
    if p.systemRef.Some? {
      assert p.systemRef.value in snapshots <==> Latest(history, n, p.systemRef.value).Some?;
    }
    if p.prefix.Some? {
      assert p.prefix.value.base in snapshots <==> Latest(history, n, p.prefix.value.base).Some?;
    }
    if p.toolsRef.Some? {
      assert p.toolsRef.value in snapshots <==> Latest(history, n, p.toolsRef.value).Some?;
    }
  }

  lemma {:induction false} FoldMatches(history: seq<Prompt>, n: nat)
    requires n <= |history|
    ensures MapMatches(history, n, SnapshotsAfter(history[..n]))
  {
    if n != 0 {
      FoldMatches(history, n - 1);
      assert history[..n][..n - 1] == history[..n - 1];
      ResolveIsUnfold(history, n - 1, SnapshotsAfter(history[..n - 1]));
    }
  }

  /** Materializing against the map is the recursive unfolding: it succeeds
      exactly when every reference leads to a meaning, and yields that meaning. */
  lemma {:induction false} MaterializeIsUnfolding(history: seq<Prompt>, p: Prompt)
    ensures var longer := history + [p];
      var r := ResolveWith(p, Lookup(SnapshotsAfter(history)));
      && (r.Ok? <==> HasMeaning(longer, |history|))
      && (r.Ok? ==> r.value == Unfold(longer, |history|))
  {
    var longer := history + [p];
    FoldMatches(longer, |history|);
    assert longer[..|history|] == history;
    ResolveIsUnfold(longer, |history|, SnapshotsAfter(history));
  }
}
