/**
 The redraw handshake between callers of `redraw_sync` and the redraw thread.
 Every critical section of the state mutex and of the notify channel is one
 step; callers, the redraw thread, the thread that shuts the terminal down and
 any number of other notifiers interleave freely.

 `clock` counts steps. It only dates events, so that "the snapshot was taken
 after the bump" is a statement about numbers.
 */
module Redraw {
  import opened Basics
  import Channel = NotifyChannel

  // ---- State ----------------------------------------------------------------

  /** Where one call of `redraw_sync` is: it has bumped the counter and not yet
      notified; it is about to test the counters; it sleeps on the condition
      variable; it has returned. */
  datatype Phase = Bumped | Testing | Waiting | Returned

  datatype Call = Call(target: nat, bumpedAt: nat, phase: Phase)

  /** The redraw thread's next critical section. */
  datatype Pc =
    | CheckShutdown
    | CheckSync
    | Looking
    | Asleep
    | Snapshot
    | Rendering(gen: nat, takenAt: nat)
    | Announce
    | FinalRendering(takenAt: nat)
    | FinalAnnounce
    | Exited

  /** `Term::shutdown`: the flag goes up in one step, the notify in another. */
  datatype Stopper = NotStarted | FlagSet | Joining

  /** One advance of `sync_completed`, with what stood behind it. */
  datatype Ack =
    | RenderAck(gen: nat, takenAt: nat, at: nat)
    | PauseAck(gen: nat, at: nat)
    | FinalAck(gen: nat, takenAt: nat, at: nat)

  datatype State = State(
    requested: nat,
    completed: nat,
    paused: bool,
    shutdown: bool,
    flags: Channel.Flags,
    calls: seq<Call>,
    stopper: Stopper,
    pc: Pc,
    clock: nat,
    acks: seq<Ack>)

  const Initial := State(0, 0, false, false, Channel.Flags(false, false), [], NotStarted, CheckShutdown, 0, [])

  // ---- Steps ----------------------------------------------------------------

  datatype Action =
    | Bump
    | NotifyFor(caller: nat)
    | Test(caller: nat)
    | CallerWakes(caller: nat)
    | OtherNotify
    | SetPaused(on: bool)
    | RaiseShutdown
    | NotifyShutdown
    | RedrawTurn
    | RedrawWakes

  predicate Enabled(s: State, a: Action) {
    match a
    case Bump => true
    case NotifyFor(i) => i < |s.calls| && s.calls[i].phase == Bumped
    case Test(i) => i < |s.calls| && s.calls[i].phase == Testing
    case CallerWakes(i) => i < |s.calls| && s.calls[i].phase == Waiting
    case OtherNotify => true
    case SetPaused(_) => true
    case RaiseShutdown => s.stopper == NotStarted
    case NotifyShutdown => s.stopper == FlagSet
    case RedrawTurn => s.pc != Asleep && s.pc != Exited
    case RedrawWakes => s.pc == Asleep
  }

  /** `Sender::notify`: the condition variable is signalled only when the bit was clear. */
  function Notify(s: State): State {
    s.(flags := Channel.Signal(s.flags),
       pc := if s.pc == Asleep && !s.flags.notified then Looking else s.pc)
  }

  function WakeAll(calls: seq<Call>): (r: seq<Call>)
    ensures |r| == |calls|
    ensures forall i :: 0 <= i < |calls| ==>
      r[i] == if calls[i].phase == Waiting then calls[i].(phase := Testing) else calls[i]
  {
    seq(|calls|, i requires 0 <= i < |calls| =>
      if calls[i].phase == Waiting then calls[i].(phase := Testing) else calls[i])
  }

  function Max(a: nat, b: nat): nat {
    if a < b then b else a
  }

  /** One iteration step of `redraw_loop`. */
  function RedrawStep(s: State): State
    requires Enabled(s, RedrawTurn)
  {
    match s.pc
    case CheckShutdown =>
      if s.shutdown then s.(pc := FinalRendering(s.clock)) else s.(pc := CheckSync)
    case CheckSync =>
      if s.requested <= s.completed then s.(pc := Looking) else s.(pc := Snapshot)
    case Looking =>
      var (flags, reply) := Channel.Poll(s.flags);
      (match reply
       case Got => s.(flags := flags, pc := Snapshot)
       case Gone => s.(pc := Exited)
       case Nothing => s.(pc := Asleep))
    case Snapshot =>
      if s.paused then
        s.(completed := s.requested, calls := WakeAll(s.calls), pc := CheckShutdown,
           acks := s.acks + [PauseAck(s.requested, s.clock)])
      else
        s.(pc := Rendering(s.requested, s.clock))
    case Rendering(gen, takenAt) =>
      s.(completed := Max(s.completed, gen), pc := Announce,
         acks := s.acks + [RenderAck(gen, takenAt, s.clock)])
    case Announce => s.(calls := WakeAll(s.calls), pc := CheckShutdown)
    case FinalRendering(takenAt) =>
      s.(completed := s.requested, pc := FinalAnnounce,
         acks := s.acks + [FinalAck(s.requested, takenAt, s.clock)])
    case FinalAnnounce => s.(calls := WakeAll(s.calls), pc := Exited)
  }

  function Effect(s: State, a: Action): State
    requires Enabled(s, a)
  {
    match a
    case Bump =>
      s.(requested := s.requested + 1, calls := s.calls + [Call(s.requested + 1, s.clock, Bumped)])
    case NotifyFor(i) =>
      Notify(s).(calls := s.calls[i := s.calls[i].(phase := Testing)])
    case Test(i) =>
      var phase := if s.completed < s.calls[i].target then Waiting else Returned;
      s.(calls := s.calls[i := s.calls[i].(phase := phase)])
    case CallerWakes(i) =>
      s.(calls := s.calls[i := s.calls[i].(phase := Testing)])
    case OtherNotify => Notify(s)
    case SetPaused(on) => s.(paused := on)
    case RaiseShutdown => s.(shutdown := true, stopper := FlagSet)
    case NotifyShutdown => Notify(s).(stopper := Joining)
    case RedrawTurn => RedrawStep(s)
    case RedrawWakes => s.(pc := Looking)
  }

  function Step(s: State, a: Action): State
    requires Enabled(s, a)
  {
    Effect(s, a).(clock := s.clock + 1)
  }

  function RunFrom(s: State, schedule: seq<Action>): Option<State>
    decreases |schedule|
  {
    if schedule == [] then Some(s)
    else if Enabled(s, schedule[0]) then RunFrom(Step(s, schedule[0]), schedule[1..])
    else None
  }

  ghost predicate Reachable(s: State) {
    exists schedule :: RunFrom(Initial, schedule) == Some(s)
  }

  // ---- The critical sections as the source writes them ----------------------

  /** The mutex-guarded fields of the handshake. Each method is one critical
      section, and keeps the fields those of the interleaved state. */
  class SyncState {
    var requested: nat
    var completed: nat
    var paused: bool
    var shutdown: bool

    constructor ()
      ensures Stores(Initial)
    {
      requested, completed, paused, shutdown := 0, 0, false, false;
    }

    ghost predicate Stores(s: State)
      reads this
    {
      requested == s.requested && completed == s.completed && paused == s.paused && shutdown == s.shutdown
    }

    /** The first half of `redraw_sync`. */
    method RequestSync(ghost s: State) returns (target: nat)
      requires Stores(s)
      modifies this`requested
      ensures Stores(Step(s, Bump)) && target == Step(s, Bump).calls[|s.calls|].target
    {
      requested := requested + 1;
      target := requested;
    }

    /** The condition of `wait_while`. */
    method MustWait(target: nat, ghost s: State, ghost i: nat) returns (wait: bool)
      requires Stores(s) && Enabled(s, Test(i)) && target == s.calls[i].target
      ensures Stores(Step(s, Test(i)))
      ensures Step(s, Test(i)).calls[i].phase == if wait then Waiting else Returned
    {
      wait := completed < target;
    }

    method Pause(on: bool, ghost s: State)
      requires Stores(s)
      modifies this`paused
      ensures Stores(Step(s, SetPaused(on)))
    {
      paused := on;
    }

    method Shutdown(ghost s: State)
      requires Stores(s) && Enabled(s, Action.RaiseShutdown)
      modifies this`shutdown
      ensures Stores(Step(s, Action.RaiseShutdown))
    {
      shutdown := true;
    }

    /** The two tests at the top of the redraw loop. */
    method ShouldExit(ghost s: State) returns (exit: bool)
      requires Stores(s) && s.pc == CheckShutdown
      ensures Stores(Step(s, RedrawTurn))
      ensures Step(s, RedrawTurn).pc == if exit then FinalRendering(s.clock) else CheckSync
    {
      exit := shutdown;
    }

    method ShouldReceive(ghost s: State) returns (receive: bool)
      requires Stores(s) && s.pc == CheckSync
      ensures Stores(Step(s, RedrawTurn))
      ensures Step(s, RedrawTurn).pc == if receive then Looking else Snapshot
    {
      receive := requested <= completed;
    }

    /** The generation to render, or none when a pause was acknowledged instead. */
    method TakeSnapshot(ghost s: State) returns (gen: Option<nat>)
      requires Stores(s) && s.pc == Snapshot
      modifies this`completed
      ensures Stores(Step(s, RedrawTurn))
      ensures Step(s, RedrawTurn).pc == if gen.None? then CheckShutdown else Rendering(gen.value, s.clock)
    {
      if paused {
        completed := requested;
        return None;
      }
      return Some(requested);
    }

    method CompleteRender(gen: nat, ghost s: State)
      requires Stores(s) && s.pc.Rendering? && s.pc.gen == gen
      modifies this`completed
      ensures Stores(Step(s, RedrawTurn))
    {
      completed := if completed < gen then gen else completed;
    }

    method CompleteFinal(ghost s: State)
      requires Stores(s) && s.pc.FinalRendering?
      modifies this`completed
      ensures Stores(Step(s, RedrawTurn))
    {
      completed := requested;
    }
  }

  // ---- Invariant ------------------------------------------------------------

  /** If advance `k` of `sync_completed` reaches call `i`, it came after its bump;
      if it followed a regular render, that render's snapshot did too. */
  ghost predicate InTime(s: State, k: nat, i: nat)
    requires k < |s.acks| && i < |s.calls|
  {
    s.calls[i].target <= s.acks[k].gen ==>
      && s.calls[i].bumpedAt < s.acks[k].at
      && (s.acks[k].RenderAck? ==> s.calls[i].bumpedAt < s.acks[k].takenAt)
  }

  ghost predicate SomebodyBumped(s: State) {
    exists i :: 0 <= i < |s.calls| && s.calls[i].phase == Bumped
  }

  ghost predicate CallsOk(s: State) {
    && s.completed <= s.requested == |s.calls|
    && (forall i :: 0 <= i < |s.calls| ==> s.calls[i].target == i + 1 && s.calls[i].bumpedAt < s.clock)
    && (forall i :: 0 <= i < |s.calls| && s.calls[i].phase == Returned ==> s.calls[i].target <= s.completed)
  }

  ghost predicate ThreadOk(s: State)
    requires s.requested == |s.calls|
  {
    && (s.pc.Rendering? ==>
          && s.pc.gen <= s.requested
          && s.pc.takenAt < s.clock
          && forall i :: 0 <= i < s.pc.gen ==> s.calls[i].bumpedAt < s.pc.takenAt)
    && (s.pc.FinalRendering? ==> s.pc.takenAt < s.clock)
    && (forall k :: 0 <= k < |s.acks| ==> s.acks[k].gen <= s.requested)
  }

  ghost predicate CountersOk(s: State) {
    CallsOk(s) && ThreadOk(s)
  }

  /** What is completed is what was acknowledged. */
  ghost predicate Acknowledged(s: State) {
    && (forall k :: 0 <= k < |s.acks| ==> s.acks[k].gen <= s.completed)
    && (0 < s.completed ==> exists k :: 0 <= k < |s.acks| && s.acks[k].gen == s.completed)
  }

  ghost predicate Covered(s: State) {
    && Acknowledged(s)
    && forall k, i :: 0 <= k < |s.acks| && 0 <= i < |s.calls| ==> InTime(s, k, i)
  }

  ghost predicate ThreadNotLost(s: State) {
    && (s.pc == Asleep ==> !s.flags.notified)
    && (s.pc in {Looking, Asleep} && s.completed < s.requested ==> s.flags.notified || SomebodyBumped(s))
    && (s.stopper == NotStarted <==> !s.shutdown)
    && (s.pc in {CheckSync, Looking, Asleep} && s.shutdown ==> s.flags.notified || s.stopper == FlagSet)
    && !s.flags.disconnected
  }

  ghost predicate CallersNotLost(s: State) {
    forall i :: 0 <= i < |s.calls| && s.calls[i].phase == Waiting && s.calls[i].target <= s.completed
      ==> s.pc in {Announce, FinalAnnounce}
  }

  ghost predicate NobodyOversleeps(s: State) {
    ThreadNotLost(s) && CallersNotLost(s)
  }

  ghost predicate Inv(s: State) {
    CountersOk(s) && Covered(s) && NobodyOversleeps(s)
  }

  lemma RedrawStepKeepsCounters(s: State)
    requires CountersOk(s) && Enabled(s, RedrawTurn)
    ensures CountersOk(Step(s, RedrawTurn))
  {
    var s' := Step(s, RedrawTurn);
    assert s'.requested == s.requested && s.completed <= s'.completed;
    assert |s'.calls| == |s.calls|;
    assert forall i :: 0 <= i < |s.calls| ==>
      && s'.calls[i].target == s.calls[i].target && s'.calls[i].bumpedAt == s.calls[i].bumpedAt
      && (s'.calls[i].phase == Returned ==> s.calls[i].phase == Returned);
    hide WakeAll;
  }

  lemma StepKeepsCounters(s: State, a: Action)
    requires CountersOk(s) && Enabled(s, a)
    ensures CountersOk(Step(s, a))
  {
    if a == RedrawTurn {
      RedrawStepKeepsCounters(s);
    } else {
      var s' := Step(s, a);
      assert s'.pc == s.pc || s'.pc == Looking;
      assert s'.acks == s.acks;
    }
  }

  /** Only a turn of the redraw thread acknowledges, one generation at a time. */
  lemma AcksAfterStep(s: State, a: Action)
    requires CallsOk(s) && Enabled(s, a)
    ensures
      || (Step(s, a).acks == s.acks && Step(s, a).completed == s.completed)
      || (a == RedrawTurn && |Step(s, a).acks| == |s.acks| + 1 && Step(s, a).acks[..|s.acks|] == s.acks
          && Step(s, a).completed == Max(s.completed, Step(s, a).acks[|s.acks|].gen))
  {
    hide WakeAll;
  }

  lemma StepKeepsAcknowledged(s: State, a: Action)
    requires CallsOk(s) && Acknowledged(s) && Enabled(s, a)
    ensures Acknowledged(Step(s, a))
  {
    hide Step, Enabled, CallsOk;
    AcksAfterStep(s, a);
    var s' := Step(s, a);
    if s'.acks != s.acks {
      assert s'.completed == s'.acks[|s.acks|].gen || s'.completed == s.completed;
    }
    if 0 < s.completed {
      var k :| 0 <= k < |s.acks| && s.acks[k].gen == s.completed;
      assert s'.acks[k].gen == s.completed;
    }
  }

  /** Calls are only added, and keep their target and the date of their bump. */
  lemma CallsAfterStep(s: State, a: Action)
    requires CallsOk(s) && Enabled(s, a)
    ensures |s.calls| <= |Step(s, a).calls| <= |s.calls| + 1
    ensures forall i :: 0 <= i < |s.calls| ==>
      Step(s, a).calls[i].target == s.calls[i].target && Step(s, a).calls[i].bumpedAt == s.calls[i].bumpedAt
    ensures |s.calls| < |Step(s, a).calls| ==>
      a == Bump && Step(s, a).calls[|s.calls|].target == s.requested + 1 && Step(s, a).acks == s.acks
  {
  }

  lemma NewAckInTime(s: State, a: Action, i: nat)
    requires CountersOk(s) && Enabled(s, a) && i < |s.calls| && i < |Step(s, a).calls|
    requires |s.acks| < |Step(s, a).acks|
    ensures InTime(Step(s, a), |s.acks|, i)
  {
    hide WakeAll;
  }

  lemma StepKeepsCoverage(s: State, a: Action)
    requires CountersOk(s) && Covered(s) && Enabled(s, a)
    ensures Covered(Step(s, a))
  {
    hide Acknowledged, Step, Enabled;
    StepKeepsAcknowledged(s, a);
    AcksAfterStep(s, a);
    CallsAfterStep(s, a);
    var s' := Step(s, a);
    forall k, i | 0 <= k < |s'.acks| && 0 <= i < |s'.calls|
      ensures InTime(s', k, i)
    {
      if i == |s.calls| {
        assert s'.acks[k].gen <= s.requested;
      } else if k < |s.acks| {
        assert InTime(s, k, i);
      } else {
        NewAckInTime(s, a, i);
      }
    }
  }

  lemma BumpedLasts(s: State, a: Action)
    requires Enabled(s, a) && SomebodyBumped(s)
    ensures SomebodyBumped(Step(s, a)) || exists i :: a == NotifyFor(i)
  {
    var i :| 0 <= i < |s.calls| && s.calls[i].phase == Bumped;
    if !a.NotifyFor? {
      assert Step(s, a).calls[i].phase == Bumped;
    }
  }

  lemma StepKeepsThreadAwake(s: State, a: Action)
    requires CallsOk(s) && ThreadNotLost(s) && Enabled(s, a)
    ensures ThreadNotLost(Step(s, a))
  {
    hide WakeAll;
    if SomebodyBumped(s) {
      BumpedLasts(s, a);
    }
    if a == Bump {
      assert Step(s, a).calls[|s.calls|].phase == Bumped;
    }
  }

  lemma StepKeepsCallersAwake(s: State, a: Action)
    requires CallsOk(s) && CallersNotLost(s) && Enabled(s, a)
    ensures CallersNotLost(Step(s, a))
  {
    var s' := Step(s, a);
    forall i | 0 <= i < |s'.calls| && s'.calls[i].phase == Waiting && s'.calls[i].target <= s'.completed
      ensures s'.pc in {Announce, FinalAnnounce}
    {
      assert i < |s.calls|;
    }
  }

  lemma {:induction false} RunKeepsInv(s: State, schedule: seq<Action>)
    requires Inv(s)
    ensures RunFrom(s, schedule).Some? ==> Inv(RunFrom(s, schedule).value)
    decreases |schedule|
  {
    if schedule != [] && Enabled(s, schedule[0]) {
      StepKeepsCounters(s, schedule[0]);
      StepKeepsCoverage(s, schedule[0]);
      StepKeepsThreadAwake(s, schedule[0]);
      StepKeepsCallersAwake(s, schedule[0]);
      RunKeepsInv(Step(s, schedule[0]), schedule[1..]);
    }
  }

  lemma ReachableInv(s: State)
    requires Reachable(s)
    ensures Inv(s)
  {
    var schedule :| RunFrom(Initial, schedule) == Some(s);
    RunKeepsInv(Initial, schedule);
  }

  lemma ReachableCounters(s: State)
    requires Reachable(s)
    ensures CountersOk(s) && !s.flags.disconnected
  {
    ReachableInv(s);
  }

  lemma {:induction false} RunSnoc(s: State, schedule: seq<Action>, a: Action)
    requires RunFrom(s, schedule).Some? && Enabled(RunFrom(s, schedule).value, a)
    ensures RunFrom(s, schedule + [a]) == Some(Step(RunFrom(s, schedule).value, a))
    decreases |schedule|
  {
    if schedule == [] {
      assert (schedule + [a])[1..] == [];
    } else {
      assert (schedule + [a])[1..] == schedule[1..] + [a];
      RunSnoc(Step(s, schedule[0]), schedule[1..], a);
    }
  }

  /** One more step of a run. */
  lemma Then(s: State, a: Action) returns (s': State)
    requires Reachable(s) && Enabled(s, a)
    ensures s' == Step(s, a) && Reachable(s')
  {
    s' := Step(s, a);
    var schedule :| RunFrom(Initial, schedule) == Some(s);
    RunSnoc(Initial, schedule, a);
  }

  lemma Start() returns (s: State)
    ensures s == Initial && Reachable(s)
  {
    s := Initial;
    assert RunFrom(Initial, []) == Some(Initial);
  }

  // ---- What a schedule says of the state ------------------------------------

  /** The last pause or resume of a schedule, or neither. */
  function LastSetPaused(schedule: seq<Action>): Option<bool> {
    if schedule == [] then None else
      var a := schedule[|schedule| - 1];
      if a.SetPaused? then Some(a.on) else LastSetPaused(schedule[..|schedule| - 1])
  }

  /** The terminal is paused after this schedule: the last word on it was a pause. */
  predicate PausedAfter(schedule: seq<Action>) {
    LastSetPaused(schedule) == Some(true)
  }

  function Bumps(schedule: seq<Action>): nat {
    if schedule == [] then 0 else
      Bumps(schedule[..|schedule| - 1]) + if schedule[|schedule| - 1] == Bump then 1 else 0
  }

  /** Both flags, the counter of requests and the clock can be read off the
      schedule: what was paused or resumed last, whether anybody shut down, how
      many calls were made. */
  ghost predicate Recalls(s: State, schedule: seq<Action>) {
    && s.paused == PausedAfter(schedule)
    && s.shutdown == (RaiseShutdown in schedule)
    && s.stopper ==
         (if NotifyShutdown in schedule then Joining else if RaiseShutdown in schedule then FlagSet else NotStarted)
    && s.requested == |s.calls| == Bumps(schedule)
    && s.clock == |schedule|
    && (forall i :: 0 <= i < |s.calls| ==> s.calls[i].bumpedAt < |schedule| && schedule[s.calls[i].bumpedAt] == Bump)
  }

  lemma RecallsSnoc(s: State, schedule: seq<Action>, a: Action)
    requires Recalls(s, schedule) && Enabled(s, a)
    ensures Recalls(Step(s, a), schedule + [a])
  {
    assert (schedule + [a])[..|schedule|] == schedule;
    assert forall k :: 0 <= k < |schedule| ==> (schedule + [a])[k] == schedule[k];
    var t := Step(s, a);
    assert forall b :: b in schedule + [a] <==> b in schedule || a == b;
    hide WakeAll;
    forall i | 0 <= i < |t.calls|
      ensures t.calls[i].bumpedAt < |schedule| + 1 && (schedule + [a])[t.calls[i].bumpedAt] == Bump
    {
      if i < |s.calls| {
        CallAfterStep(s, a, i);
      }
    }
  }

  lemma {:induction false} EveryRunRecalls(schedule: seq<Action>)
    requires RunFrom(Initial, schedule).Some?
    ensures Recalls(RunFrom(Initial, schedule).value, schedule)
  {
    hide Recalls, Enabled;
    if schedule == [] {
      NothingYet();
    } else {
      var init, a := schedule[..|schedule| - 1], schedule[|schedule| - 1];
      assert init + [a] == schedule;
      RunJoin(Initial, init, [a]);
      EveryRunRecalls(init);
      var s := RunFrom(Initial, init).value;
      assert [a][1..] == [];
      assert RunFrom(s, [a]) == Some(Step(s, a)) && Enabled(s, a);
      RecallsSnoc(s, init, a);
    }
  }

  lemma NothingYet()
    ensures Recalls(Initial, [])
  {
  }

  /** The redraw thread moved at step `k`, from this place. */
  ghost predicate TurnAt(schedule: seq<Action>, k: nat, pc: Pc) {
    && k < |schedule| && schedule[k] == RedrawTurn
    && RunFrom(Initial, schedule[..k]).Some? && RunFrom(Initial, schedule[..k]).value.pc == pc
  }

  /** A frame of generation `gen` began at step `k`: an unpaused snapshot that
      saw exactly the calls made before it. */
  ghost predicate FrameAt(schedule: seq<Action>, k: nat, gen: nat) {
    TurnAt(schedule, k, Snapshot) && !PausedAfter(schedule[..k]) && gen == Bumps(schedule[..k])
  }

  /** The last frame began at step `k`, after somebody shut down. */
  ghost predicate LastFrameAt(schedule: seq<Action>, k: nat) {
    TurnAt(schedule, k, CheckShutdown) && RaiseShutdown in schedule[..k]
  }

  /** An acknowledgement is what it says it is, at the steps it names. */
  ghost predicate Dated(schedule: seq<Action>, ack: Ack) {
    ack.at < |schedule| && match ack
    case RenderAck(gen, takenAt, at) => takenAt < at && FrameAt(schedule, takenAt, gen)
    case PauseAck(gen, at) =>
      TurnAt(schedule, at, Snapshot) && PausedAfter(schedule[..at]) && gen == Bumps(schedule[..at])
    case FinalAck(gen, takenAt, at) =>
      takenAt < at && LastFrameAt(schedule, takenAt) && gen == Bumps(schedule[..at])
  }

  ghost predicate AllDated(s: State, schedule: seq<Action>) {
    && (forall k :: 0 <= k < |s.acks| ==> Dated(schedule, s.acks[k]))
    && (s.pc.Rendering? ==> FrameAt(schedule, s.pc.takenAt, s.pc.gen))
    && (s.pc.FinalRendering? ==> LastFrameAt(schedule, s.pc.takenAt))
  }

  lemma DatesStay(schedule: seq<Action>, a: Action, k: nat, gen: nat, ack: Ack, pc: Pc)
    ensures TurnAt(schedule, k, pc) ==> TurnAt(schedule + [a], k, pc)
    ensures FrameAt(schedule, k, gen) ==> FrameAt(schedule + [a], k, gen)
    ensures LastFrameAt(schedule, k) ==> LastFrameAt(schedule + [a], k)
  {
    if k < |schedule| {
      assert (schedule + [a])[..k] == schedule[..k] && (schedule + [a])[k] == schedule[k];
    }
  }

  lemma AckStaysDated(schedule: seq<Action>, a: Action, ack: Ack)
    requires Dated(schedule, ack)
    ensures Dated(schedule + [a], ack)
  {
    hide TurnAt, FrameAt, LastFrameAt;
    var k := if ack.PauseAck? then ack.at else ack.takenAt;
    DatesStay(schedule, a, k, ack.gen, ack, Snapshot);
    assert (schedule + [a])[..ack.at] == schedule[..ack.at];
  }

  /** A turn of the thread is dated by the step it makes. */
  lemma TurnIsDated(s: State, schedule: seq<Action>)
    requires RunFrom(Initial, schedule) == Some(s) && Recalls(s, schedule)
    ensures var longer := schedule + [RedrawTurn];
      && TurnAt(longer, |schedule|, s.pc) && longer[..|schedule|] == schedule
      && (s.pc == Snapshot && !s.paused ==> FrameAt(longer, |schedule|, s.requested))
      && (s.pc == CheckShutdown && s.shutdown ==> LastFrameAt(longer, |schedule|))
      && (s.pc == Snapshot && s.paused ==> Dated(longer, PauseAck(s.requested, |schedule|)))
  {
    assert (schedule + [RedrawTurn])[..|schedule|] == schedule;
  }

  lemma AcksStayDated(s: State, schedule: seq<Action>, a: Action)
    requires AllDated(s, schedule)
    ensures AllDated(s, schedule + [a])
  {
    hide Dated, FrameAt, LastFrameAt;
    forall k | 0 <= k < |s.acks| ensures Dated(schedule + [a], s.acks[k]) {
      AckStaysDated(schedule, a, s.acks[k]);
    }
    if s.pc.Rendering? {
      DatesStay(schedule, a, s.pc.takenAt, s.pc.gen, PauseAck(0, 0), s.pc);
    } else if s.pc.FinalRendering? {
      DatesStay(schedule, a, s.pc.takenAt, 0, PauseAck(0, 0), s.pc);
    }
  }

  lemma OthersAcknowledgeNothing(s: State, a: Action)
    requires Enabled(s, a) && a != RedrawTurn
    ensures Step(s, a).acks == s.acks
    ensures Step(s, a).pc == s.pc || Step(s, a).pc == Looking
  {
    hide WakeAll;
  }

  lemma BegunBefore(s: State, schedule: seq<Action>)
    requires AllDated(s, schedule)
    ensures s.pc.Rendering? || s.pc.FinalRendering? ==> s.pc.takenAt < |schedule|
  {
  }

  lemma CountedAndDated(s: State, schedule: seq<Action>)
    requires Recalls(s, schedule)
    ensures s.requested == Bumps(schedule) && s.clock == |schedule|
  {
  }

  lemma TurnStaysDated(s: State, schedule: seq<Action>)
    requires RunFrom(Initial, schedule) == Some(s) && Recalls(s, schedule)
    requires AllDated(s, schedule) && AllDated(s, schedule + [RedrawTurn]) && Enabled(s, RedrawTurn)
    ensures AllDated(Step(s, RedrawTurn), schedule + [RedrawTurn])
  {
    hide RunFrom, TurnAt, FrameAt, LastFrameAt, PausedAfter, Bumps, WakeAll, Recalls;
    TurnIsDated(s, schedule);
    CountedAndDated(s, schedule);
    BegunBefore(s, schedule);
    var t, longer := Step(s, RedrawTurn), schedule + [RedrawTurn];
    assert longer[..|schedule|] == schedule;
    if |t.acks| != |s.acks| {
      assert Dated(longer, t.acks[|s.acks|]);
    }
  }

  lemma DatedSnoc(s: State, schedule: seq<Action>, a: Action)
    requires RunFrom(Initial, schedule) == Some(s) && Recalls(s, schedule) && AllDated(s, schedule) && Enabled(s, a)
    ensures AllDated(Step(s, a), schedule + [a])
  {
    AcksStayDated(s, schedule, a);
    if a == RedrawTurn {
      TurnStaysDated(s, schedule);
    } else {
      OthersAcknowledgeNothing(s, a);
      hide Step, Dated, FrameAt, LastFrameAt;
    }
  }

  /** Every acknowledgement of a run is dated truly: a rendered one by a snapshot
      of a terminal that was not paused, taken when exactly the calls it
      acknowledges had been made; a pause's by a paused terminal; a final one by
      a frame begun after the shutdown. */
  lemma {:induction false} AcksAreDated(schedule: seq<Action>)
    requires RunFrom(Initial, schedule).Some?
    ensures AllDated(RunFrom(Initial, schedule).value, schedule)
  {
    hide AllDated, Recalls, Enabled;
    if schedule == [] {
      assert AllDated(Initial, []) by { NothingDated(); }
    } else {
      var init, a := schedule[..|schedule| - 1], schedule[|schedule| - 1];
      assert init + [a] == schedule;
      RunJoin(Initial, init, [a]);
      AcksAreDated(init);
      EveryRunRecalls(init);
      var s := RunFrom(Initial, init).value;
      assert [a][1..] == [];
      assert RunFrom(s, [a]) == Some(Step(s, a)) && Enabled(s, a);
      DatedSnoc(s, init, a);
    }
  }

  lemma NothingDated()
    ensures AllDated(Initial, [])
  {
  }

  // ---- Freshness ------------------------------------------------------------

  /** Acknowledgement `k` is the first to reach call `i`: the one that lets it return. */
  ghost predicate ReleasedBy(s: State, i: nat, k: nat)
    requires i < |s.calls|
  {
    && k < |s.acks| && s.calls[i].target <= s.acks[k].gen
    && forall j :: 0 <= j < k ==> s.acks[j].gen < s.calls[i].target
  }

  /** The call was let go by a completed render whose snapshot is younger than its bump, */
  ghost predicate Fresh(s: State, i: nat)
    requires i < |s.calls|
  {
    exists k: nat :: ReleasedBy(s, i, k) && !s.acks[k].PauseAck? && s.calls[i].bumpedAt < s.acks[k].takenAt
  }

  /** by a paused terminal that rendered nothing, */
  ghost predicate Unrendered(s: State, i: nat)
    requires i < |s.calls|
  {
    exists k: nat :: ReleasedBy(s, i, k) && s.acks[k].PauseAck?
  }

  /** or by a completed render of an older snapshot. */
  ghost predicate Outdated(s: State, i: nat)
    requires i < |s.calls|
  {
    exists k: nat :: ReleasedBy(s, i, k) && !s.acks[k].PauseAck? && s.acks[k].takenAt <= s.calls[i].bumpedAt
  }

  lemma {:induction false} FirstToReach(s: State, i: nat, k: nat) returns (first: nat)
    requires i < |s.calls| && k < |s.acks| && s.calls[i].target <= s.acks[k].gen
    ensures ReleasedBy(s, i, first)
  {
    first := k;
    if j :| 0 <= j < k && s.calls[i].target <= s.acks[j].gen {
      first := FirstToReach(s, i, j);
    }
  }

  lemma WayOf(s: State, i: nat, k: nat)
    requires i < |s.calls| && ReleasedBy(s, i, k)
    ensures Unrendered(s, i) <==> s.acks[k].PauseAck?
    ensures Fresh(s, i) <==> !s.acks[k].PauseAck? && s.calls[i].bumpedAt < s.acks[k].takenAt
    ensures Outdated(s, i) <==> !s.acks[k].PauseAck? && s.acks[k].takenAt <= s.calls[i].bumpedAt
  {
    OnlyOneReleases(s, i);
  }

  /** A call that returned was let go in exactly one of the three ways. */
  lemma ReturnedInOneWay(s: State, i: nat)
    requires Reachable(s) && i < |s.calls| && s.calls[i].phase == Returned
    ensures Fresh(s, i) || Unrendered(s, i) || Outdated(s, i)
    ensures !(Fresh(s, i) && Unrendered(s, i))
    ensures !(Fresh(s, i) && Outdated(s, i))
    ensures !(Unrendered(s, i) && Outdated(s, i))
  {
    hide Fresh, Unrendered, Outdated;
    ReachableInv(s);
    var k := Release(s, i);
    WayOf(s, i, k);
  }

  lemma Release(s: State, i: nat) returns (k: nat)
    requires Reachable(s) && i < |s.calls| && s.calls[i].target <= s.completed
    ensures ReleasedBy(s, i, k) && InTime(s, k, i)
  {
    ReachableInv(s);
    var any :| 0 <= any < |s.acks| && s.acks[any].gen == s.completed;
    k := FirstToReach(s, i, any);
  }

  lemma OnlyOneReleases(s: State, i: nat)
    requires i < |s.calls|
    ensures forall k: nat, m: nat :: ReleasedBy(s, i, k) && ReleasedBy(s, i, m) ==> k == m
  {
  }

  ghost predicate OnlyRendered(s: State) {
    forall k :: 0 <= k < |s.acks| ==> s.acks[k].RenderAck?
  }

  /** If only renders acknowledged anything, a call that returned has been rendered. */
  lemma ReturnedIsFresh(s: State, i: nat)
    requires Reachable(s) && i < |s.calls| && s.calls[i].phase == Returned
    requires OnlyRendered(s)
    ensures Fresh(s, i)
  {
    ReachableInv(s);
    var k := Release(s, i);
    WayOf(s, i, k);
  }

  /** Nobody pauses or shuts the terminal down. */
  ghost predicate Quiet(schedule: seq<Action>) {
    forall a :: a in schedule ==> a != SetPaused(true) && a != RaiseShutdown
  }

  lemma {:induction false} QuietRunsOnlyRender(s: State, schedule: seq<Action>)
    requires !s.paused && !s.shutdown && !s.pc.FinalRendering? && OnlyRendered(s)
    requires Quiet(schedule)
    ensures RunFrom(s, schedule).Some? ==> OnlyRendered(RunFrom(s, schedule).value)
    decreases |schedule|
  {
    if schedule != [] && Enabled(s, schedule[0]) {
      assert schedule[0] in schedule;
      assert forall a :: a in schedule[1..] ==> a in schedule;
      QuietRunsOnlyRender(Step(s, schedule[0]), schedule[1..]);
    }
  }

  /** In every interleaving without pause or shutdown, a call that returned has
      been rendered from a snapshot younger than its bump. */
  lemma QuietReturnIsFresh(schedule: seq<Action>, i: nat)
    requires Quiet(schedule) && RunFrom(Initial, schedule).Some?
    requires i < |RunFrom(Initial, schedule).value.calls|
    requires RunFrom(Initial, schedule).value.calls[i].phase == Returned
    ensures Fresh(RunFrom(Initial, schedule).value, i)
  {
    QuietRunsOnlyRender(Initial, schedule);
    ReturnedIsFresh(RunFrom(Initial, schedule).value, i);
  }

  /** `sync_completed` never moves back, and never passes what was acknowledged;
      between renders it stays put. */
  lemma CompletedIsMonotone(s: State, a: Action)
    requires Reachable(s) && Enabled(s, a)
    ensures s.completed <= Step(s, a).completed <= Step(s, a).requested
    ensures s.completed != Step(s, a).completed ==>
      && |Step(s, a).acks| == |s.acks| + 1
      && Step(s, a).completed == Step(s, a).acks[|s.acks|].gen
  {
    ReachableInv(s);
    StepKeepsCounters(s, a);
  }

  lemma CompletedWithinNewestAck(s: State)
    requires Reachable(s) && 0 < s.completed
    ensures exists k :: 0 <= k < |s.acks| && s.completed <= s.acks[k].gen <= s.requested
  {
    ReachableInv(s);
    var k :| 0 <= k < |s.acks| && s.acks[k].gen == s.completed;
    assert s.acks[k].gen <= s.requested;
  }

  // ---- Wake-ups -------------------------------------------------------------

  /** The redraw thread does not sleep through a request: while one is open, the
      bit is set or its caller is still between the bump and the notify. The
      same holds of the shutdown flag. */
  lemma RedrawThreadNotLost(s: State)
    requires Reachable(s) && s.pc in {Looking, Asleep} && !s.flags.notified
    ensures s.completed < s.requested ==> SomebodyBumped(s)
    ensures s.shutdown ==> s.stopper == FlagSet
  {
    ReachableInv(s);
  }

  /** A caller does not sleep through its acknowledgement either. */
  lemma CallerNotLost(s: State, i: nat)
    requires Reachable(s) && i < |s.calls| && s.calls[i].phase == Waiting
    requires s.calls[i].target <= s.completed
    ensures s.pc in {Announce, FinalAnnounce}
  {
    ReachableInv(s);
  }

  /** No deadlock: while the redraw thread lives and some call is open, the
      thread or one of the callers can move. */
  lemma SomebodyCanMove(s: State, i: nat)
    requires Reachable(s) && s.pc != Exited
    requires i < |s.calls| && s.calls[i].phase != Returned
    ensures Enabled(s, RedrawTurn)
         || exists j :: 0 <= j < |s.calls| && (Enabled(s, NotifyFor(j)) || Enabled(s, Test(j)))
  {
    ReachableInv(s);
    if s.pc == Asleep {
      if s.calls[i].phase == Waiting {
        assert s.calls[i].target <= |s.calls|;
        var j :| 0 <= j < |s.calls| && s.calls[j].phase == Bumped;
        assert Enabled(s, NotifyFor(j));
      } else {
        assert Enabled(s, NotifyFor(i)) || Enabled(s, Test(i));
      }
    }
  }

  /** Anybody may call, notify, pause and resume at any time, and a wake-up without
      a reason only makes its thread look again. */
  lemma OthersAreFree(s: State, i: nat)
    ensures Enabled(s, Bump) && Enabled(s, OtherNotify) && forall on :: Enabled(s, SetPaused(on))
    ensures Enabled(s, CallerWakes(i)) ==>
      Step(s, CallerWakes(i)).calls == s.calls[i := s.calls[i].(phase := Testing)]
    ensures i < |s.calls| ==>
      match s.calls[i].phase
      case Bumped => Enabled(s, NotifyFor(i))
      case Testing => Enabled(s, Test(i))
      case Waiting => Enabled(s, CallerWakes(i))
      case Returned => !Enabled(s, NotifyFor(i)) && !Enabled(s, Test(i)) && !Enabled(s, CallerWakes(i))
    ensures Enabled(s, RedrawWakes) <==> s.pc == Asleep
    ensures s.pc == Asleep ==> Step(s, RedrawWakes).pc == Looking
  {
  }

  // ---- The redraw thread left to itself -------------------------------------

  /** The thread makes up to `n` turns and nobody else moves. */
  function Turns(s: State, n: nat): State
    decreases n
  {
    if n == 0 || !Enabled(s, RedrawTurn) then s else Turns(Step(s, RedrawTurn), n - 1)
  }

  /** The thread is neither asleep nor about to find nothing to receive. */
  predicate Up(s: State) {
    !PastLastAck(s.pc) && s.pc != Asleep && (s.pc == Looking ==> s.flags.notified)
  }

  /** Turns until everything requested is acknowledged, at most. */
  function ToServe(s: State): nat {
    match s.pc
    case Rendering(gen, _) => if gen == s.requested then 1 else 6
    case Announce => 5
    case CheckShutdown => 4
    case CheckSync => 3
    case Looking => 3
    case Snapshot => 2
    case _ => 1
  }

  lemma ServingStep(s: State)
    requires CountersOk(s) && s.completed < s.requested && Up(s) && !s.flags.disconnected
    ensures Enabled(s, RedrawTurn)
    ensures var t := Step(s, RedrawTurn);
      && t.requested == s.requested && t.completed <= t.requested
      && (t.completed < t.requested ==> Up(t) && ToServe(t) < ToServe(s))
  {
    hide WakeAll;
  }

  /** With a call open the thread acknowledges it, and all others, within six
      turns, without waiting for a notify. */
  lemma {:induction false} OpenCallIsServed(s: State) returns (n: nat)
    requires Reachable(s) && s.completed < s.requested && Up(s)
    ensures n <= ToServe(s) <= 6 && Turns(s, n).completed == Turns(s, n).requested == s.requested
    decreases ToServe(s)
  {
    hide Reachable, Step, CountersOk, Up;
    ReachableCounters(s);
    ServingStep(s);
    var t := Then(s, RedrawTurn);
    n := 0;
    assert Turns(t, 0) == t;
    if t.completed < t.requested {
      n := OpenCallIsServed(t);
    }
    n := n + 1;
  }

  /** A request that the frame under way, if any, does not cover. */
  predicate StillOpen(s: State) {
    match s.pc
    case Rendering(gen, _) => gen < s.requested
    case Snapshot => false
    case _ => s.completed < s.requested
  }

  function One(b: bool): nat {
    if b then 1 else 0
  }

  /** Frames still to be shown: the one under way, one for a pending notify, one
      for a request it does not cover. */
  function FramesLeft(s: State): nat {
    One(s.pc.Rendering? || s.pc == Snapshot) + One(s.flags.notified) + One(StillOpen(s))
  }

  /** Turns until the thread sleeps, at most. */
  function ToSleep(s: State): nat {
    var here := match s.pc
      case Snapshot => 6 case Rendering(_, _) => 5 case Announce => 4
      case CheckShutdown => 3 case CheckSync => 2 case Looking => 1 case _ => 0;
    here + 7 * One(s.flags.notified) + 7 * One(StillOpen(s))
  }

  /** Without a shutdown the thread goes to sleep, and shows no frame but those
      that were asked for: with nothing pending it shows none. */
  lemma {:induction false} ThreadSettles(s: State) returns (n: nat)
    requires Reachable(s) && !s.shutdown && !s.pc.FinalRendering? && !PastLastAck(s.pc)
    requires s.pc == Asleep ==> !s.flags.notified
    ensures n <= 20 && Turns(s, n).pc == Asleep && |Turns(s, n).acks| <= |s.acks| + FramesLeft(s)
    ensures n <= ToSleep(s)
    decreases ToSleep(s)
  {
    hide Reachable, Step, CountersOk, ToSleep, FramesLeft;
    n := 0;
    if s.pc != Asleep {
      ReachableCounters(s);
      SettlingStep(s);
      var t := Then(s, RedrawTurn);
      assert Turns(t, 0) == t;
      n := ThreadSettles(t);
      n := n + 1;
    }
    ToSleepBound(s);
  }

  lemma SettlingStep(s: State)
    requires CountersOk(s) && !s.shutdown && !s.flags.disconnected && !s.pc.FinalRendering? && !PastLastAck(s.pc)
    requires s.pc != Asleep
    ensures Enabled(s, RedrawTurn)
    ensures var t := Step(s, RedrawTurn);
      && !t.shutdown && !t.pc.FinalRendering? && !PastLastAck(t.pc) && (t.pc == Asleep ==> !t.flags.notified)
      && ToSleep(t) < ToSleep(s) && |t.acks| + FramesLeft(t) <= |s.acks| + FramesLeft(s)
  {
    hide WakeAll;
  }

  lemma ToSleepBound(s: State)
    ensures ToSleep(s) <= 20
  {
  }

  predicate Notifies(a: Action) {
    a.NotifyFor? || a.OtherNotify? || a.NotifyShutdown?
  }

  /** Turns until a snapshot that saw the pending notify is acknowledged, at most. */
  function ToShow(s: State, since: nat): nat {
    match s.pc
    case Rendering(_, takenAt) => if since <= takenAt then 1 else 7
    case Announce => 6
    case CheckShutdown => 5
    case CheckSync => 4
    case Looking => 3
    case _ => 2
  }

  /** The newest acknowledgement is of step `since` or younger. */
  predicate ShownSince(s: State, since: nat) {
    s.acks != [] && match s.acks[|s.acks| - 1]
    case RenderAck(_, takenAt, _) => since <= takenAt
    case PauseAck(_, at) => since <= at
    case FinalAck(_, takenAt, _) => since <= takenAt
  }

  /** Whoever notifies is heard: unless the last frame has begun, the thread
      acknowledges a snapshot taken after the notify within seven turns. */
  lemma NotifyIsShown(s: State, a: Action) returns (n: nat)
    requires Reachable(s) && Enabled(s, a) && Notifies(a)
    requires !PastLastAck(s.pc) && !s.pc.FinalRendering?
    ensures n <= 7 && ShownSince(Turns(Step(s, a), n), s.clock)
  {
    hide WakeAll, Reachable;
    var t := Then(s, a);
    ReachableInv(s);
    n := NotifiedIsShown(t, s.clock);
  }

  /** The notify is pending, or the snapshot that sees it is about to be taken or is being shown. */
  predicate WillShow(s: State, since: nat) {
    && Up(s)
    && (s.flags.notified || s.pc == Snapshot || (s.pc.Rendering? && since <= s.pc.takenAt) || s.pc.FinalRendering?)
    && (s.pc.FinalRendering? ==> since <= s.pc.takenAt)
  }

  lemma WillShowStep(s: State, since: nat)
    requires since <= s.clock && WillShow(s, since) && !s.flags.disconnected
    ensures var t := Step(s, RedrawTurn);
      || (ShownSince(t, since) && |s.acks| < |t.acks|)
      || (WillShow(t, since) && ToShow(t, since) < ToShow(s, since) && !(|s.acks| < |t.acks| && ShownSince(t, since)))
    ensures !PastLastAck(s.pc) && Enabled(s, RedrawTurn)
  {
    hide WakeAll;
  }

  lemma {:induction false} NotifiedIsShown(s: State, since: nat) returns (n: nat)
    requires Reachable(s) && since <= s.clock && WillShow(s, since)
    ensures n <= ToShow(s, since) <= 7 && ShownSince(Turns(s, n), since)
    decreases ToShow(s, since)
  {
    hide Reachable, ShownSince, WillShow, Step, CountersOk;
    ReachableCounters(s);
    WillShowStep(s, since);
    var t := Then(s, RedrawTurn);
    n := 0;
    assert Turns(t, 0) == t;
    if !(ShownSince(t, since) && |s.acks| < |t.acks|) {
      assert s.clock < t.clock by { ClockTicks(s); }
      n := NotifiedIsShown(t, since);
    }
    n := n + 1;
  }

  lemma ClockTicks(s: State)
    requires Enabled(s, RedrawTurn)
    ensures Step(s, RedrawTurn).clock == s.clock + 1
  {
  }

  function ToExit(pc: Pc): nat {
    match pc
    case CheckSync => 8
    case Looking => 7
    case Snapshot => 6
    case Rendering(_, _) => 5
    case Announce => 4
    case CheckShutdown => 3
    case FinalRendering(_) => 2
    case FinalAnnounce => 1
    case _ => 0
  }

  /** The thread will find the flag: it is not on its way to sleep. */
  predicate WillStop(s: State) {
    && s.shutdown && (Up(s) || s.pc == FinalAnnounce)
    && (s.pc == CheckSync ==> s.flags.notified || s.completed < s.requested)
    && (s.pc == FinalAnnounce ==> EndsWithFinal(s))
  }

  predicate EndsWithFinal(s: State) {
    s.acks != [] && s.acks[|s.acks| - 1].FinalAck?
  }

  lemma StoppingStep(s: State)
    requires CountersOk(s) && WillStop(s) && !s.flags.disconnected
    ensures Enabled(s, RedrawTurn)
    ensures var t := Step(s, RedrawTurn);
      if s.pc == FinalAnnounce then t.pc == Exited && t.acks == s.acks
      else WillStop(t) && ToExit(t.pc) < ToExit(s.pc)
  {
    hide WakeAll;
  }

  lemma LastTurn(s: State)
    requires WillStop(s) && s.pc == FinalAnnounce
    ensures EndsWithFinal(Step(s, RedrawTurn)) && Step(s, RedrawTurn).pc == Exited
  {
    hide WakeAll;
  }

  /** Shutting down ends the thread: once it will find the flag, it exits within
      eight turns, and its last acknowledgement is of a final frame. */
  lemma {:induction false} ShutdownEndsThread(s: State) returns (n: nat)
    requires Reachable(s) && WillStop(s)
    ensures n <= ToExit(s.pc) <= 8 && Turns(s, n).pc == Exited && EndsWithFinal(Turns(s, n))
    decreases ToExit(s.pc)
  {
    hide Reachable, Step, CountersOk, WillStop, Up;
    ReachableCounters(s);
    StoppingStep(s);
    var t := Then(s, RedrawTurn);
    n := 0;
    assert Turns(t, 0) == t;
    if s.pc == FinalAnnounce {
      LastTurn(s);
    } else {
      n := ShutdownEndsThread(t);
    }
    n := n + 1;
  }

  // ---- Which calls can still return -----------------------------------------

  ghost predicate ReturnsBy(s: State, schedule: seq<Action>, i: nat) {
    var t := RunFrom(s, schedule);
    t.Some? && i < |t.value.calls| && t.value.calls[i].phase == Returned
  }

  /** Some continuation of the run lets the call return. */
  ghost predicate CanReturn(s: State, i: nat) {
    exists schedule :: ReturnsBy(s, schedule, i)
  }

  /** The thread has announced its last frame, or is about to. */
  predicate PastLastAck(pc: Pc) {
    pc.FinalAnnounce? || pc.Exited?
  }

  lemma {:induction false} UnacknowledgedNeverReturns(s: State, schedule: seq<Action>, i: nat)
    requires PastLastAck(s.pc) && i < |s.calls|
    requires s.completed < s.calls[i].target && s.calls[i].phase != Returned
    ensures !ReturnsBy(s, schedule, i)
    decreases |schedule|
  {
    if schedule != [] && Enabled(s, schedule[0]) {
      UnacknowledgedNeverReturns(Step(s, schedule[0]), schedule[1..], i);
    }
  }

  lemma ReturnsAfter(s: State, a: Action, i: nat)
    requires Enabled(s, a) && CanReturn(Step(s, a), i)
    ensures CanReturn(s, i)
  {
    var schedule :| ReturnsBy(Step(s, a), schedule, i);
    assert ([a] + schedule)[1..] == schedule;
    assert ReturnsBy(s, [a] + schedule, i);
  }

  lemma ReturnedReturns(s: State, i: nat)
    requires i < |s.calls| && s.calls[i].phase == Returned
    ensures CanReturn(s, i)
  {
    assert ReturnsBy(s, [], i);
  }

  lemma AcknowledgedReturns(s: State, i: nat)
    requires i < |s.calls| && s.calls[i].target <= s.completed
    ensures CanReturn(s, i)
  {
    hide CanReturn;
    match s.calls[i].phase
    case Returned => ReturnedReturns(s, i);
    case Testing =>
      ReturnedReturns(Step(s, Test(i)), i);
      ReturnsAfter(s, Test(i), i);
    case Waiting =>
      WokenReturns(s, CallerWakes(i), i);
    case Bumped =>
      WokenReturns(s, NotifyFor(i), i);
  }

  lemma WokenReturns(s: State, a: Action, i: nat)
    requires i < |s.calls| && s.calls[i].target <= s.completed && a in [CallerWakes(i), NotifyFor(i)] && Enabled(s, a)
    ensures CanReturn(s, i)
  {
    hide CanReturn;
    var t := Step(s, a);
    ReturnedReturns(Step(t, Test(i)), i);
    ReturnsAfter(t, Test(i), i);
    ReturnsAfter(s, a, i);
  }

  /** From every other place the thread can be brought to acknowledge the call. */
  lemma FinalRenderReturns(s: State, i: nat)
    requires i < |s.calls| && s.calls[i].target <= s.requested && s.pc.FinalRendering?
    ensures CanReturn(s, i)
  {
    hide CanReturn, WakeAll;
    AcknowledgedReturns(Step(s, RedrawTurn), i);
    ReturnsAfter(s, RedrawTurn, i);
  }

  lemma SnapshotReturns(s: State, i: nat)
    requires i < |s.calls| && s.calls[i].target <= s.requested && s.pc == Snapshot
    ensures CanReturn(s, i)
  {
    hide CanReturn;
    var t := Step(s, RedrawTurn);
    if s.paused {
      AcknowledgedReturns(t, i);
    } else {
      AcknowledgedReturns(Step(t, RedrawTurn), i);
      ReturnsAfter(t, RedrawTurn, i);
    }
    ReturnsAfter(s, RedrawTurn, i);
  }

  lemma LoopTopReturns(s: State, i: nat)
    requires i < |s.calls| && s.calls[i].target <= s.requested && s.pc in {CheckShutdown, CheckSync}
    ensures CanReturn(s, i)
  {
    hide CanReturn, WakeAll;
    var t := Step(s, RedrawTurn);
    if s.calls[i].target <= s.completed {
      AcknowledgedReturns(s, i);
    } else if s.pc == CheckSync {
      SnapshotReturns(t, i);
      ReturnsAfter(s, RedrawTurn, i);
    } else if s.shutdown {
      FinalRenderReturns(t, i);
      ReturnsAfter(s, RedrawTurn, i);
    } else {
      SnapshotReturns(Step(t, RedrawTurn), i);
      ReturnsAfter(t, RedrawTurn, i);
      ReturnsAfter(s, RedrawTurn, i);
    }
  }

  lemma RenderReturns(s: State, i: nat)
    requires i < |s.calls| && s.calls[i].target <= s.requested && (s.pc.Rendering? || s.pc.Announce?)
    ensures CanReturn(s, i)
  {
    hide CanReturn;
    var t := Step(s, RedrawTurn);
    if s.pc.Announce? {
      LoopTopReturns(t, i);
    } else {
      LoopTopReturns(Step(t, RedrawTurn), i);
      ReturnsAfter(t, RedrawTurn, i);
    }
    ReturnsAfter(s, RedrawTurn, i);
  }

  lemma ReceivingReturns(s: State, i: nat)
    requires i < |s.calls| && s.calls[i].target <= s.requested && s.pc in {Looking, Asleep}
    ensures CanReturn(s, i)
  {
    hide CanReturn, WakeAll;
    if s.pc == Asleep {
      var t := Step(s, RedrawWakes);
      NotifiedReturns(t, i);
      ReturnsAfter(s, RedrawWakes, i);
    } else {
      NotifiedReturns(s, i);
    }
  }

  lemma NotifiedReturns(s: State, i: nat)
    requires i < |s.calls| && s.calls[i].target <= s.requested && s.pc == Looking
    ensures CanReturn(s, i)
  {
    hide CanReturn, WakeAll;
    var t := Step(s, OtherNotify);
    SnapshotReturns(Step(t, RedrawTurn), i);
    ReturnsAfter(t, RedrawTurn, i);
    ReturnsAfter(s, OtherNotify, i);
  }

  /** A call can still return exactly when it has been acknowledged or the
      redraw thread has not yet acknowledged for the last time. */
  lemma CanReturnIff(s: State, i: nat)
    requires Reachable(s) && i < |s.calls|
    ensures CanReturn(s, i) <==> s.calls[i].target <= s.completed || !PastLastAck(s.pc)
  {
    ReachableInv(s);
    assert s.calls[i].target <= s.requested;
    hide CanReturn, Reachable, Inv, RunFrom;
    if s.calls[i].target <= s.completed {
      AcknowledgedReturns(s, i);
    } else {
      match s.pc
      case CheckShutdown => LoopTopReturns(s, i);
      case CheckSync => LoopTopReturns(s, i);
      case Looking => ReceivingReturns(s, i);
      case Asleep => ReceivingReturns(s, i);
      case Snapshot => SnapshotReturns(s, i);
      case Rendering(_, _) => RenderReturns(s, i);
      case Announce => RenderReturns(s, i);
      case FinalRendering(_) => FinalRenderReturns(s, i);
      case FinalAnnounce => LostNeverReturns(s, i);
      case Exited => LostNeverReturns(s, i);
    }
  }

  lemma LostNeverReturns(s: State, i: nat)
    requires PastLastAck(s.pc) && i < |s.calls|
    requires s.completed < s.calls[i].target && s.calls[i].phase != Returned
    ensures !CanReturn(s, i)
  {
    forall schedule ensures !ReturnsBy(s, schedule, i) {
      UnacknowledgedNeverReturns(s, schedule, i);
    }
  }

  /** Seen from the call itself: it can return exactly when the thread had its
      last acknowledgement still to make at the bump. */
  lemma CallCanReturnIff(s: State)
    requires Reachable(s)
    ensures CanReturn(Step(s, Bump), |s.calls|) <==> !PastLastAck(s.pc)
  {
    hide CanReturn;
    ReachableInv(s);
    var t := Then(s, Bump);
    CanReturnIff(t, |s.calls|);
  }

  // ---- How a call is let go, from where the thread was at its bump ----------

  lemma {:induction false} RunJoin(s: State, pre: seq<Action>, post: seq<Action>)
    ensures RunFrom(s, pre + post) == match RunFrom(s, pre) case None => None case Some(t) => RunFrom(t, post)
    decreases |pre|
  {
    if pre == [] {
      assert pre + post == post;
    } else {
      assert (pre + post)[1..] == pre[1..] + post;
      if Enabled(s, pre[0]) {
        RunJoin(Step(s, pre[0]), pre[1..], post);
      }
    }
  }

  /** No final render older than the call's bump is under way or has reached it. */
  ghost predicate NoOldFinal(s: State, i: nat)
    requires i < |s.calls|
  {
    && (s.pc.FinalRendering? ==> s.calls[i].bumpedAt < s.pc.takenAt)
    && (forall k :: 0 <= k < |s.acks| && s.acks[k].FinalAck? && s.calls[i].target <= s.acks[k].gen ==>
          s.calls[i].bumpedAt < s.acks[k].takenAt)
  }

  /** The final render begun at `takenAt` is under way, or it has reached the call first. */
  ghost predicate OnlyOldFinal(s: State, i: nat, takenAt: nat)
    requires i < |s.calls|
  {
    || (s.pc == FinalRendering(takenAt) && forall k :: 0 <= k < |s.acks| ==> s.acks[k].gen < s.calls[i].target)
    || (exists k: nat :: ReleasedBy(s, i, k) && s.acks[k].FinalAck? && s.acks[k].takenAt == takenAt)
  }

  lemma StepKeepsNoOldFinal(s: State, a: Action, i: nat)
    requires i < |s.calls| && s.calls[i].bumpedAt < s.clock && NoOldFinal(s, i) && Enabled(s, a)
    ensures i < |Step(s, a).calls| && Step(s, a).calls[i].bumpedAt == s.calls[i].bumpedAt
    ensures Step(s, a).calls[i].target == s.calls[i].target && NoOldFinal(Step(s, a), i)
  {
    CallAfterStep(s, a, i);
    hide WakeAll;
  }

  lemma CallAfterStep(s: State, a: Action, i: nat)
    requires i < |s.calls| && Enabled(s, a)
    ensures i < |Step(s, a).calls|
    ensures Step(s, a).calls[i].target == s.calls[i].target && Step(s, a).calls[i].bumpedAt == s.calls[i].bumpedAt
  {
  }

  lemma StepKeepsOnlyOldFinal(s: State, a: Action, i: nat, takenAt: nat)
    requires i < |s.calls| && s.calls[i].target <= s.requested && OnlyOldFinal(s, i, takenAt) && Enabled(s, a)
    ensures i < |Step(s, a).calls| && Step(s, a).calls[i].target == s.calls[i].target
    ensures Step(s, a).calls[i].bumpedAt == s.calls[i].bumpedAt
    ensures s.requested <= Step(s, a).requested && OnlyOldFinal(Step(s, a), i, takenAt)
  {
    CallAfterStep(s, a, i);
    hide WakeAll;
    var t := Step(s, a);
    if k: nat :| ReleasedBy(s, i, k) && s.acks[k].FinalAck? && s.acks[k].takenAt == takenAt {
      StepKeepsRelease(s, a, i, k);
    } else if a == RedrawTurn {
      assert ReleasedBy(t, i, |s.acks|);
    }
  }

  lemma {:induction false} RunKeepsNoOldFinal(s: State, schedule: seq<Action>, i: nat)
    requires i < |s.calls| && s.calls[i].bumpedAt < s.clock && NoOldFinal(s, i)
    ensures RunFrom(s, schedule).Some? ==>
      i < |RunFrom(s, schedule).value.calls| && NoOldFinal(RunFrom(s, schedule).value, i)
    decreases |schedule|
  {
    hide NoOldFinal, Enabled;
    if schedule != [] && Enabled(s, schedule[0]) {
      StepKeepsNoOldFinal(s, schedule[0], i);
      RunKeepsNoOldFinal(Step(s, schedule[0]), schedule[1..], i);
    }
  }

  lemma {:induction false} RunKeepsOnlyOldFinal(s: State, schedule: seq<Action>, i: nat, takenAt: nat)
    requires i < |s.calls| && s.calls[i].target <= s.requested && OnlyOldFinal(s, i, takenAt)
    ensures RunFrom(s, schedule).Some? ==>
      var t := RunFrom(s, schedule).value;
      i < |t.calls| && t.calls[i].bumpedAt == s.calls[i].bumpedAt && OnlyOldFinal(t, i, takenAt)
    decreases |schedule|
  {
    hide OnlyOldFinal, Enabled;
    if schedule != [] && Enabled(s, schedule[0]) {
      StepKeepsOnlyOldFinal(s, schedule[0], i, takenAt);
      RunKeepsOnlyOldFinal(Step(s, schedule[0]), schedule[1..], i, takenAt);
    }
  }

  lemma BumpDecides(s: State, post: seq<Action>)
    requires CountersOk(s) && Covered(s) && RunFrom(Step(s, Bump), post).Some?
    ensures var t, i := RunFrom(Step(s, Bump), post).value, |s.calls|;
      && i < |t.calls|
      && (if s.pc.FinalRendering? then t.calls[i].bumpedAt == s.clock && OnlyOldFinal(t, i, s.pc.takenAt)
          else NoOldFinal(t, i))
  {
    var u := Step(s, Bump);
    if s.pc.FinalRendering? {
      assert OnlyOldFinal(u, |s.calls|, s.pc.takenAt);
      RunKeepsOnlyOldFinal(u, post, |s.calls|, s.pc.takenAt);
    } else {
      assert NoOldFinal(u, |s.calls|);
      RunKeepsNoOldFinal(u, post, |s.calls|);
    }
  }

  /** No pause acknowledges the call. */
  ghost predicate NoPauseReaches(s: State, i: nat)
    requires i < |s.calls|
  {
    forall k :: 0 <= k < |s.acks| && s.acks[k].PauseAck? ==> s.acks[k].gen < s.calls[i].target
  }

  ghost predicate Unpaused(schedule: seq<Action>) {
    forall a :: a in schedule ==> a != SetPaused(true)
  }

  lemma {:induction false} UnpausedKeepsAway(s: State, schedule: seq<Action>, i: nat)
    requires !s.paused && Unpaused(schedule) && i < |s.calls| && NoPauseReaches(s, i)
    ensures RunFrom(s, schedule).Some? ==>
      i < |RunFrom(s, schedule).value.calls| && NoPauseReaches(RunFrom(s, schedule).value, i)
    decreases |schedule|
  {
    if schedule != [] && Enabled(s, schedule[0]) {
      assert schedule[0] in schedule;
      assert forall a :: a in schedule[1..] ==> a in schedule;
      CallAfterStep(s, schedule[0], i);
      UnpausedKeepsAway(Step(s, schedule[0]), schedule[1..], i);
    }
  }

  lemma BumpsUnreached(s: State)
    requires CountersOk(s)
    ensures NoPauseReaches(Step(s, Bump), |s.calls|)
  {
  }

  /** A call made on a terminal that is not paused, never having been or having
      been resumed, and not paused again, is fresh when it returns exactly when the
      final render was not under way as it bumped the counter. */
  lemma UnpausedReturnIsFreshIff(pre: seq<Action>, post: seq<Action>)
    requires RunFrom(Initial, pre + [Bump] + post).Some?
    requires !PausedAfter(pre) && Unpaused(post)
    ensures RunFrom(Initial, pre).Some?
    ensures var s, t := RunFrom(Initial, pre).value, RunFrom(Initial, pre + [Bump] + post).value;
      var i := |s.calls|;
      i < |t.calls| && (t.calls[i].phase == Returned ==> (Fresh(t, i) <==> !s.pc.FinalRendering?))
  {
    OutdatedIff(pre, post);
    RunJoin(Initial, pre + [Bump], post);
    RunJoin(Initial, pre, [Bump]);
    var s := RunFrom(Initial, pre).value;
    assert [Bump][1..] == [];
    assert RunFrom(s, [Bump]) == Some(Step(s, Bump));
    assert Reachable(s);
    ReachableInv(s);
    EveryRunRecalls(pre);
    BumpsUnreached(s);
    hide RunFrom;
    UnpausedKeepsAway(Step(s, Bump), post, |s.calls|);
    UnreachedIsRendered(RunFrom(Initial, pre + [Bump] + post).value, |s.calls|);
  }

  lemma UnreachedIsRendered(s: State, i: nat)
    requires i < |s.calls| && NoPauseReaches(s, i)
    ensures !Unrendered(s, i)
  {
  }

  /** A call that returned was shown an older frame exactly when the final
      render was under way as it bumped the counter. Otherwise it was let go by a
      paused terminal or by a fresh frame. */
  lemma OutdatedIff(pre: seq<Action>, post: seq<Action>)
    requires RunFrom(Initial, pre + [Bump] + post).Some?
    ensures RunFrom(Initial, pre).Some?
    ensures var s, t := RunFrom(Initial, pre).value, RunFrom(Initial, pre + [Bump] + post).value;
      var i := |s.calls|;
      i < |t.calls| && (t.calls[i].phase == Returned ==>
        && (Outdated(t, i) <==> s.pc.FinalRendering?)
        && (Fresh(t, i) <==> !s.pc.FinalRendering? && !Unrendered(t, i)))
  {
    RunJoin(Initial, pre + [Bump], post);
    RunJoin(Initial, pre, [Bump]);
    var s, t := RunFrom(Initial, pre).value, RunFrom(Initial, pre + [Bump] + post).value;
    var i := |s.calls|;
    assert [Bump][1..] == [];
    assert RunFrom(s, [Bump]) == Some(Step(s, Bump));
    assert Reachable(s) && Reachable(t);
    ReachableInv(s);
    BumpDecides(s, post);
    hide RunFrom, Inv, Reachable, Outdated, Fresh, Unrendered;
    if t.calls[i].phase == Returned {
      OutdatedFrom(s, t, i);
    }
  }

  lemma OutdatedFrom(s: State, t: State, i: nat)
    requires Reachable(t) && i < |t.calls| && t.calls[i].phase == Returned
    requires s.pc.FinalRendering? ==> s.pc.takenAt <= s.clock
    requires if s.pc.FinalRendering? then t.calls[i].bumpedAt == s.clock && OnlyOldFinal(t, i, s.pc.takenAt)
             else NoOldFinal(t, i)
    ensures Outdated(t, i) <==> s.pc.FinalRendering?
    ensures Fresh(t, i) <==> !s.pc.FinalRendering? && !Unrendered(t, i)
  {
    ReachableInv(t);
    var k := Release(t, i);
    WayOf(t, i, k);
    OnlyOneReleases(t, i);
  }

  /** The step that lets the call go says whether it saw a frame: it is the
      snapshot step of a terminal whose last pause has not been resumed, or it
      ends a render. */
  lemma UnrenderedIffPaused(before: seq<Action>, a: Action, after: seq<Action>, i: nat)
    requires RunFrom(Initial, before + [a] + after).Some?
    requires RunFrom(Initial, before).Some? && Enabled(RunFrom(Initial, before).value, a)
    requires var u := RunFrom(Initial, before).value;
      i < |u.calls| && u.completed < u.calls[i].target <= Step(u, a).completed
    ensures var u, t := RunFrom(Initial, before).value, RunFrom(Initial, before + [a] + after).value;
      i < |t.calls| && (Unrendered(t, i) <==> a == RedrawTurn && u.pc == Snapshot && PausedAfter(before))
  {
    RunJoin(Initial, before + [a], after);
    RunJoin(Initial, before, [a]);
    var u := RunFrom(Initial, before).value;
    assert [a][1..] == [];
    assert RunFrom(u, [a]) == Some(Step(u, a));
    assert Reachable(u);
    ReachableInv(u);
    EveryRunRecalls(before);
    ReleasingStep(u, a, i);
    RunKeepsRelease(Step(u, a), after, i, |u.acks|);
    hide RunFrom, Inv, Reachable, Unrendered, Fresh, Outdated, ReleasedBy;
    WayOf(RunFrom(Initial, before + [a] + after).value, i, |u.acks|);
  }

  lemma ReleasingStep(u: State, a: Action, i: nat)
    requires CountersOk(u) && Covered(u) && Enabled(u, a)
    requires i < |u.calls| && u.completed < u.calls[i].target <= Step(u, a).completed
    ensures i < |Step(u, a).calls| && ReleasedBy(Step(u, a), i, |u.acks|)
    ensures Step(u, a).acks[|u.acks|].PauseAck? <==> a == RedrawTurn && u.pc == Snapshot && u.paused
  {
    AcksAfterStep(u, a);
  }

  lemma {:induction false} RunKeepsRelease(s: State, schedule: seq<Action>, i: nat, k: nat)
    requires i < |s.calls| && ReleasedBy(s, i, k)
    ensures RunFrom(s, schedule).Some? ==>
      var t := RunFrom(s, schedule).value;
      i < |t.calls| && ReleasedBy(t, i, k) && t.acks[k] == s.acks[k]
    decreases |schedule|
  {
    if schedule != [] && Enabled(s, schedule[0]) {
      StepKeepsRelease(s, schedule[0], i, k);
      hide ReleasedBy, Enabled;
      RunKeepsRelease(Step(s, schedule[0]), schedule[1..], i, k);
    }
  }

  lemma StepKeepsRelease(s: State, a: Action, i: nat, k: nat)
    requires i < |s.calls| && ReleasedBy(s, i, k) && Enabled(s, a)
    ensures i < |Step(s, a).calls| && ReleasedBy(Step(s, a), i, k) && Step(s, a).acks[k] == s.acks[k]
  {
    CallAfterStep(s, a, i);
    hide WakeAll;
  }

  /** Every call that returned has such a step. */
  lemma {:induction false} ReleaseStep(s: State, schedule: seq<Action>, i: nat) returns (n: nat)
    requires RunFrom(s, schedule).Some? && Inv(s)
    requires i < |RunFrom(s, schedule).value.calls|
    requires RunFrom(s, schedule).value.calls[i].target <= RunFrom(s, schedule).value.completed
    requires i < |s.calls| ==> s.completed < s.calls[i].target
    ensures n < |schedule| && RunFrom(s, schedule[..n]).Some?
    ensures var u := RunFrom(s, schedule[..n]).value;
      Enabled(u, schedule[n]) && i < |u.calls| && u.completed < u.calls[i].target <= Step(u, schedule[n]).completed
    decreases |schedule|
  {
    var t := Step(s, schedule[0]);
    RunKeepsInv(s, schedule[..1]);
    OneStep(s, schedule[0]);
    assert schedule[..1] == [schedule[0]];
    if i < |s.calls| && s.calls[i].target <= t.completed {
      assert schedule[..0] == [];
      n := 0;
    } else {
      hide Inv, Enabled;
      n := ReleaseStep(t, schedule[1..], i);
      n := n + 1;
      assert schedule[..n][1..] == schedule[1..][..n - 1];
    }
  }

  lemma OneStep(s: State, a: Action)
    requires Enabled(s, a) && Inv(s)
    ensures RunFrom(s, [a]) == Some(Step(s, a)) && |s.calls| <= |Step(s, a).calls|
    ensures forall i :: 0 <= i < |s.calls| ==> Step(s, a).calls[i].target == s.calls[i].target
    ensures |s.calls| < |Step(s, a).calls| ==> Step(s, a).completed < Step(s, a).calls[|s.calls|].target
    ensures |Step(s, a).calls| <= |s.calls| + 1
  {
    assert [a][1..] == [];
  }

  // ---- The two exceptions are real ------------------------------------------

  lemma SoleAck(s: State)
    requires |s.calls| == |s.acks| == 1 && s.calls[0].target <= s.acks[0].gen
    ensures ReleasedBy(s, 0, 0)
  {
  }

  /** A paused terminal acknowledges a call that nothing rendered. */
  lemma PauseReturnsUnrendered() returns (s: State)
    ensures Reachable(s)
    ensures |s.calls| == 1 && s.calls[0].phase == Returned && !s.shutdown
    ensures Unrendered(s, 0)
  {
    hide Reachable, RunFrom, Fresh, Unrendered, Outdated, ReleasedBy;
    s := Start();
    s := Then(s, SetPaused(true));
    s := Then(s, Bump);
    s := Then(s, NotifyFor(0));
    s := Then(s, RedrawTurn);
    s := Then(s, RedrawTurn);
    s := Then(s, RedrawTurn);
    s := Then(s, Test(0));
    assert s.acks == [PauseAck(1, 5)];
    SoleAck(s);
    WayOf(s, 0, 0);
  }

  /** At shutdown a call that bumps while the last frame is being written is
      acknowledged by that older frame. */
  lemma ShutdownReturnsStale() returns (s: State)
    ensures Reachable(s)
    ensures |s.calls| == 1 && s.calls[0].phase == Returned && !s.paused
    ensures Outdated(s, 0)
  {
    hide Reachable, RunFrom, Fresh, Unrendered, Outdated, ReleasedBy;
    s := Start();
    s := Then(s, RaiseShutdown);
    s := Then(s, RedrawTurn);
    s := Then(s, Bump);
    s := Then(s, RedrawTurn);
    s := Then(s, NotifyFor(0));
    s := Then(s, Test(0));
    assert s.acks == [FinalAck(1, 1, 3)];
    SoleAck(s);
    WayOf(s, 0, 0);
  }

  /** A call made after the thread has gone is stuck in `wait_while`. */
  lemma CallAfterShutdownIsStuck() returns (s: State)
    ensures Reachable(s)
    ensures s.pc == Exited && |s.calls| == 1 && s.calls[0].phase == Waiting
    ensures s.completed < s.calls[0].target
  {
    hide Reachable, RunFrom;
    s := Start();
    s := Then(s, RaiseShutdown);
    s := Then(s, RedrawTurn);
    s := Then(s, RedrawTurn);
    s := Then(s, RedrawTurn);
    s := Then(s, Bump);
    s := Then(s, NotifyFor(0));
    s := Then(s, Test(0));
  }
}
