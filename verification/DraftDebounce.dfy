/**
 The draft debouncer: the input thread pushes prompt snapshots into a
 single-slot mailbox and invalidates them on submit; the debounce thread takes
 a snapshot, checks it against the mailbox, and writes it. The check and the
 write are separate steps, so the input thread can run in between.
 */
module DraftDebounce {
  import opened Basics

  /** The mailbox epoch is a `u64` that wraps. */
  const EPOCHS := 0x1_0000_0000_0000_0000

  /** One pushed draft. `id` counts pushes and `epoch` counts submits without
      wrapping; neither is visible to the program, which stores `Stamp(epoch)`. */
  datatype Draft = Draft(id: nat, epoch: nat, text: string)

  function Stamp(epoch: nat): nat {
    epoch % EPOCHS
  }

  datatype Event =
    | Pushed(draft: Draft)
    | Invalidated(epoch: nat)
    | SubmissionWritten
    | DraftWritten(draft: Draft)
    | DoneSet

  /** `Checking` and `Sending` hold the snapshot taken from the mailbox. */
  datatype Pc =
    | Waiting
    | Checking(draft: Draft)
    | Sending(draft: Draft)
    | Resting
    | Exited

  /** The loop is left from `Submitting` when the submission cannot be written. */
  datatype Input = Typing | Submitting | Left

  /** `epoch` is the true epoch; the mailbox holds `Stamp(epoch)`. */
  datatype State = State(
    pending: Option<Draft>, epoch: nat, done: bool, pc: Pc, input: Input, trace: seq<Event>)

  const Initial := State(None, 0, false, Waiting, Typing, [])

  datatype Action =
    | Push(text: string)
    | Invalidate
    | WriteSubmission
    | SetDone
    | Take
    | Check
    | Write
    | EndRest

  /** `should_send_draft_snapshot` compares the stored, wrapped epochs. */
  predicate ShouldSend(s: State, d: Draft) {
    !s.done && Stamp(s.epoch) == Stamp(d.epoch)
  }

  predicate Enabled(s: State, a: Action) {
    match a
    case Push(_) => s.input == Typing
    case Invalidate => s.input == Typing
    case WriteSubmission => s.input == Submitting
    case SetDone => s.input != Left
    case Take => s.pc == Waiting && (s.pending.Some? || s.done)
    case Check => s.pc.Checking?
    case Write => s.pc.Sending?
    case EndRest => s.pc == Resting
  }

  function Pushes(trace: seq<Event>): (r: seq<Draft>) {
    if trace == [] then [] else
      var earlier := Pushes(trace[..|trace| - 1]);
      match trace[|trace| - 1]
      case Pushed(d) => earlier + [d]
      case _ => earlier
  }

  function Written(trace: seq<Event>): (r: seq<Draft>) {
    if trace == [] then [] else
      var earlier := Written(trace[..|trace| - 1]);
      match trace[|trace| - 1]
      case DraftWritten(d) => earlier + [d]
      case _ => earlier
  }

  function Step(s: State, a: Action): State
    requires Enabled(s, a)
  {
    match a
    case Push(text) =>
      var d := Draft(|Pushes(s.trace)|, s.epoch, text);
      s.(pending := Some(d), trace := s.trace + [Pushed(d)])
    case Invalidate =>
      s.(epoch := s.epoch + 1, pending := None, input := Submitting,
         trace := s.trace + [Invalidated(s.epoch + 1)])
    case WriteSubmission => s.(input := Typing, trace := s.trace + [SubmissionWritten])
    case SetDone => s.(done := true, input := Left, trace := s.trace + [DoneSet])
    case Take =>
      (match s.pending
       case Some(d) => s.(pending := None, pc := Checking(d))
       case None => s.(pc := Exited))
    case Check => s.(pc := if ShouldSend(s, s.pc.draft) then Sending(s.pc.draft) else Resting)
    case Write => s.(pc := Resting, trace := s.trace + [DraftWritten(s.pc.draft)])
    case EndRest => s.(pc := if s.done && s.pending.None? then Exited else Waiting)
  }

  function RunFrom(s: State, schedule: seq<Action>): Option<State> {
    if schedule == [] then Some(s) else
      match RunFrom(s, schedule[..|schedule| - 1])
      case None => None
      case Some(t) =>
        var a := schedule[|schedule| - 1];
        if Enabled(t, a) then Some(Step(t, a)) else None
  }

  function Run(schedule: seq<Action>): Option<State> {
    RunFrom(Initial, schedule)
  }

  // ---- The mailbox as the source updates it ---------------------------------

  /** The mutex-guarded mailbox. Each method is one critical section, and keeps
      the fields those of the interleaved state, the epochs wrapped. */
  class DraftSlot {
    var pending: Option<(nat, string)>
    var epoch: nat
    var done: bool

    constructor ()
      ensures Stores(Initial)
    {
      pending, epoch, done := None, 0, false;
    }

    ghost predicate Stores(s: State)
      reads this
    {
      && epoch == Stamp(s.epoch) && done == s.done
      && pending == match s.pending case Some(d) => Some((Stamp(d.epoch), d.text)) case None => None
    }

    method PushDraft(text: string, ghost s: State)
      requires Stores(s) && Enabled(s, Push(text))
      modifies this`pending
      ensures Stores(Step(s, Push(text)))
    {
      pending := Some((epoch, text));
    }

    /** `wrapping_add`. */
    method InvalidateDrafts(ghost s: State)
      requires Stores(s) && Enabled(s, Action.Invalidate)
      modifies this
      ensures Stores(Step(s, Action.Invalidate))
    {
      NextStamp(s.epoch);
      epoch := if epoch + 1 == EPOCHS then 0 else epoch + 1;
      pending := None;
    }

    method Finish(ghost s: State)
      requires Stores(s) && Enabled(s, SetDone)
      modifies this`done
      ensures Stores(Step(s, SetDone))
    {
      done := true;
    }

    /** The debounce thread's wake-up: a snapshot, or none when it is to exit. */
    method TakeSnapshot(ghost s: State) returns (snapshot: Option<(nat, string)>)
      requires Stores(s) && Enabled(s, Take)
      modifies this`pending
      ensures Stores(Step(s, Take))
      ensures snapshot.None? <==> Step(s, Take).pc.Exited?
      ensures snapshot.Some? ==>
        && Step(s, Take).pc.Checking?
        && snapshot.value == (Stamp(Step(s, Take).pc.draft.epoch), Step(s, Take).pc.draft.text)
    {
      if done && pending.None? {
        return None;
      }
      snapshot := pending;
      pending := None;
    }

    method ShouldSendSnapshot(stamp: nat, ghost s: State) returns (send: bool)
      requires Stores(s) && Enabled(s, Check) && stamp == Stamp(s.pc.draft.epoch)
      ensures Stores(Step(s, Check)) && (send <==> Step(s, Check).pc.Sending?)
    {
      send := !done && epoch == stamp;
    }

    method ShouldExitAfterRest(ghost s: State) returns (exit: bool)
      requires Stores(s) && Enabled(s, EndRest)
      ensures Stores(Step(s, EndRest)) && (exit <==> Step(s, EndRest).pc.Exited?)
    {
      exit := done && pending.None?;
    }
  }

  lemma NextStamp(e: nat)
    ensures Stamp(e + 1) == if Stamp(e) + 1 == EPOCHS then 0 else Stamp(e) + 1
  {
    assert e + 1 == EPOCHS * (e / EPOCHS) + (Stamp(e) + 1);
    if Stamp(e) + 1 == EPOCHS {
      assert e + 1 == EPOCHS * (e / EPOCHS + 1);
    }
  }

  // ---- Invariant ------------------------------------------------------------

  /** Writes a draft older than epoch `e`. */
  predicate Stale(event: Event, e: nat) {
    event.DraftWritten? && event.draft.epoch < e
  }

  predicate Holds(s: State) {
    s.pc.Checking? || s.pc.Sending?
  }

  /** After each invalidation at most one older draft is written. */
  ghost predicate OneStalePerMark(trace: seq<Event>) {
    forall i, j, k :: 0 <= i < j < k < |trace| && trace[i].Invalidated? ==>
      !(Stale(trace[j], trace[i].epoch) && Stale(trace[k], trace[i].epoch))
  }

  /** Draft `d` is not older than any invalidation that a stale draft has followed. */
  ghost predicate SpentBefore(trace: seq<Event>, d: Draft) {
    forall i, j :: 0 <= i < j < |trace| && trace[i].Invalidated? && Stale(trace[j], trace[i].epoch) ==>
      trace[i].epoch <= d.epoch
  }

  ghost predicate MarksUpTo(trace: seq<Event>, epoch: nat) {
    forall i :: 0 <= i < |trace| && trace[i].Invalidated? ==> trace[i].epoch <= epoch
  }

  ghost predicate StaleBound(s: State) {
    && OneStalePerMark(s.trace)
    && (Holds(s) ==> SpentBefore(s.trace, s.pc.draft))
    && MarksUpTo(s.trace, s.epoch)
    && (s.pending.Some? ==> s.pending.value.epoch == s.epoch)
  }

  ghost predicate DoneBound(s: State) {
    && (s.done <==> DoneSet in s.trace)
    && (s.done <==> s.input == Left)
    && (forall i, j, k :: 0 <= i < j < k < |s.trace| && s.trace[i] == DoneSet ==>
          !(s.trace[j].DraftWritten? && s.trace[k].DraftWritten?))
    && (forall i, j :: 0 <= i < j < |s.trace| && s.trace[i] == DoneSet && s.trace[j].DraftWritten? ==>
          !s.pc.Sending?)
  }

  /** `w` is a subsequence of `p`: its ids increase and name the same drafts in `p`. */
  ghost predicate Subsequence(w: seq<Draft>, p: seq<Draft>) {
    && (forall k :: 0 <= k < |w| ==> w[k].id < |p| && p[w[k].id] == w[k])
    && (forall j, k :: 0 <= j < k < |w| ==> w[j].id < w[k].id)
  }

  ghost predicate Before(w: seq<Draft>, id: nat) {
    forall k :: 0 <= k < |w| ==> w[k].id < id
  }

  ghost predicate Numbered(p: seq<Draft>, epoch: nat) {
    forall k :: 0 <= k < |p| ==> p[k].id == k && p[k].epoch <= epoch
  }

  /** Written drafts, the one in hand and the pending one come in push order. */
  ghost predicate Ordered(
    p: seq<Draft>, w: seq<Draft>, held: Option<Draft>, pending: Option<Draft>, epoch: nat)
  {
    && Subsequence(w, p) && Before(w, |p|)
    && Numbered(p, epoch)
    && (held.Some? ==> held.value.id < |p| && p[held.value.id] == held.value && Before(w, held.value.id))
    && (pending.Some? ==>
          && 0 < |p| && pending.value == p[|p| - 1]
          && (held.Some? ==> held.value.id < |p| - 1)
          && Before(w, |p| - 1))
  }

  function Held(s: State): Option<Draft> {
    if Holds(s) then Some(s.pc.draft) else None
  }

  ghost predicate InOrder(s: State) {
    Ordered(Pushes(s.trace), Written(s.trace), Held(s), s.pending, s.epoch)
  }

  predicate Kept(p: seq<Draft>, epoch: nat, done: bool, pending: Option<Draft>, held: Option<Draft>, w: seq<Draft>) {
    p != [] && p[|p| - 1].epoch == epoch && !done ==> Some(p[|p| - 1]) in [pending, held] || p[|p| - 1] in w
  }

  /** The newest draft of the running epoch is waiting, in hand or written. */
  ghost predicate NewestKept(s: State) {
    Kept(Pushes(s.trace), s.epoch, s.done, s.pending, Held(s), Written(s.trace))
  }

  ghost predicate Inv(s: State) {
    StaleBound(s) && DoneBound(s) && InOrder(s) && NewestKept(s)
  }

  lemma WritingSpends(trace: seq<Event>, d: Draft)
    requires OneStalePerMark(trace) && SpentBefore(trace, d)
    ensures OneStalePerMark(trace + [DraftWritten(d)])
  {
  }

  lemma OthersSpendNothing(trace: seq<Event>, e: Event, d: Draft)
    requires !e.DraftWritten?
    ensures OneStalePerMark(trace) ==> OneStalePerMark(trace + [e])
    ensures SpentBefore(trace, d) ==> SpentBefore(trace + [e], d)
  {
  }

  lemma MarksAfter(trace: seq<Event>, e: Event, epoch: nat)
    requires MarksUpTo(trace, epoch) && (e.Invalidated? ==> e.epoch <= epoch)
    ensures MarksUpTo(trace + [e], epoch)
  {
  }

  lemma {:induction false} StepKeepsStaleBound(s: State, a: Action)
    requires StaleBound(s) && Enabled(s, a)
    ensures StaleBound(Step(s, a))
  {
    hide Pushes;
    var s' := Step(s, a);
    if s'.trace != s.trace {
      var e := s'.trace[|s.trace|];
      MarksAfter(s.trace, e, s'.epoch);
      if a == Write {
        WritingSpends(s.trace, s.pc.draft);
      } else {
        OthersSpendNothing(s.trace, e, if Holds(s) then s.pc.draft else Draft(0, 0, ""));
      }
    }
  }

  lemma StepKeepsDoneBound(s: State, a: Action)
    requires DoneBound(s) && Enabled(s, a)
    ensures DoneBound(Step(s, a))
  {
    var s' := Step(s, a);
    if a == SetDone {
      assert s'.trace[|s.trace|] == DoneSet;
    }
  }

  lemma LogsSnoc(trace: seq<Event>, e: Event)
    ensures Pushes(trace + [e]) == if e.Pushed? then Pushes(trace) + [e.draft] else Pushes(trace)
    ensures Written(trace + [e]) == if e.DraftWritten? then Written(trace) + [e.draft] else Written(trace)
  {
    assert (trace + [e])[..|trace|] == trace;
  }

  lemma LogsAfterStep(s: State, a: Action)
    requires Enabled(s, a)
    ensures Pushes(Step(s, a).trace) ==
      if a.Push? then Pushes(s.trace) + [Step(s, a).pending.value] else Pushes(s.trace)
    ensures Written(Step(s, a).trace) ==
      if a.Write? then Written(s.trace) + [s.pc.draft] else Written(s.trace)
  {
    hide Pushes, Written;
    match a
    case Push(text) => LogsSnoc(s.trace, Pushed(Draft(|Pushes(s.trace)|, s.epoch, text)));
    case Invalidate => LogsSnoc(s.trace, Invalidated(s.epoch + 1));
    case WriteSubmission => LogsSnoc(s.trace, SubmissionWritten);
    case SetDone => LogsSnoc(s.trace, DoneSet);
    case Write => LogsSnoc(s.trace, DraftWritten(s.pc.draft));
    case _ =>
  }

  lemma PushKeepsOrder(p: seq<Draft>, w: seq<Draft>, held: Option<Draft>, pending: Option<Draft>, epoch: nat, d: Draft)
    requires Ordered(p, w, held, pending, epoch) && d.id == |p| && d.epoch == epoch
    ensures Ordered(p + [d], w, held, Some(d), epoch)
  {
  }

  lemma TakeKeepsOrder(p: seq<Draft>, w: seq<Draft>, d: Draft, epoch: nat)
    requires Ordered(p, w, None, Some(d), epoch)
    ensures Ordered(p, w, Some(d), None, epoch)
  {
  }

  lemma WriteKeepsOrder(p: seq<Draft>, w: seq<Draft>, d: Draft, pending: Option<Draft>, epoch: nat)
    requires Ordered(p, w, Some(d), pending, epoch)
    ensures Ordered(p, w + [d], None, pending, epoch)
  {
  }

  lemma DroppingHeldKeepsOrder(p: seq<Draft>, w: seq<Draft>, held: Option<Draft>, pending: Option<Draft>, epoch: nat)
    requires Ordered(p, w, held, pending, epoch)
    ensures Ordered(p, w, None, pending, epoch)
  {
  }

  lemma DroppingPendingKeepsOrder(
    p: seq<Draft>, w: seq<Draft>, held: Option<Draft>, pending: Option<Draft>, epoch: nat, epoch': nat)
    requires Ordered(p, w, held, pending, epoch) && epoch <= epoch'
    ensures Ordered(p, w, held, None, epoch')
  {
  }

  lemma {:induction false} StepKeepsOrder(s: State, a: Action)
    requires InOrder(s) && Enabled(s, a)
    ensures InOrder(Step(s, a))
  {
    hide Pushes, Written, Ordered;
    LogsAfterStep(s, a);
    var p, w := Pushes(s.trace), Written(s.trace);
    match a
    case Push(text) => PushKeepsOrder(p, w, Held(s), s.pending, s.epoch, Draft(|p|, s.epoch, text));
    case Invalidate => DroppingPendingKeepsOrder(p, w, Held(s), s.pending, s.epoch, s.epoch + 1);
    case WriteSubmission =>
    case SetDone =>
    case Take =>
      if s.pending.Some? {
        TakeKeepsOrder(p, w, s.pending.value, s.epoch);
      }
    case Check => DroppingHeldKeepsOrder(p, w, Held(s), s.pending, s.epoch);
    case Write => WriteKeepsOrder(p, w, s.pc.draft, s.pending, s.epoch);
    case EndRest =>
  }

  lemma PushKeepsNewest(p: seq<Draft>, d: Draft, epoch: nat, done: bool, held: Option<Draft>, w: seq<Draft>)
    ensures Kept(p + [d], epoch, done, Some(d), held, w)
  {
  }

  lemma NewEpochKeepsNewest(
    p: seq<Draft>, epoch: nat, done: bool, pending: Option<Draft>, held: Option<Draft>, w: seq<Draft>,
    held0: Option<Draft>, pending0: Option<Draft>)
    requires Ordered(p, w, held0, pending0, epoch)
    ensures Kept(p, epoch + 1, done, pending, held, w)
  {
  }

  lemma TakeKeepsNewest(p: seq<Draft>, epoch: nat, done: bool, pending: Option<Draft>, w: seq<Draft>)
    requires Kept(p, epoch, done, pending, None, w)
    ensures Kept(p, epoch, done, None, pending, w)
  {
  }

  /** A draft that fails the check before shutdown is not of the running epoch. */
  lemma RefusalKeepsNewest(p: seq<Draft>, epoch: nat, pending: Option<Draft>, d: Draft, w: seq<Draft>)
    requires Kept(p, epoch, false, pending, Some(d), w) && d.epoch != epoch
    ensures Kept(p, epoch, false, pending, None, w)
  {
  }

  lemma WriteKeepsNewest(p: seq<Draft>, epoch: nat, done: bool, pending: Option<Draft>, d: Draft, w: seq<Draft>)
    requires Kept(p, epoch, done, pending, Some(d), w)
    ensures Kept(p, epoch, done, pending, None, w + [d])
  {
    assert (w + [d])[|w|] == d;
    assert forall x :: x in w ==> x in w + [d];
  }

  lemma StepKeepsNewest(s: State, a: Action)
    requires InOrder(s) && NewestKept(s) && Enabled(s, a)
    ensures NewestKept(Step(s, a))
  {
    hide Pushes, Written, Ordered, Kept;
    LogsAfterStep(s, a);
    var p, w := Pushes(s.trace), Written(s.trace);
    match a
    case Push(text) => PushKeepsNewest(p, Draft(|p|, s.epoch, text), s.epoch, s.done, Held(s), w);
    case Invalidate => NewEpochKeepsNewest(p, s.epoch, s.done, None, Held(s), w, Held(s), s.pending);
    case WriteSubmission =>
    case SetDone => DoneKeepsNewest(p, s.epoch, s.pending, Held(s), w);
    case Take => TakeKeepsNewest(p, s.epoch, s.done, s.pending, w);
    case Check =>
      if s.done {
        DoneKeepsNewest(p, s.epoch, s.pending, None, w);
      } else if !ShouldSend(s, s.pc.draft) {
        RefusalKeepsNewest(p, s.epoch, s.pending, s.pc.draft, w);
      }
    case Write => WriteKeepsNewest(p, s.epoch, s.done, s.pending, s.pc.draft, w);
    case EndRest =>
  }

  lemma DoneKeepsNewest(p: seq<Draft>, epoch: nat, pending: Option<Draft>, held: Option<Draft>, w: seq<Draft>)
    ensures Kept(p, epoch, true, pending, held, w)
  {
  }

  lemma {:induction false} EveryRunKeepsInv(schedule: seq<Action>)
    ensures Run(schedule).Some? ==> Inv(Run(schedule).value)
  {
    if schedule != [] {
      var shorter := schedule[..|schedule| - 1];
      EveryRunKeepsInv(shorter);
      if Run(schedule).Some? {
        var s, a := Run(shorter).value, schedule[|schedule| - 1];
        StepKeepsStaleBound(s, a);
        StepKeepsDoneBound(s, a);
        StepKeepsOrder(s, a);
        StepKeepsNewest(s, a);
      }
    }
  }

  // ---- What a schedule says of the trace ------------------------------------

  /** What the input thread does, read off the schedule alone: its drafts are
      numbered in order and dated by the submits before them. */
  function InputEvents(schedule: seq<Action>): seq<Event> {
    if schedule == [] then [] else
      var earlier := schedule[..|schedule| - 1];
      var events := InputEvents(earlier);
      match schedule[|schedule| - 1]
      case Push(text) => events + [Pushed(Draft(PushCount(earlier), Invalidations(earlier), text))]
      case Invalidate => events + [Invalidated(Invalidations(earlier) + 1)]
      case WriteSubmission => events + [SubmissionWritten]
      case SetDone => events + [DoneSet]
      case _ => events
  }

  function PushCount(schedule: seq<Action>): nat {
    if schedule == [] then 0 else
      PushCount(schedule[..|schedule| - 1]) + if schedule[|schedule| - 1].Push? then 1 else 0
  }

  /** The trace without the debounce thread's writes. */
  function InputPart(trace: seq<Event>): seq<Event> {
    if trace == [] then [] else
      var e := trace[|trace| - 1];
      InputPart(trace[..|trace| - 1]) + if e.DraftWritten? then [] else [e]
  }

  predicate ByInput(a: Action) {
    a.Push? || a.Invalidate? || a.WriteSubmission? || a.SetDone?
  }

  /** Where the input thread is: gone, between the two halves of a submit, or free. */
  function InputAfter(schedule: seq<Action>): Input {
    if schedule == [] then Typing else
      match schedule[|schedule| - 1]
      case Invalidate => Submitting
      case SetDone => Left
      case a => if ByInput(a) then Typing else InputAfter(schedule[..|schedule| - 1])
  }

  ghost predicate FollowsInput(s: State, schedule: seq<Action>) {
    && s.input == InputAfter(schedule)
    && InputPart(s.trace) == InputEvents(schedule)
    && |Pushes(s.trace)| == PushCount(schedule)
    && s.epoch == Invalidations(schedule)
    && s.done == (SetDone in schedule)
  }

  lemma InputPartSnoc(trace: seq<Event>, e: Event)
    ensures InputPart(trace + [e]) == if e.DraftWritten? then InputPart(trace) else InputPart(trace) + [e]
  {
    assert (trace + [e])[..|trace|] == trace;
  }

  lemma InputSnoc(schedule: seq<Action>, a: Action)
    ensures InputAfter(schedule + [a]) ==
      if a.Invalidate? then Submitting else if a.SetDone? then Left else if ByInput(a) then Typing
      else InputAfter(schedule)
    ensures PushCount(schedule + [a]) == PushCount(schedule) + if a.Push? then 1 else 0
    ensures InputEvents(schedule + [a]) == InputEvents(schedule) + match a
      case Push(text) => [Pushed(Draft(PushCount(schedule), Invalidations(schedule), text))]
      case Invalidate => [Invalidated(Invalidations(schedule) + 1)]
      case WriteSubmission => [SubmissionWritten]
      case SetDone => [DoneSet]
      case _ => []
  {
    assert (schedule + [a])[..|schedule|] == schedule;
  }

  lemma StepFollowsInput(s: State, schedule: seq<Action>, a: Action)
    requires FollowsInput(s, schedule) && Enabled(s, a)
    ensures FollowsInput(Step(s, a), schedule + [a])
  {
    hide Pushes, Written, InputPart, Invalidations, InputEvents, PushCount, InputAfter;
    LogsAfterStep(s, a);
    MembersSnoc(schedule, a, SetDone);
    MembersSnoc(schedule, a, Invalidate);
    InputSnoc(schedule, a);
    if Step(s, a).trace != s.trace {
      InputPartSnoc(s.trace, Step(s, a).trace[|s.trace|]);
    }
  }

  /** In every interleaving the trace tells what the input thread did, with the
      texts it pushed and in its order, and nothing else but drafts written. */
  lemma {:induction false} TraceTellsInput(schedule: seq<Action>)
    requires Run(schedule).Some?
    ensures FollowsInput(Run(schedule).value, schedule)
  {
    hide FollowsInput, Step, Enabled;
    if schedule == [] {
      NothingPushed();
    } else {
      var init, a := schedule[..|schedule| - 1], schedule[|schedule| - 1];
      TraceTellsInput(init);
      StepFollowsInput(Run(init).value, init, a);
      assert init + [a] == schedule;
    }
  }

  /** Nothing but its own last step holds the input thread up: while typing it can
      push, submit or leave, after an invalidation it can write the submission or
      leave, and once it has left it does nothing. */
  lemma InputIsFree(schedule: seq<Action>, a: Action)
    requires Run(schedule).Some? && ByInput(a)
    ensures Enabled(Run(schedule).value, a) <==>
      match InputAfter(schedule)
      case Typing => !a.WriteSubmission?
      case Submitting => a.WriteSubmission? || a.SetDone?
      case Left => false
  {
    TraceTellsInput(schedule);
  }

  lemma NothingPushed()
    ensures FollowsInput(Initial, [])
  {
  }

  // ---- The debounce thread left to itself -----------------------------------

  /** Its next step, if it is not waiting for a draft or gone. */
  function NextTurn(s: State): Option<Action> {
    match s.pc
    case Waiting => if s.pending.Some? || s.done then Some(Take) else None
    case Checking(_) => Some(Check)
    case Sending(_) => Some(Write)
    case Resting => Some(EndRest)
    case Exited => None
  }

  /** The thread makes up to `n` steps and the input thread none. */
  function Turns(s: State, n: nat): State
    decreases n
  {
    if n == 0 || NextTurn(s).None? || !Enabled(s, NextTurn(s).value) then s
    else Turns(Step(s, NextTurn(s).value), n - 1)
  }

  /** Steps until the pending draft is written, at most. */
  function ToWrite(s: State): nat {
    match s.pc
    case Checking(_) => if s.pending.Some? then 6 else 2
    case Sending(_) => if s.pending.Some? then 5 else 1
    case Resting => 4
    case _ => 3
  }

  ghost predicate ThreadLives(s: State) {
    (s.pc == Exited ==> s.done) && (s.pending.Some? ==> s.pending.value.epoch == s.epoch)
  }

  lemma {:induction false} EveryThreadLives(schedule: seq<Action>)
    ensures Run(schedule).Some? ==> ThreadLives(Run(schedule).value)
  {
    hide Pushes;
    if schedule != [] {
      EveryThreadLives(schedule[..|schedule| - 1]);
    }
  }

  /** Before shutdown the thread is there, and left alone it writes a pending
      draft within six steps, whatever it holds or is doing. */
  lemma PendingDraftIsWritten(schedule: seq<Action>) returns (n: nat)
    requires Run(schedule).Some? && !Run(schedule).value.done && Run(schedule).value.pending.Some?
    ensures Run(schedule).value.pc != Exited
    ensures n <= 6 && var s := Run(schedule).value;
      && Turns(s, n).pending.None?
      && |s.trace| < |Turns(s, n).trace|
      && Turns(s, n).trace[|Turns(s, n).trace| - 1] == DraftWritten(s.pending.value)
  {
    EveryThreadLives(schedule);
    n := DraftGetsWritten(Run(schedule).value, Run(schedule).value.pending.value);
  }

  lemma {:induction false} DraftGetsWritten(s: State, d: Draft) returns (n: nat)
    requires !s.done && s.pc != Exited && d.epoch == s.epoch
    requires s.pending == Some(d) || (s.pending.None? && Held(s) == Some(d))
    ensures n <= ToWrite(s) && Turns(s, n).pending.None?
    ensures |s.trace| < |Turns(s, n).trace| && Turns(s, n).trace[|Turns(s, n).trace| - 1] == DraftWritten(d)
    decreases ToWrite(s)
  {
    hide Pushes;
    var t := Step(s, NextTurn(s).value);
    n := 0;
    assert Turns(t, 0) == t;
    if s.pending.Some? || s.pc.Checking? {
      n := DraftGetsWritten(t, d);
    }
    n := n + 1;
  }

  function ToExit(s: State): nat {
    var left := if s.pending.Some? then 4 else 0;
    match s.pc
    case Checking(_) => 3 + left
    case Sending(_) => 2 + left
    case Resting => 1 + left
    case Waiting => if s.pending.Some? then 4 else 1
    case Exited => 0
  }

  /** After shutdown the thread, left alone, exits within seven steps. */
  lemma {:induction false} DoneThreadExits(s: State) returns (n: nat)
    requires s.done && (s.pc == Exited ==> s.pending.None?)
    ensures n <= ToExit(s) <= 7 && Turns(s, n).pc == Exited && Turns(s, n).pending.None?
    decreases ToExit(s)
  {
    hide Pushes;
    n := 0;
    if s.pc != Exited {
      n := DoneThreadExits(Step(s, NextTurn(s).value));
      n := n + 1;
    }
  }

  // ---- Results --------------------------------------------------------------

  /** In every interleaving, even across an epoch wrap-around, at most one draft
      older than a submit is written after that submit's invalidation. */
  lemma AtMostOneStaleDraft(schedule: seq<Action>, i: nat, j: nat, k: nat)
    requires Run(schedule).Some? && i < j < |Run(schedule).value.trace| && i < k < |Run(schedule).value.trace|
    requires Run(schedule).value.trace[i].Invalidated?
    requires Stale(Run(schedule).value.trace[j], Run(schedule).value.trace[i].epoch)
    requires Stale(Run(schedule).value.trace[k], Run(schedule).value.trace[i].epoch)
    ensures j == k
  {
    EveryRunKeepsInv(schedule);
  }

  /** The bound is reached: the stale draft can even follow the submission itself. */
  lemma StaleDraftAfterSubmission()
    ensures exists schedule ::
      && Run(schedule).Some?
      && var d := Draft(0, 0, "hel");
         Run(schedule).value.trace == [Pushed(d), Invalidated(1), SubmissionWritten, DraftWritten(d)]
  {
    var d := Draft(0, 0, "hel");
    var p, s := RunThen([], Initial, Push("hel"));
    p, s := RunThen(p, s, Take);
    p, s := RunThen(p, s, Check);
    p, s := RunThen(p, s, Invalidate);
    p, s := RunThen(p, s, WriteSubmission);
    p, s := RunThen(p, s, Write);
    assert Run(p).Some?
        && Run(p).value.trace == [Pushed(d), Invalidated(1), SubmissionWritten, DraftWritten(d)];
  }

  lemma RunThen(schedule: seq<Action>, s: State, a: Action) returns (longer: seq<Action>, s': State)
    requires Run(schedule) == Some(s) && Enabled(s, a)
    ensures longer == schedule + [a]
    ensures s' == Step(s, a) && Run(longer) == Some(s')
  {
    longer, s' := schedule + [a], Step(s, a);
    assert longer[..|schedule|] == schedule;
  }

  /** A draft that passes the check is of the running epoch, unless the 64-bit
      counter has gone all the way round since it was pushed. */
  lemma CheckPassesOnlyCurrent(s: State, a: Action)
    requires InOrder(s) && s.pc.Checking? && a == Check && Step(s, a).pc.Sending?
    ensures s.pc.draft.epoch == s.epoch || s.pc.draft.epoch + EPOCHS <= s.epoch
  {
    var e, n := s.pc.draft.epoch, s.epoch;
    assert e == EPOCHS * (e / EPOCHS) + e % EPOCHS;
    assert n == EPOCHS * (n / EPOCHS) + n % EPOCHS;
  }

  /** Written drafts are pushed drafts, in push order, each at most once. */
  lemma WrittenIsSubsequenceOfPushed(schedule: seq<Action>)
    requires Run(schedule).Some?
    ensures Subsequence(Written(Run(schedule).value.trace), Pushes(Run(schedule).value.trace))
  {
    EveryRunKeepsInv(schedule);
  }

  /** Until shutdown the newest draft of the running epoch is never lost. */
  lemma NewestDraftIsNeverLost(schedule: seq<Action>)
    requires Run(schedule).Some?
    ensures NewestKept(Run(schedule).value)
  {
    EveryRunKeepsInv(schedule);
  }

  /** After the shutdown flag at most one draft is written. */
  lemma AtMostOneDraftAfterDone(schedule: seq<Action>, i: nat, j: nat, k: nat)
    requires Run(schedule).Some? && i < j < |Run(schedule).value.trace| && i < k < |Run(schedule).value.trace|
    requires Run(schedule).value.trace[i] == DoneSet
    requires Run(schedule).value.trace[j].DraftWritten? && Run(schedule).value.trace[k].DraftWritten?
    ensures j == k
  {
    EveryRunKeepsInv(schedule);
  }

  // ---- Exactly when a stale draft slips through -----------------------------

  lemma {:induction false} RunJoin(s: State, pre: seq<Action>, post: seq<Action>)
    ensures RunFrom(s, pre + post) == match RunFrom(s, pre) case None => None case Some(t) => RunFrom(t, post)
  {
    hide Step, Enabled;
    if post == [] {
      assert pre + post == pre;
    } else {
      RunJoin(s, pre, post[..|post| - 1]);
      assert (pre + post)[..|pre + post| - 1] == pre + post[..|post| - 1];
    }
  }

  function Invalidations(schedule: seq<Action>): nat {
    if schedule == [] then 0 else
      Invalidations(schedule[..|schedule| - 1]) + if schedule[|schedule| - 1] == Invalidate then 1 else 0
  }

  /** The index of the first check, or the length. */
  function FirstCheck(schedule: seq<Action>): (k: nat)
    ensures k <= |schedule| && (k < |schedule| ==> schedule[k] == Check)
    ensures forall i :: 0 <= i < k ==> schedule[i] != Check
  {
    if schedule == [] || schedule[0] == Check then 0 else 1 + FirstCheck(schedule[1..])
  }

  /** The draft in hand when a submit invalidates passes a check made after
      `prefix` all the same: no shutdown by then, and the wrapped epochs agree. */
  predicate PassesAfter(s: State, prefix: seq<Action>)
    requires s.pc.Checking?
  {
    SetDone !in prefix && Stamp(s.epoch + 1 + Invalidations(prefix)) == Stamp(s.pc.draft.epoch)
  }

  predicate Passes(s: State, post: seq<Action>)
    requires s.pc.Checking?
  {
    FirstCheck(post) < |post| && PassesAfter(s, post[..FirstCheck(post)])
  }

  /** After the invalidation in state `s` the schedule `post` still writes the draft in hand. */
  predicate Escapes(s: State, post: seq<Action>) {
    match s.pc
    case Sending(_) => Write in post
    case Checking(_) => Passes(s, post) && Write in post[FirstCheck(post) + 1..]
    case _ => false
  }

  /** It is still in hand after that. */
  predicate StillHeld(s: State, post: seq<Action>) {
    match s.pc
    case Sending(_) => Write !in post
    case Checking(_) =>
      FirstCheck(post) == |post| || (Passes(s, post) && Write !in post[FirstCheck(post) + 1..])
    case _ => false
  }

  ghost predicate StaleFrom(trace: seq<Event>, from: nat, epoch: nat) {
    exists i :: from <= i < |trace| && Stale(trace[i], epoch)
  }

  /** Where the run is, `post` after the invalidation in `s`. */
  ghost predicate Follows(s: State, post: seq<Action>, t: State) {
    && t.epoch == s.epoch + 1 + Invalidations(post)
    && (t.done <==> SetDone in post)
    && |s.trace| < |t.trace|
    && (t.pending.Some? ==> s.epoch < t.pending.value.epoch)
    && (StaleFrom(t.trace, |s.trace|, s.epoch + 1) <==> Escapes(s, post))
    && Grip(s, post, t)
  }

  predicate Grip(s: State, post: seq<Action>, t: State) {
    if StillHeld(s, post) then
      Holds(t) && t.pc.draft == s.pc.draft && (t.pc.Sending? <==> s.pc.Sending? || FirstCheck(post) < |post|)
    else
      Holds(t) ==> s.epoch < t.pc.draft.epoch
  }

  lemma {:induction false} CheckSnoc(post: seq<Action>, a: Action)
    ensures FirstCheck(post + [a]) ==
      if FirstCheck(post) < |post| || a == Check then FirstCheck(post) else |post| + 1
  {
    var k, longer := FirstCheck(post), post + [a];
    var m := FirstCheck(longer);
    assert k < |post| ==> longer[k] == Check;
    assert forall i :: 0 <= i < |post| ==> longer[i] == post[i];
    assert longer[|post|] == a;
  }

  lemma MembersSnoc(post: seq<Action>, a: Action, b: Action)
    ensures b in post + [a] <==> b in post || b == a
    ensures Invalidations(post + [a]) == Invalidations(post) + if a == Invalidate then 1 else 0
  {
    assert (post + [a])[..|post|] == post;
  }

  /** What one more action does to the fate of the draft in hand: one past its check, */
  lemma SendingFateSnoc(s: State, post: seq<Action>, a: Action)
    requires s.pc.Sending?
    ensures Escapes(s, post + [a]) <==> Escapes(s, post) || a == Write
    ensures StillHeld(s, post + [a]) <==> StillHeld(s, post) && a != Write
  {
    MembersSnoc(post, a, Write);
  }

  lemma PrefixOfSnoc(post: seq<Action>, a: Action, k: nat)
    requires k <= |post|
    ensures (post + [a])[..k] == post[..k]
    ensures k < |post| ==> (post + [a])[k + 1..] == post[k + 1..] + [a]
    ensures k == |post| ==> (post + [a])[k + 1..] == []
  {
  }

  lemma {:induction false} PassesSnoc(s: State, post: seq<Action>, a: Action)
    requires s.pc.Checking? && FirstCheck(post) < |post|
    ensures FirstCheck(post + [a]) == FirstCheck(post) && (Passes(s, post + [a]) <==> Passes(s, post))
  {
    hide FirstCheck, PassesAfter;
    CheckSnoc(post, a);
    PrefixOfSnoc(post, a, FirstCheck(post));
  }

  /** one whose check has been made, */
  lemma {:induction false} CheckedFateSnoc(s: State, post: seq<Action>, a: Action)
    requires s.pc.Checking? && FirstCheck(post) < |post|
    ensures Escapes(s, post + [a]) <==> Escapes(s, post) || (Passes(s, post) && a == Write)
    ensures StillHeld(s, post + [a]) <==> StillHeld(s, post) && a != Write
  {
    hide FirstCheck, Passes;
    PassesSnoc(s, post, a);
    var k := FirstCheck(post);
    PrefixOfSnoc(post, a, k);
    MembersSnoc(post[k + 1..], a, Write);
    HeldMeansPassed(s, post);
  }

  /** and one still to be checked. */
  lemma UncheckedFateSnoc(s: State, post: seq<Action>, a: Action)
    requires s.pc.Checking? && FirstCheck(post) == |post|
    ensures !Escapes(s, post + [a]) && !Escapes(s, post) && StillHeld(s, post)
    ensures StillHeld(s, post + [a]) <==> a != Check || Passes(s, post + [a])
    ensures a == Check ==> (Passes(s, post + [a]) <==> PassesAfter(s, post))
  {
    hide FirstCheck, PassesAfter;
    CheckSnoc(post, a);
    PrefixOfSnoc(post, a, |post|);
    assert post[..|post|] == post;
  }

  lemma StaleSnoc(trace: seq<Event>, e: Event, from: nat, epoch: nat)
    requires from <= |trace|
    ensures StaleFrom(trace + [e], from, epoch) <==> StaleFrom(trace, from, epoch) || Stale(e, epoch)
  {
    if StaleFrom(trace, from, epoch) {
      var i :| from <= i < |trace| && Stale(trace[i], epoch);
      assert Stale((trace + [e])[i], epoch);
    }
    assert (trace + [e])[|trace|] == e;
  }

  lemma StaleAfterStep(t: State, a: Action, from: nat, epoch: nat)
    requires Enabled(t, a) && from <= |t.trace|
    ensures StaleFrom(Step(t, a).trace, from, epoch)
       <==> StaleFrom(t.trace, from, epoch) || (a == Write && t.pc.Sending? && t.pc.draft.epoch < epoch)
    ensures |t.trace| <= |Step(t, a).trace|
  {
    hide StaleFrom, Pushes;
    if Step(t, a).trace != t.trace {
      StaleSnoc(t.trace, Step(t, a).trace[|t.trace|], from, epoch);
    }
  }

  lemma {:induction false} GripAfterStep(s: State, post: seq<Action>, t: State, a: Action)
    requires (Holds(s) ==> s.pc.draft.epoch <= s.epoch) && Enabled(t, a)
    requires t.epoch == s.epoch + 1 + Invalidations(post) && (t.done <==> SetDone in post)
    requires (t.pending.Some? ==> s.epoch < t.pending.value.epoch) && Grip(s, post, t)
    ensures Grip(s, post + [a], Step(t, a))
    ensures Escapes(s, post + [a]) <==> Escapes(s, post) || (a == Write && t.pc.Sending? && t.pc.draft.epoch <= s.epoch)
  {
    hide Pushes, FirstCheck, Invalidations, Stamp, Passes;
    CheckSnoc(post, a);
    if s.pc.Sending? {
      SendingFateSnoc(s, post, a);
    } else if s.pc.Checking? && FirstCheck(post) < |post| {
      CheckedFateSnoc(s, post, a);
      HeldMeansPassed(s, post);
    } else if s.pc.Checking? {
      UncheckedFateSnoc(s, post, a);
    }
  }

  lemma HeldMeansPassed(s: State, post: seq<Action>)
    requires s.pc.Checking? && FirstCheck(post) < |post|
    ensures StillHeld(s, post) ==> Passes(s, post)
    ensures Passes(s, post) ==> Escapes(s, post) || StillHeld(s, post)
  {
  }

  lemma {:induction false} StepFollows(s: State, post: seq<Action>, t: State, a: Action)
    requires (Holds(s) ==> s.pc.draft.epoch <= s.epoch) && Follows(s, post, t) && Enabled(t, a)
    ensures Follows(s, post + [a], Step(t, a))
  {
    hide StaleFrom, Grip, Escapes, Pushes, Step, Enabled, Invalidations, Holds;
    GripAfterStep(s, post, t, a);
    StaleAfterStep(t, a, |s.trace|, s.epoch + 1);
    MembersSnoc(post, a, SetDone);
    MembersSnoc(post, a, Invalidate);
    CountersAfterStep(t, a);
  }

  lemma CountersAfterStep(t: State, a: Action)
    requires Enabled(t, a)
    ensures Step(t, a).epoch == t.epoch + (if a == Invalidate then 1 else 0)
    ensures Step(t, a).done <==> t.done || a == SetDone
    ensures var pending := Step(t, a).pending;
      pending == t.pending || pending.None? || pending.value.epoch == t.epoch
  {
    hide Pushes;
  }

  lemma {:induction false} RunFollows(s: State, post: seq<Action>)
    requires Enabled(s, Invalidate) && !s.done && (Holds(s) ==> s.pc.draft.epoch <= s.epoch)
    ensures RunFrom(Step(s, Invalidate), post).Some? ==>
      Follows(s, post, RunFrom(Step(s, Invalidate), post).value)
  {
    if post == [] {
      InvalidationFollows(s);
    } else {
      var init, a := post[..|post| - 1], post[|post| - 1];
      RunFollows(s, init);
      assert init + [a] == post;
      if RunFrom(Step(s, Invalidate), post).Some? {
        StepFollows(s, init, RunFrom(Step(s, Invalidate), init).value, a);
      }
    }
  }

  lemma InvalidationFollows(s: State)
    requires Enabled(s, Invalidate) && !s.done && (Holds(s) ==> s.pc.draft.epoch <= s.epoch)
    ensures Follows(s, [], Step(s, Invalidate))
  {
    assert FirstCheck([]) == 0;
  }

  /** After a submit invalidates, a draft from before it is written exactly when
      one was past its check, or passes it because the wrapped epoch has come
      round again, and the debounce thread goes on to write. */
  lemma StaleDraftEscapesIff(pre: seq<Action>, post: seq<Action>)
    requires Run(pre + [Invalidate] + post).Some?
    ensures Run(pre).Some?
    ensures var s := Run(pre).value;
      StaleFrom(Run(pre + [Invalidate] + post).value.trace, |s.trace|, s.epoch + 1) <==> Escapes(s, post)
  {
    hide StaleFrom, Escapes, Step, InOrder, NewestKept, StaleBound;
    RunJoin(Initial, pre + [Invalidate], post);
    RunJoin(Initial, pre, [Invalidate]);
    EveryRunKeepsInv(pre);
    var s := Run(pre).value;
    assert [Invalidate][..0] == [];
    assert RunFrom(s, [Invalidate]) == Some(Step(s, Invalidate));
    HeldIsNotNewer(s);
    RunFollows(s, post);
  }

  lemma HeldIsNotNewer(s: State)
    requires InOrder(s)
    ensures Holds(s) ==> s.pc.draft.epoch <= s.epoch
  {
    hide Pushes, Written;
  }

  /** Short of 2^64 submits since the draft in hand was pushed, the promise that
      none follows a submit fails exactly when that submit found the debounce
      thread between its check and its write, and the thread goes on to write. */
  lemma StaleDraftFollowsIffSending(pre: seq<Action>, post: seq<Action>)
    requires Run(pre + [Invalidate] + post).Some? && Run(pre).Some?
    requires var s := Run(pre).value;
      s.pc.Checking? ==> s.epoch + 1 + Invalidations(post) < s.pc.draft.epoch + EPOCHS
    ensures var s := Run(pre).value;
      StaleFrom(Run(pre + [Invalidate] + post).value.trace, |s.trace|, s.epoch + 1)
      <==> s.pc.Sending? && Write in post
  {
    hide StaleFrom, Run;
    StaleDraftEscapesIff(pre, post);
    var s := Run(pre).value;
    EveryRunKeepsInv(pre);
    HeldIsNotNewer(s);
    if s.pc.Checking? {
      FewerInPrefix(post, FirstCheck(post));
      StampsDiffer(s.pc.draft.epoch, s.epoch + 1 + Invalidations(post[..FirstCheck(post)]));
    }
  }

  lemma {:induction false} FewerInPrefix(schedule: seq<Action>, k: nat)
    requires k <= |schedule|
    ensures Invalidations(schedule[..k]) <= Invalidations(schedule)
  {
    if k < |schedule| {
      FewerInPrefix(schedule[..|schedule| - 1], k);
      assert schedule[..|schedule| - 1][..k] == schedule[..k];
    } else {
      assert schedule[..k] == schedule;
    }
  }

  lemma StampsDiffer(e: nat, later: nat)
    requires e < later < e + EPOCHS
    ensures Stamp(e) != Stamp(later)
  {
    assert e == EPOCHS * (e / EPOCHS) + e % EPOCHS;
    assert later == EPOCHS * (later / EPOCHS) + later % EPOCHS;
  }
}
