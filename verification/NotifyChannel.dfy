/**
 The coalescing notify channel: one pending bit, one disconnect flag, many
 senders, one receiver. The mutex makes each critical section one step; the
 atomic sender count is touched outside the mutex, so dropping the last sender
 takes two steps and other threads may run between them.
 */
module NotifyChannel {
  import opened Basics

  // ---- The critical sections ------------------------------------------------

  /** The mutex-guarded half of the shared state. */
  datatype Flags = Flags(notified: bool, disconnected: bool)

  datatype Reply = Got | Gone | Nothing

  function Signal(f: Flags): Flags {
    f.(notified := true)
  }

  /** One look at the flags by the receiver, common to `recv` and `try_recv`. */
  function Poll(f: Flags): (Flags, Reply) {
    if f.notified then (f.(notified := false), Got)
    else if f.disconnected then (f, Gone)
    else (f, Nothing)
  }

  /** The shared state as the source updates it; each method is one critical section. */
  class Shared {
    var notified: bool
    var disconnected: bool
    var senderCount: nat

    constructor ()
      ensures View() == Flags(false, false) && senderCount == 1
    {
      notified, disconnected, senderCount := false, false, 1;
    }

    function View(): Flags
      reads this
    {
      Flags(notified, disconnected)
    }

    method CloneSender()
      modifies this`senderCount
      ensures senderCount == old(senderCount) + 1
    {
      senderCount := senderCount + 1;
    }

    /** `fetch_sub`; tells the caller whether it dropped the last sender. */
    method ReleaseSender() returns (last: bool)
      requires 0 < senderCount
      modifies this`senderCount
      ensures senderCount == old(senderCount) - 1
      ensures last <==> senderCount == 0
    {
      last := senderCount == 1;
      senderCount := senderCount - 1;
    }

    method Disconnect()
      modifies this`disconnected
      ensures View() == old(View()).(disconnected := true)
    {
      disconnected := true;
    }

    /** Returns whether the condition variable is signalled. */
    method Notify() returns (wake: bool)
      modifies this`notified
      ensures View() == Signal(old(View()))
      ensures wake <==> !old(notified)
    {
      if notified {
        return false;
      }
      notified := true;
      wake := true;
    }

    method TryRecv() returns (reply: Reply)
      modifies this`notified
      ensures (View(), reply) == Poll(old(View()))
    {
      if notified {
        notified := false;
        return Got;
      }
      if disconnected {
        return Gone;
      }
      return Nothing;
    }
  }

  // ---- Interleavings --------------------------------------------------------

  /** Where the receiver thread is: outside `recv`, about to look at the flags
      under the lock, or asleep on the condition variable without a signal. */
  datatype Receiver = Idle | Looking | Parked

  datatype Event = Notified | Closed | Received(reply: Reply)

  /** `closing`: the last sender has decremented the count but has not taken the
      lock yet. `trace` records the visible events in the order they happen. */
  datatype State = State(
    flags: Flags, senders: nat, closing: bool, receiver: Receiver, trace: seq<Event>)

  datatype Action =
    | Clone
    | Release
    | Close
    | Notify
    | EnterRecv
    | Look
    | SpuriousWake
    | TryRecv

  const Initial := State(Flags(false, false), 1, false, Idle, [])

  predicate Enabled(s: State, a: Action) {
    match a
    case Clone => 0 < s.senders
    case Release => 0 < s.senders
    case Notify => 0 < s.senders
    case Close => s.closing
    case EnterRecv => s.receiver == Idle
    case TryRecv => s.receiver == Idle
    case Look => s.receiver == Looking
    case SpuriousWake => s.receiver == Parked
  }

  function Woken(r: Receiver): Receiver {
    if r == Parked then Looking else r
  }

  function Step(s: State, a: Action): State
    requires Enabled(s, a)
  {
    match a
    case Clone => s.(senders := s.senders + 1)
    case Release => s.(senders := s.senders - 1, closing := s.senders == 1)
    case Close =>
      s.(flags := s.flags.(disconnected := true), closing := false,
         receiver := Woken(s.receiver), trace := s.trace + [Closed])
    case Notify =>
      var receiver := if s.flags.notified then s.receiver else Woken(s.receiver);
      s.(flags := Signal(s.flags), receiver := receiver, trace := s.trace + [Notified])
    case EnterRecv => s.(receiver := Looking)
    case Look =>
      var (flags, reply) := Poll(s.flags);
      if reply == Nothing then s.(receiver := Parked)
      else s.(flags := flags, receiver := Idle, trace := s.trace + [Received(reply)])
    case SpuriousWake => s.(receiver := Looking)
    case TryRecv =>
      var (flags, reply) := Poll(s.flags);
      s.(flags := flags, trace := s.trace + [Received(reply)])
  }

  /** Runs a schedule; `None` when it asks for a step that is not enabled. */
  function Run(schedule: seq<Action>): Option<State> {
    if schedule == [] then Some(Initial) else
      match Run(schedule[..|schedule| - 1])
      case None => None
      case Some(s) =>
        var a := schedule[|schedule| - 1];
        if Enabled(s, a) then Some(Step(s, a)) else None
  }

  // ---- The channel refines an atomic bit with a disconnect flag -------------

  /** Reference: the pending bit after a trace. */
  function Bit(trace: seq<Event>): bool {
    if trace == [] then false else
      var last := trace[|trace| - 1];
      last == Notified || (last != Received(Got) && Bit(trace[..|trace| - 1]))
  }

  predicate Down(trace: seq<Event>) {
    Closed in trace
  }

  /** The reply an atomic bit would give at position `i`; a notify cannot follow
      the disconnect. */
  ghost predicate AtomicAt(trace: seq<Event>, i: nat)
    requires i < |trace|
  {
    match trace[i]
    case Received(Got) => Bit(trace[..i])
    case Received(Gone) => !Bit(trace[..i]) && Down(trace[..i])
    case Received(Nothing) => !Bit(trace[..i]) && !Down(trace[..i])
    case Notified => !Down(trace[..i])
    case Closed => !Down(trace[..i])
  }

  ghost predicate Atomic(trace: seq<Event>) {
    forall i :: 0 <= i < |trace| ==> AtomicAt(trace, i)
  }

  /** The flags are the reference's, and the count, the flags and the receiver
      fit together. */
  ghost predicate InStep(s: State) {
    && s.flags == Flags(Bit(s.trace), Down(s.trace))
    && (s.closing ==> s.senders == 0 && !s.flags.disconnected)
    && (s.senders == 0 <==> s.closing || s.flags.disconnected)
    && (s.receiver == Parked ==> !s.flags.notified && !s.flags.disconnected)
  }

  ghost predicate Inv(s: State) {
    InStep(s) && Atomic(s.trace)
  }

  lemma AtomicExtends(trace: seq<Event>, e: Event)
    requires Atomic(trace) && AtomicAt(trace + [e], |trace|)
    ensures Atomic(trace + [e])
  {
    var longer := trace + [e];
    forall i | 0 <= i < |longer|
      ensures AtomicAt(longer, i)
    {
      if i < |trace| {
        assert longer[..i] == trace[..i];
        assert AtomicAt(trace, i);
      }
    }
  }

  /** One step keeps the flags equal to the reference's, and adds at most one
      event, which is the one an atomic bit would give. */
  lemma StepIsAtomic(s: State, a: Action)
    requires InStep(s) && Enabled(s, a)
    ensures InStep(Step(s, a))
    ensures
      || Step(s, a).trace == s.trace
      || exists e :: Step(s, a).trace == s.trace + [e] && AtomicAt(s.trace + [e], |s.trace|)
  {
    var s' := Step(s, a);
    if s'.trace != s.trace {
      var e := s'.trace[|s.trace|];
      assert s'.trace[..|s.trace|] == s.trace;
      assert AtomicAt(s.trace + [e], |s.trace|);
    }
  }

  /** Every interleaving of senders, droppers and the receiver looks like an
      atomic bit with a disconnect flag: notifies between two receives coalesce,
      a pending bit wins over the disconnect, and a receiver asleep without a
      signal has nothing to see. */
  lemma {:induction false} EveryRunIsAtomic(schedule: seq<Action>)
    ensures Run(schedule).Some? ==> Inv(Run(schedule).value)
  {
    if schedule != [] {
      var shorter := schedule[..|schedule| - 1];
      EveryRunIsAtomic(shorter);
      if Run(schedule).Some? {
        var s, a := Run(shorter).value, schedule[|schedule| - 1];
        StepIsAtomic(s, a);
        if Step(s, a).trace != s.trace {
          var e :| Step(s, a).trace == s.trace + [e] && AtomicAt(s.trace + [e], |s.trace|);
          AtomicExtends(s.trace, e);
        }
      }
    }
  }

  /** The bit is set exactly when some notify came after the last successful receive. */
  lemma {:induction false} BitMeansUnseenNotify(trace: seq<Event>)
    ensures Bit(trace) <==>
      exists i :: 0 <= i < |trace| && trace[i] == Notified
               && forall j :: i < j < |trace| ==> trace[j] != Received(Got)
  {
    if trace != [] {
      var shorter := trace[..|trace| - 1];
      BitMeansUnseenNotify(shorter);
      var last := trace[|trace| - 1];
      if last == Notified {
        assert trace[|trace| - 1] == Notified;
      } else if Bit(trace) {
        var i :| 0 <= i < |shorter| && shorter[i] == Notified
              && forall j :: i < j < |shorter| ==> shorter[j] != Received(Got);
        assert trace[i] == Notified;
      }
    }
  }

  lemma {:induction false} NoBitAfterGone(trace: seq<Event>, i: nat, j: nat)
    requires Atomic(trace) && i < j <= |trace| && trace[i] == Received(Gone)
    ensures !Bit(trace[..j]) && Down(trace[..j])
    decreases j
  {
    assert AtomicAt(trace, i);
    if j == i + 1 {
      assert trace[..j][..i] == trace[..i];
      assert forall e :: e in trace[..i] ==> e in trace[..j];
    } else {
      NoBitAfterGone(trace, i, j - 1);
      assert AtomicAt(trace, j - 1);
      assert trace[..j][..j - 1] == trace[..j - 1];
      assert forall e :: e in trace[..j - 1] ==> e in trace[..j];
    }
  }

  /** Once a receive has reported the disconnect, every later one does. */
  lemma GoneIsFinal(schedule: seq<Action>, i: nat, j: nat)
    requires Run(schedule).Some?
    requires i < j < |Run(schedule).value.trace|
    requires Run(schedule).value.trace[i] == Received(Gone)
    requires Run(schedule).value.trace[j].Received?
    ensures Run(schedule).value.trace[j] == Received(Gone)
  {
    EveryRunIsAtomic(schedule);
    var trace := Run(schedule).value.trace;
    NoBitAfterGone(trace, i, j);
    assert AtomicAt(trace, j);
  }

  /** Two successful receives have a notify between them. */
  lemma ReceivesNeedNotifies(schedule: seq<Action>, i: nat, j: nat)
    requires Run(schedule).Some?
    requires i < j < |Run(schedule).value.trace|
    requires Run(schedule).value.trace[i] == Run(schedule).value.trace[j] == Received(Got)
    ensures exists n :: i < n < j && Run(schedule).value.trace[n] == Notified
  {
    hide Run, Bit, Down;
    EveryRunIsAtomic(schedule);
    var trace := Run(schedule).value.trace;
    assert AtomicAt(trace, j);
    BitMeansUnseenNotify(trace[..j]);
    var n :| 0 <= n < j && trace[..j][n] == Notified
          && forall k :: n < k < j ==> trace[..j][k] != Received(Got);
    assert trace[n] == Notified;
  }

  /** The count can read zero while the channel still answers "nothing yet": the
      last dropper has not taken the lock. */
  lemma NoSendersIsNotYetGone()
    ensures exists schedule ::
      && Run(schedule).Some?
      && Run(schedule).value.senders == 0
      && Run(schedule).value.trace == [Received(Nothing)]
  {
    assert [Release, TryRecv][..1] == [Release];
    assert Run([Release]) == Some(Initial.(senders := 0, closing := true)) by {
      assert [Release][..0] == [];
    }
    assert Run([Release, TryRecv]).Some?;
    assert Run([Release, TryRecv]).value.trace == [Received(Nothing)];
  }

  // ---- Senders and a blocked receiver ---------------------------------------

  function Count(schedule: seq<Action>, a: Action): nat {
    if schedule == [] then 0 else
      Count(schedule[..|schedule| - 1], a) + if schedule[|schedule| - 1] == a then 1 else 0
  }

  /** The channel starts with one sender; clones add one and drops take one. */
  lemma {:induction false} SendersAreCounted(schedule: seq<Action>)
    requires Run(schedule).Some?
    ensures Run(schedule).value.senders as int == 1 + Count(schedule, Clone) - Count(schedule, Release)
  {
    if schedule != [] {
      SendersAreCounted(schedule[..|schedule| - 1]);
    }
  }

  /** While there is a sender it may notify, be cloned and be dropped, whatever
      the receiver does; without one nobody notifies any more. */
  lemma SendersAreFree(s: State, a: Action)
    requires a in {Clone, Action.Notify, Release}
    ensures Enabled(s, a) <==> 0 < s.senders
  {
  }

  /** An idle receiver may look at once or start to wait, and a started wait looks
      too; the one that only looks says when there is nothing. */
  lemma ReceiverIsFree(s: State)
    requires s.receiver == Idle
    ensures Enabled(s, EnterRecv) && Enabled(s, TryRecv)
    ensures Step(s, EnterRecv) == s.(receiver := Looking) && Enabled(s.(receiver := Looking), Look)
    ensures Step(s, TryRecv).trace == s.trace +
      [Received(if s.flags.notified then Got else if s.flags.disconnected then Gone else Nothing)]
    ensures Step(s, TryRecv).receiver == Idle
  {
  }

  /** A wake-up without a reason only makes the receiver look again. */
  lemma SpuriousWakeLooks(s: State)
    ensures Enabled(s, SpuriousWake) <==> s.receiver == Parked
    ensures s.receiver == Parked ==> Step(s, SpuriousWake) == s.(receiver := Looking)
  {
  }

  /** A blocking receive never reports that nothing is there: it sleeps. */
  lemma ReceiveBlocks(s: State)
    requires InStep(s) && s.receiver == Looking
    ensures var t := Step(s, Look);
      if s.flags.notified || s.flags.disconnected then
        && t.receiver == Idle
        && t.trace == s.trace + [Received(if s.flags.notified then Got else Gone)]
      else t.receiver == Parked && t.trace == s.trace && t.flags == s.flags
  {
  }

  /** A sleeping receiver is woken by the next notify and by the end of the last
      sender, and then its own next step answers. */
  lemma SleeperIsWoken(schedule: seq<Action>, a: Action)
    requires Run(schedule).Some? && Run(schedule).value.receiver == Parked
    requires a in {Action.Notify, Close} && Enabled(Run(schedule).value, a)
    ensures var t := Step(Run(schedule).value, a);
      && t.receiver == Looking
      && Step(t, Look).receiver == Idle
      && Step(t, Look).trace == t.trace + [Received(if a == Close then Gone else Got)]
  {
    EveryRunIsAtomic(schedule);
  }

  /** The last drop leads to a close: then, and only then, one is due. */
  lemma LastDropCloses(schedule: seq<Action>)
    requires Run(schedule).Some?
    ensures var s := Run(schedule).value;
      && (Enabled(s, Release) ==>
            (Enabled(Step(s, Release), Close) <==> s.senders == 1) && Step(s, Release).trace == s.trace)
      && (Enabled(s, Close) ==> s.senders == 0 && !s.flags.disconnected && Step(s, Close).flags.disconnected)
  {
    EveryRunIsAtomic(schedule);
  }
}
