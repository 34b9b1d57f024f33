/**
 The agent's event loop and the backoff loop nested inside it. Both read the
 same channel: the backoff loop parks what it reads in a deferred queue, except
 bare cancels for other prompts, which it turns into entries of a cancel set.

 A run is over a finite arrival sequence and an arbitrary environment: how each
 backend call ends, how many frames arrive before each backoff deadline, and
 which prompts have a backend. Writes succeed.
 */
module AgentLoop {
  import opened Basics
  import opened PromptSnapshots

  datatype Event =
    | PromptCreated(prompt: Prompt)
    | CancelPrompt(target: Option<Spid>)
    | OtherEvent

  /** A log envelope holds an event, never a message, so a disconnect is always bare. */
  datatype Frame =
    | Bare(event: Event)
    | Logged(id: nat, event: Event)
    | Disconnect
    | OtherMessage

  /** The frames the agent writes, progress updates aside. */
  datatype Output =
    | Submitted(spid: Spid)
    | Finished(spid: Spid)
    | Ack(id: nat)

  /** How one backend call ends; `Fail` says whether the error is worth a retry. */
  datatype Attempt = Success | Fail(retryable: bool)

  /** The environment, indexed by how often it was asked. `patience(n)` is the
      number of frames that arrive before the deadline of the `n`-th backoff. */
  datatype World = World(attempt: nat -> Attempt, patience: nat -> nat, hasBackend: nat -> bool)

  datatype Asked = Asked(attempts: nat, backoffs: nat, resolutions: nat)

  /** What became of an arrived frame: handed to the main loop sooner or later,
      or consumed by the backoff of the named prompt. */
  datatype Fate = Kept | Consumed(inFlight: Spid)

  /** What the backoff loop shares with the main loop, and the fate of every
      frame taken off the channel. */
  datatype Queues = Queues(
    deferred: seq<Frame>, channel: seq<Frame>, canceled: set<Spid>, fates: seq<Fate>)

  /** `calls` lists the prompts of the backend calls made, in order. */
  datatype Loop = Loop(
    q: Queues,
    snapshots: map<Spid, Prompt>,
    out: seq<Output>,
    calls: seq<Spid>,
    processed: seq<Frame>,
    asked: Asked)

  const MAX_RETRIES := 8
  const MAX_RETRIES_EXTENSION := 2

  function MaxRetries(p: Prompt): nat {
    if p.fromExtension then MAX_RETRIES_EXTENSION else MAX_RETRIES
  }

  function EventOf(f: Frame): Option<Event> {
    match f
    case Bare(e) => Some(e)
    case Logged(_, e) => Some(e)
    case _ => None
  }

  function PromptOf(f: Frame): Option<Prompt> {
    match EventOf(f)
    case Some(PromptCreated(p)) => Some(p)
    case _ => None
  }

  // ---- The backoff loop -----------------------------------------------------

  /** Only a bare broadcast cancel, a bare cancel for the prompt in flight and a
      disconnect end a backoff; the same events inside an envelope do not. */
  predicate Aborts(f: Frame, inFlight: Spid) {
    f == Disconnect || f == Bare(CancelPrompt(None)) || f == Bare(CancelPrompt(Some(inFlight)))
  }

  predicate CancelsOther(f: Frame, inFlight: Spid) {
    f.Bare? && f.event.CancelPrompt? && f.event.target.Some? && f.event.target.value != inFlight
  }

  /** One frame read during a backoff. */
  function Park(q: Queues, inFlight: Spid): Queues
    requires q.channel != []
  {
    var f := q.channel[0];
    if CancelsOther(f, inFlight) then
      Queues(q.deferred, q.channel[1..], q.canceled + {f.event.target.value}, q.fates + [Consumed(inFlight)])
    else
      Queues(q.deferred + [f], q.channel[1..], q.canceled, q.fates + [Kept])
  }

  /** Backoff with `patience` frames to come before the deadline. A closed
      channel aborts it. */
  function Sleep(q: Queues, patience: nat, inFlight: Spid): (Queues, bool)
    decreases patience
  {
    if patience == 0 then (q, false)
    else if q.channel == [] then (q, true)
    else if Aborts(q.channel[0], inFlight) then (Park(q, inFlight), true)
    else Sleep(Park(q, inFlight), patience - 1, inFlight)
  }

  /** How a prompt's backend calls ended. */
  datatype RetryEnd = Succeeded | Rejected | Exhausted | Interrupted

  datatype Retried = Retried(q: Queues, asked: Asked, end: RetryEnd)

  function Retry(w: World, q: Queues, asked: Asked, spid: Spid, max: nat, attempt: nat): Retried
    requires attempt <= max
    decreases max - attempt
  {
    var called := asked.(attempts := asked.attempts + 1);
    match w.attempt(asked.attempts)
    case Success => Retried(q, called, Succeeded)
    case Fail(retryable) =>
      if !retryable then Retried(q, called, Rejected)
      else if attempt == max then Retried(q, called, Exhausted)
      else
        var (slept, aborted) := Sleep(q, w.patience(asked.backoffs), spid);
        var rested := called.(backoffs := asked.backoffs + 1);
        if aborted then Retried(slept, rested, Interrupted)
        else Retry(w, slept, rested, spid, max, attempt + 1)
  }

  // ---- The main loop --------------------------------------------------------

  /** A prompt that materialized and was not canceled. */
  function AnswerPrompt(w: World, st: Loop, p: Prompt): Loop {
    var asked := st.asked.(resolutions := st.asked.resolutions + 1);
    if w.hasBackend(st.asked.resolutions) then
      var r := Retry(w, st.q, asked, p.spid, MaxRetries(p), 0);
      st.(q := r.q, asked := r.asked, out := st.out + [Submitted(p.spid), Finished(p.spid)],
          calls := st.calls + Repeat(p.spid, Calls(asked, r.asked)))
    else
      st.(asked := asked, out := st.out + [Submitted(p.spid), Finished(p.spid)])
  }

  function Calls(before: Asked, after: Asked): nat {
    if before.attempts <= after.attempts then after.attempts - before.attempts else 0
  }

  function HandlePrompt(w: World, st: Loop, p: Prompt): Loop {
    match ResolveWith(p, Lookup(st.snapshots))
    case Err(_) => st.(out := st.out + [Finished(p.spid)])
    case Ok(full) =>
      var known := st.(snapshots := st.snapshots[p.spid := full]);
      if p.spid in st.q.canceled then
        known.(q := st.q.(canceled := st.q.canceled - {p.spid}), out := st.out + [Finished(p.spid)])
      else AnswerPrompt(w, known, p)
  }

  /** The frame's content, log envelope or not. */
  function Dispatch(w: World, st: Loop, f: Frame): Loop {
    match EventOf(f)
    case Some(PromptCreated(p)) => HandlePrompt(w, st, p)
    case Some(CancelPrompt(Some(target))) => st.(q := st.q.(canceled := st.q.canceled + {target}))
    case _ => st
  }

  function Acked(st: Loop, f: Frame): Loop {
    if f.Logged? then st.(out := st.out + [Ack(f.id)]) else st
  }

  function HandleFrame(w: World, st: Loop, f: Frame): Loop {
    Acked(Dispatch(w, st, f), f)
  }

  predicate Waiting(q: Queues) {
    q.deferred != [] || q.channel != []
  }

  /** The next frame: deferred ones first. */
  function Next(q: Queues): Frame
    requires Waiting(q)
  {
    if q.deferred != [] then q.deferred[0] else q.channel[0]
  }

  function Pop(st: Loop): Loop
    requires Waiting(st.q)
  {
    var q := if st.q.deferred != [] then st.q.(deferred := st.q.deferred[1..])
             else st.q.(channel := st.q.channel[1..], fates := st.q.fates + [Kept]);
    st.(q := q, processed := st.processed + [Next(st.q)])
  }

  function Iterate(w: World, st: Loop): Loop
    requires Waiting(st.q)
  {
    HandleFrame(w, Pop(st), Next(st.q))
  }

  predicate Stopped(st: Loop) {
    !Waiting(st.q) || (st.processed != [] && st.processed[|st.processed| - 1] == Disconnect)
  }

  /** The loop after `n` iterations, or earlier if it has ended. */
  function After(w: World, st: Loop, n: nat): Loop {
    if n == 0 then st else
      var earlier := After(w, st, n - 1);
      if Stopped(earlier) then earlier else Iterate(w, earlier)
  }

  lemma OneMore(w: World, st: Loop, n: nat)
    ensures After(w, st, 0) == st
    ensures Stopped(After(w, st, n)) ==> After(w, st, n + 1) == After(w, st, n)
    ensures !Stopped(After(w, st, n)) ==> After(w, st, n + 1) == Iterate(w, After(w, st, n))
  {
  }

  lemma StillWaiting(st: Loop)
    requires !Stopped(st)
    ensures Waiting(st.q)
  {
  }

  function Boot(arrivals: seq<Frame>): Loop {
    Loop(Queues([], arrivals, {}, []), map[], [], [], [], Asked(0, 0, 0))
  }

  // ---- The loops of the source ----------------------------------------------

  class Agent {
    const w: World
    var q: Queues
    var snapshots: map<Spid, Prompt>
    var out: seq<Output>
    var calls: seq<Spid>
    var processed: seq<Frame>
    var asked: Asked

    constructor (w: World, arrivals: seq<Frame>)
      ensures this.w == w && View() == Boot(arrivals)
    {
      this.w := w;
      q := Queues([], arrivals, {}, []);
      snapshots, out, calls, processed, asked := map[], [], [], [], Asked(0, 0, 0);
    }

    function View(): Loop
      reads this
    {
      Loop(q, snapshots, out, calls, processed, asked)
    }

    method SleepOrAbort(patience: nat, inFlight: Spid) returns (aborted: bool)
      modifies this`q
      ensures (q, aborted) == Sleep(old(q), patience, inFlight)
    {
      var left := patience;
      while true
        invariant Sleep(q, left, inFlight) == Sleep(old(q), patience, inFlight)
        decreases left
      {
        if left == 0 {
          return false;
        }
        if q.channel == [] {
          return true;
        }
        var f := q.channel[0];
        q := q.(channel := q.channel[1..]);
        if f.Bare? && f.event.CancelPrompt? {
          match f.event.target {
            case None =>
              q := q.(deferred := q.deferred + [f], fates := q.fates + [Kept]);
              return true;
            case Some(spid) =>
              if spid == inFlight {
                q := q.(deferred := q.deferred + [f], fates := q.fates + [Kept]);
                return true;
              }
              q := q.(canceled := q.canceled + {spid}, fates := q.fates + [Consumed(inFlight)]);
          }
        } else {
          q := q.(deferred := q.deferred + [f], fates := q.fates + [Kept]);
          if f == Disconnect {
            return true;
          }
        }
        left := left - 1;
      }
    }

    method WithLlmRetry(spid: Spid, max: nat) returns (end: RetryEnd)
      modifies this`q, this`asked
      ensures Retried(q, asked, end) == Retry(w, old(q), old(asked), spid, max, 0)
    {
      var attempt := 0;
      while true
        invariant attempt <= max
        invariant Retry(w, q, asked, spid, max, attempt) == Retry(w, old(q), old(asked), spid, max, 0)
        decreases max - attempt
      {
        var result := w.attempt(asked.attempts);
        asked := asked.(attempts := asked.attempts + 1);
        if result == Success {
          return Succeeded;
        }
        if !result.retryable {
          return Rejected;
        }
        if attempt == max {
          return Exhausted;
        }
        attempt := attempt + 1;
        var patience := w.patience(asked.backoffs);
        asked := asked.(backoffs := asked.backoffs + 1);
        var aborted := SleepOrAbort(patience, spid);
        if aborted {
          return Interrupted;
        }
      }
    }

    method Handle(f: Frame)
      modifies this
      ensures View() == HandleFrame(w, old(View()), f)
    {
      hide Retry, ResolveWith, Lookup;
      match EventOf(f) {
        case Some(PromptCreated(p)) =>
          var prompt := MaterializePrompt(p, snapshots);
          if prompt.Err? {
            out := out + [Finished(p.spid)];
          } else {
            snapshots := snapshots[p.spid := prompt.value];
            if p.spid in q.canceled {
              q := q.(canceled := q.canceled - {p.spid});
              out := out + [Finished(p.spid)];
            } else {
              out := out + [Submitted(p.spid)];
              var backend := w.hasBackend(asked.resolutions);
              asked := asked.(resolutions := asked.resolutions + 1);
              if backend {
                var before := asked;
                var _ := WithLlmRetry(p.spid, MaxRetries(p));
                calls := calls + Repeat(p.spid, Calls(before, asked));
              }
              out := out + [Finished(p.spid)];
              assert old(out) + [Submitted(p.spid)] + [Finished(p.spid)]
                  == old(out) + [Submitted(p.spid), Finished(p.spid)];
            }
          }
        case Some(CancelPrompt(Some(target))) =>
          q := q.(canceled := q.canceled + {target});
        case _ =>
      }
      if f.Logged? {
        out := out + [Ack(f.id)];
      }
    }

    /** Runs until a disconnect or the end of the arrivals. */
    method Run() returns (ghost n: nat)
      requires processed == []
      modifies this
      ensures View() == After(w, old(View()), n)
      ensures (q.deferred == [] && q.channel == []) || (processed != [] && processed[|processed| - 1] == Disconnect)
    {
      hide After, HandleFrame;
      n := 0;
      OneMore(w, View(), n);
      while Waiting(q)
        invariant View() == After(w, old(View()), n)
        invariant Stopped(View()) ==> !Waiting(q)
        decreases |q.deferred| + |q.channel|
      {
        ghost var before := View();
        var f := Next(q);
        if q.deferred != [] {
          q := q.(deferred := q.deferred[1..]);
        } else {
          q := q.(channel := q.channel[1..], fates := q.fates + [Kept]);
        }
        processed := processed + [f];
        assert View() == Pop(before);
        OneMore(w, old(View()), n);
        HandleKeepsQueues(w, View(), f);
        Handle(f);
        n := n + 1;
        if f == Disconnect {
          return;
        }
      }
    }
  }

  // ---- What a backoff reads -------------------------------------------------

  /** Reference: the first of the next `patience` frames that aborts. */
  function FirstAbort(channel: seq<Frame>, patience: nat, inFlight: Spid): (r: Option<nat>)
    ensures r.Some? ==> r.value < patience && r.value < |channel| && Aborts(channel[r.value], inFlight)
    ensures forall i :: 0 <= i < |channel| && i < patience && (r.None? || i < r.value) ==> !Aborts(channel[i], inFlight)
  {
    if patience == 0 || channel == [] then None
    else if Aborts(channel[0], inFlight) then Some(0)
    else
      match FirstAbort(channel[1..], patience - 1, inFlight)
      case None => None
      case Some(i) => Some(i + 1)
  }

  /** How many frames a backoff reads: up to the first abort, the deadline or
      the end of the channel. */
  function Reads(channel: seq<Frame>, patience: nat, inFlight: Spid): (n: nat)
    ensures n <= |channel|
  {
    match FirstAbort(channel, patience, inFlight)
    case Some(i) => i + 1
    case None => if patience < |channel| then patience else |channel|
  }

  function Parked(frames: seq<Frame>, inFlight: Spid): seq<Frame> {
    if frames == [] then []
    else (if CancelsOther(frames[0], inFlight) then [] else [frames[0]]) + Parked(frames[1..], inFlight)
  }

  function FatesOf(frames: seq<Frame>, inFlight: Spid): seq<Fate> {
    seq(|frames|, i requires 0 <= i < |frames| =>
      if CancelsOther(frames[i], inFlight) then Consumed(inFlight) else Kept)
  }

  function ParkMany(q: Queues, n: nat, inFlight: Spid): Queues
    requires n <= |q.channel|
    decreases n
  {
    if n == 0 then q else ParkMany(Park(q, inFlight), n - 1, inFlight)
  }

  lemma {:induction false} SleepParks(q: Queues, patience: nat, inFlight: Spid)
    ensures Sleep(q, patience, inFlight)
         == (ParkMany(q, Reads(q.channel, patience, inFlight), inFlight),
             FirstAbort(q.channel, patience, inFlight).Some? || |q.channel| < patience)
    decreases patience
  {
    if patience != 0 && q.channel != [] {
      if Aborts(q.channel[0], inFlight) {
        assert ParkMany(q, 1, inFlight) == ParkMany(Park(q, inFlight), 0, inFlight);
      } else {
        SleepParks(Park(q, inFlight), patience - 1, inFlight);
      }
    }
  }

  lemma {:induction false} ParkManyQueues(q: Queues, n: nat, inFlight: Spid)
    requires n <= |q.channel|
    ensures var q' := ParkMany(q, n, inFlight);
      && q'.channel == q.channel[n..]
      && q'.deferred == q.deferred + Parked(q.channel[..n], inFlight)
      && q'.fates == q.fates + FatesOf(q.channel[..n], inFlight)
    decreases n
  {
    if n != 0 {
      var f, rest := q.channel[0], q.channel[1..];
      ParkManyQueues(Park(q, inFlight), n - 1, inFlight);
      assert q.channel[..n] == [f] + rest[..n - 1];
      assert q.channel[..n][1..] == rest[..n - 1];
      assert q.channel[n..] == rest[n - 1..];
    }
  }

  lemma {:induction false} ParkManyCancels(q: Queues, n: nat, inFlight: Spid, t: Spid)
    requires n <= |q.channel|
    ensures t in ParkMany(q, n, inFlight).canceled <==>
      t in q.canceled || (t != inFlight && Bare(CancelPrompt(Some(t))) in q.channel[..n])
    decreases n
  {
    if n != 0 {
      ParkManyCancels(Park(q, inFlight), n - 1, inFlight, t);
      assert q.channel[..n] == [q.channel[0]] + q.channel[1..][..n - 1];
    }
  }

  /** A backoff aborts at an aborting frame or at the end of the channel, and
      only then. It parks everything it read but the cancels for other prompts,
      and adds to the cancel set exactly the targets of those. */
  lemma SleepOutcome(q: Queues, patience: nat, inFlight: Spid)
    ensures var (q', aborted) := Sleep(q, patience, inFlight);
      var n := Reads(q.channel, patience, inFlight);
      && (aborted <==> FirstAbort(q.channel, patience, inFlight).Some? || |q.channel| < patience)
      && q'.channel == q.channel[n..]
      && q'.deferred == q.deferred + Parked(q.channel[..n], inFlight)
      && q'.fates == q.fates + FatesOf(q.channel[..n], inFlight)
      && (forall t :: t in q'.canceled <==>
            t in q.canceled || (t != inFlight && Bare(CancelPrompt(Some(t))) in q.channel[..n]))
  {
    hide *;
    var n := Reads(q.channel, patience, inFlight);
    SleepParks(q, patience, inFlight);
    ParkManyQueues(q, n, inFlight);
    forall t
      ensures t in ParkMany(q, n, inFlight).canceled <==>
        t in q.canceled || (t != inFlight && Bare(CancelPrompt(Some(t))) in q.channel[..n])
    {
      ParkManyCancels(q, n, inFlight, t);
    }
  }

  // ---- Retries --------------------------------------------------------------

  /** The frames the first `n` backoffs from number `b` on wait for. */
  function Waited(w: World, b: nat, n: nat): nat
    decreases n
  {
    if n == 0 then 0 else w.patience(b) + Waited(w, b + 1, n - 1)
  }

  /** A disconnect, a bare cancel of everything or a bare cancel of the prompt in flight. */
  predicate Ending(f: Frame, inFlight: Spid) {
    f in [Disconnect, Bare(CancelPrompt(None)), Bare(CancelPrompt(Some(inFlight)))]
  }

  /** A backoff that waits for `patience` frames from position `from` on is cut
      short: the channel ends first, or one of them is such a frame. */
  ghost predicate CutShort(channel: seq<Frame>, from: nat, patience: nat, inFlight: Spid) {
    || |channel| < from + patience
    || exists i :: from <= i < from + patience && i < |channel| && Ending(channel[i], inFlight)
  }

  ghost predicate BackoffCut(w: World, channel: seq<Frame>, backoffs: nat, k: nat, spid: Spid) {
    CutShort(channel, Waited(w, backoffs, k), w.patience(backoffs + k), spid)
  }

  /** Call `k` failed retryably and the backoff after it elapsed. */
  ghost predicate GoesOn(w: World, channel: seq<Frame>, asked: Asked, spid: Spid, k: nat) {
    w.attempt(asked.attempts + k) == Fail(true) && !BackoffCut(w, channel, asked.backoffs, k, spid)
  }

  /** A prompt gets `n` calls, at most one plus the limit, and ends so: every
      call but the last failed retryably and the backoff after it elapsed; the
      last succeeded, was rejected, was one too many, or its backoff was cut short. */
  ghost predicate CallsEnd(
    w: World, channel: seq<Frame>, asked: Asked, spid: Spid, limit: nat, n: nat, end: RetryEnd)
  {
    && 1 <= n <= 1 + limit
    && (forall k :: 0 <= k < n - 1 ==> GoesOn(w, channel, asked, spid, k))
    && var last := w.attempt(asked.attempts + n - 1);
       && (end == Succeeded <==> last == Success)
       && (end == Rejected <==> last == Fail(false))
       && (end == Exhausted <==> last == Fail(true) && n == 1 + limit)
       && (end == Interrupted <==>
             last == Fail(true) && n < 1 + limit && BackoffCut(w, channel, asked.backoffs, n - 1, spid))
  }

  /** From position `from` on, frames were taken up to the first ending one, or all. */
  ghost predicate StopsAtEnding(channel: seq<Frame>, from: nat, rest: seq<Frame>, spid: Spid) {
    && |rest| <= |channel|
    && var read := |channel| - |rest|;
       && rest == channel[read..] && from <= read
       && (forall i :: from <= i < read - 1 ==> !Ending(channel[i], spid))
       && (rest == [] || (from < read && Ending(channel[read - 1], spid)))
  }

  /** The frames a prompt takes off the channel: those its backoffs waited for, and
      of the one that was cut short all up to the frame that did it, or all there are. */
  ghost predicate TakesOff(
    w: World, channel: seq<Frame>, asked: Asked, spid: Spid, n: nat, end: RetryEnd, rest: seq<Frame>)
  {
    && |rest| <= |channel|
    && var read := |channel| - |rest|;
       var waited := Waited(w, asked.backoffs, if n == 0 then 0 else n - 1);
       && rest == channel[read..]
       && (if end == Interrupted then StopsAtEnding(channel, waited, rest, spid) else read == waited)
  }

  /** The ways a prompt can end exclude each other: the environment and the
      frames that arrive say how many calls it gets. */
  lemma CallsEndOnce(
    w: World, channel: seq<Frame>, asked: Asked, spid: Spid, limit: nat, n: nat, end: RetryEnd, m: nat, other: RetryEnd)
    requires CallsEnd(w, channel, asked, spid, limit, n, end) && CallsEnd(w, channel, asked, spid, limit, m, other)
    ensures n == m && end == other
  {
    hide BackoffCut;
    assert n < m ==> GoesOn(w, channel, asked, spid, n - 1);
    assert m < n ==> GoesOn(w, channel, asked, spid, m - 1);
  }

  lemma SleepIsCutIff(q: Queues, patience: nat, inFlight: Spid)
    ensures var (q', aborted) := Sleep(q, patience, inFlight);
      && (aborted <==> CutShort(q.channel, 0, patience, inFlight))
      && (!aborted ==> patience <= |q.channel| && q'.channel == q.channel[patience..])
      && (aborted ==> StopsAtEnding(q.channel, 0, q'.channel, inFlight))
  {
    SleepOutcome(q, patience, inFlight);
    hide Sleep;
    assert forall f :: Aborts(f, inFlight) <==> Ending(f, inFlight);
  }

  lemma CutLater(channel: seq<Frame>, done: nat, from: nat, patience: nat, inFlight: Spid)
    requires done <= |channel|
    ensures CutShort(channel[done..], from, patience, inFlight) <==> CutShort(channel, done + from, patience, inFlight)
  {
    var rest := channel[done..];
    forall i | from <= i < from + patience && i < |rest| ensures channel[done + i] == rest[i] {
    }
    forall i | done + from <= i < done + from + patience && i < |channel| ensures rest[i - done] == channel[i] {
    }
  }

  lemma BackoffCutLater(w: World, channel: seq<Frame>, backoffs: nat, k: nat, spid: Spid)
    requires w.patience(backoffs) <= |channel|
    ensures BackoffCut(w, channel[w.patience(backoffs)..], backoffs + 1, k, spid)
       <==> BackoffCut(w, channel, backoffs, k + 1, spid)
  {
    CutLater(channel, w.patience(backoffs), Waited(w, backoffs + 1, k), w.patience(backoffs + 1 + k), spid);
  }

  lemma EndsOneLater(
    w: World, channel: seq<Frame>, asked: Asked, spid: Spid, limit: nat, n: nat, end: RetryEnd)
    requires w.patience(asked.backoffs) <= |channel| && 0 < limit
    requires w.attempt(asked.attempts) == Fail(true) && !BackoffCut(w, channel, asked.backoffs, 0, spid)
    requires var rested := asked.(attempts := asked.attempts + 1, backoffs := asked.backoffs + 1);
      CallsEnd(w, channel[w.patience(asked.backoffs)..], rested, spid, limit - 1, n, end)
    ensures CallsEnd(w, channel, asked, spid, limit, n + 1, end)
  {
    var rested := asked.(attempts := asked.attempts + 1, backoffs := asked.backoffs + 1);
    var rest := channel[w.patience(asked.backoffs)..];
    hide BackoffCut;
    forall k | 0 <= k < n ensures GoesOn(w, channel, asked, spid, k) {
      if k > 0 {
        assert GoesOn(w, rest, rested, spid, k - 1);
        BackoffCutLater(w, channel, asked.backoffs, k - 1, spid);
      }
    }
    BackoffCutLater(w, channel, asked.backoffs, n - 1, spid);
  }

  lemma TakesOffLater(
    w: World, channel: seq<Frame>, asked: Asked, spid: Spid, n: nat, end: RetryEnd, rest: seq<Frame>)
    requires w.patience(asked.backoffs) <= |channel| && 0 < n
    requires var rested := asked.(attempts := asked.attempts + 1, backoffs := asked.backoffs + 1);
      TakesOff(w, channel[w.patience(asked.backoffs)..], rested, spid, n, end, rest)
    ensures TakesOff(w, channel, asked, spid, n + 1, end, rest)
  {
    var done := w.patience(asked.backoffs);
    var later := channel[done..];
    var waited := Waited(w, asked.backoffs + 1, n - 1);
    assert later[|later| - |rest|..] == channel[|channel| - |rest|..];
    assert Waited(w, asked.backoffs, n) == done + waited;
    if end == Interrupted {
      StopsLater(channel, done, waited, rest, spid);
    }
  }

  lemma StopsLater(channel: seq<Frame>, done: nat, from: nat, rest: seq<Frame>, spid: Spid)
    requires done <= |channel| && StopsAtEnding(channel[done..], from, rest, spid)
    ensures StopsAtEnding(channel, done + from, rest, spid)
  {
    var later := channel[done..];
    var read := |channel| - |rest|;
    assert later[read - done..] == channel[read..];
    forall i | done + from <= i < read - 1 ensures !Ending(channel[i], spid) {
      assert channel[i] == later[i - done];
    }
    if rest != [] {
      assert channel[read - 1] == later[read - done - 1];
    }
  }

  /** The calls made for a prompt and why they stopped, in terms of the answers
      given and the frames that arrived. */
  lemma {:induction false} RetryOutcome(w: World, q: Queues, asked: Asked, spid: Spid, max: nat, attempt: nat)
    requires attempt <= max
    ensures var r := Retry(w, q, asked, spid, max, attempt);
      && asked.attempts < r.asked.attempts && r.asked.resolutions == asked.resolutions
      && CallsEnd(w, q.channel, asked, spid, max - attempt, r.asked.attempts - asked.attempts, r.end)
      && TakesOff(w, q.channel, asked, spid, r.asked.attempts - asked.attempts, r.end, r.q.channel)
    decreases max - attempt
  {
    hide Sleep, CutShort;
    if w.attempt(asked.attempts) == Fail(true) && attempt < max {
      SleepIsCutIff(q, w.patience(asked.backoffs), spid);
      var (slept, aborted) := Sleep(q, w.patience(asked.backoffs), spid);
      assert BackoffCut(w, q.channel, asked.backoffs, 0, spid) <==> aborted;
      if !aborted {
        var rested := asked.(attempts := asked.attempts + 1, backoffs := asked.backoffs + 1);
        RetryOutcome(w, slept, rested, spid, max, attempt + 1);
        hide CallsEnd, BackoffCut, TakesOff;
        var r := Retry(w, slept, rested, spid, max, attempt + 1);
        EndsOneLater(w, q.channel, asked, spid, max - attempt, r.asked.attempts - rested.attempts, r.end);
        TakesOffLater(w, q.channel, asked, spid, r.asked.attempts - rested.attempts, r.end, r.q.channel);
      }
    }
  }

  /** All backoffs together read a stretch of the channel, and add to the cancel
      set exactly the other prompts that bare cancels in it name. */
  lemma {:induction false} RetryReads(w: World, q: Queues, asked: Asked, spid: Spid, max: nat, attempt: nat)
    requires attempt <= max
    ensures var r := Retry(w, q, asked, spid, max, attempt);
      && |r.q.channel| <= |q.channel|
      && var n := |q.channel| - |r.q.channel|;
         && r.q.channel == q.channel[n..]
         && (forall t :: t in r.q.canceled <==>
               t in q.canceled || (t != spid && Bare(CancelPrompt(Some(t))) in q.channel[..n]))
    decreases max - attempt
  {
    hide Sleep, Reads;
    if w.attempt(asked.attempts) == Fail(true) && attempt < max {
      var patience := w.patience(asked.backoffs);
      SleepOutcome(q, patience, spid);
      var (slept, aborted) := Sleep(q, patience, spid);
      if !aborted {
        var rested := asked.(attempts := asked.attempts + 1, backoffs := asked.backoffs + 1);
        RetryReads(w, slept, rested, spid, max, attempt + 1);
        var r := Retry(w, slept, rested, spid, max, attempt + 1);
        var m, n := Reads(q.channel, patience, spid), |q.channel| - |r.q.channel|;
        assert q.channel[m..][n - m..] == q.channel[n..];
        assert q.channel[..n] == q.channel[..m] + q.channel[m..][..n - m];
      }
    }
  }

  /** An environment that always fails retryably and never interrupts gets one
      call plus exactly the retry limit. */
  lemma {:induction false} RetryExhausts(w: World, q: Queues, asked: Asked, spid: Spid, max: nat, attempt: nat)
    requires attempt <= max
    requires forall n :: w.attempt(n) == Fail(true)
    requires forall n :: w.patience(n) == 0
    ensures var r := Retry(w, q, asked, spid, max, attempt);
      r.end == Exhausted && r.asked.attempts == asked.attempts + 1 + max - attempt
    decreases max - attempt
  {
    if attempt < max {
      var rested := asked.(attempts := asked.attempts + 1, backoffs := asked.backoffs + 1);
      RetryExhausts(w, q, rested, spid, max, attempt + 1);
    }
  }

  // ---- Conservation of frames -----------------------------------------------

  function KeptFrames(arrivals: seq<Frame>, fates: seq<Fate>): seq<Frame>
    requires |fates| <= |arrivals|
  {
    if fates == [] then [] else
      var n := |fates| - 1;
      KeptFrames(arrivals, fates[..n]) + (if fates[n] == Kept then [arrivals[n]] else [])
  }

  /** Every frame read so far is processed, deferred, or was a bare cancel for a
      prompt other than the one whose backoff consumed it; nothing changes places. */
  ghost predicate Conserved(arrivals: seq<Frame>, processed: seq<Frame>, q: Queues) {
    && |q.fates| <= |arrivals|
    && q.channel == arrivals[|q.fates|..]
    && processed + q.deferred == KeptFrames(arrivals, q.fates)
    && (forall i :: 0 <= i < |q.fates| && q.fates[i].Consumed? ==> CancelsOther(arrivals[i], q.fates[i].inFlight))
  }

  lemma ParkConserves(arrivals: seq<Frame>, processed: seq<Frame>, q: Queues, inFlight: Spid)
    requires Conserved(arrivals, processed, q) && q.channel != []
    ensures Conserved(arrivals, processed, Park(q, inFlight))
  {
    var q' := Park(q, inFlight);
    assert q'.fates[..|q.fates|] == q.fates;
    assert q.channel[0] == arrivals[|q.fates|];
    assert processed + q'.deferred ==
      processed + q.deferred + (if CancelsOther(q.channel[0], inFlight) then [] else [q.channel[0]]);
  }

  lemma {:induction false} SleepConserves(
    arrivals: seq<Frame>, processed: seq<Frame>, q: Queues, patience: nat, inFlight: Spid)
    requires Conserved(arrivals, processed, q)
    ensures Conserved(arrivals, processed, Sleep(q, patience, inFlight).0)
    decreases patience
  {
    if patience != 0 && q.channel != [] {
      ParkConserves(arrivals, processed, q, inFlight);
      if !Aborts(q.channel[0], inFlight) {
        SleepConserves(arrivals, processed, Park(q, inFlight), patience - 1, inFlight);
      }
    }
  }

  lemma {:induction false} RetryConserves(
    arrivals: seq<Frame>, processed: seq<Frame>,
    w: World, q: Queues, asked: Asked, spid: Spid, max: nat, attempt: nat)
    requires Conserved(arrivals, processed, q) && attempt <= max
    ensures Conserved(arrivals, processed, Retry(w, q, asked, spid, max, attempt).q)
    decreases max - attempt
  {
    if w.attempt(asked.attempts) == Fail(true) && attempt < max {
      SleepConserves(arrivals, processed, q, w.patience(asked.backoffs), spid);
      var (slept, aborted) := Sleep(q, w.patience(asked.backoffs), spid);
      if !aborted {
        var rested := asked.(attempts := asked.attempts + 1, backoffs := asked.backoffs + 1);
        RetryConserves(arrivals, processed, w, slept, rested, spid, max, attempt + 1);
      }
    }
  }

  lemma PopConserves(arrivals: seq<Frame>, st: Loop)
    requires Conserved(arrivals, st.processed, st.q) && Waiting(st.q)
    ensures Conserved(arrivals, Pop(st).processed, Pop(st).q)
  {
    var f, st' := Next(st.q), Pop(st);
    if st.q.deferred != [] {
      assert [f] + st'.q.deferred == st.q.deferred;
      assert st'.processed + st'.q.deferred == st.processed + st.q.deferred;
    } else {
      assert st'.q.fates[..|st.q.fates|] == st.q.fates;
      assert st'.processed + st'.q.deferred == st.processed + st.q.deferred + [f];
    }
  }

  lemma DispatchConserves(arrivals: seq<Frame>, w: World, st: Loop, f: Frame)
    requires Conserved(arrivals, st.processed, st.q)
    ensures Conserved(arrivals, Dispatch(w, st, f).processed, Dispatch(w, st, f).q)
  {
    hide Conserved, Retry, ResolveWith, Lookup;
    match PromptOf(f) {
      case Some(p) =>
        var asked := st.asked.(resolutions := st.asked.resolutions + 1);
        RetryConserves(arrivals, st.processed, w, st.q, asked, p.spid, MaxRetries(p), 0);
        CancelSetIsFree(arrivals, st.processed, st.q, st.q.canceled - {p.spid});
      case None =>
        CancelSetIsFree(arrivals, st.processed, st.q, Dispatch(w, st, f).q.canceled);
    }
  }

  lemma CancelSetIsFree(arrivals: seq<Frame>, processed: seq<Frame>, q: Queues, canceled: set<Spid>)
    requires Conserved(arrivals, processed, q)
    ensures Conserved(arrivals, processed, q.(canceled := canceled))
  {
  }

  lemma IterateConserves(arrivals: seq<Frame>, w: World, st: Loop)
    requires Conserved(arrivals, st.processed, st.q) && Waiting(st.q)
    ensures Conserved(arrivals, Iterate(w, st).processed, Iterate(w, st).q)
  {
    hide Conserved, Dispatch, Pop;
    PopConserves(arrivals, st);
    DispatchConserves(arrivals, w, Pop(st), Next(st.q));
  }

  lemma BootConserves(arrivals: seq<Frame>)
    ensures Conserved(arrivals, Boot(arrivals).processed, Boot(arrivals).q)
  {
  }

  /** In every run, processed, deferred and unread frames are the arrivals minus
      exactly the bare cancels for other prompts read during a backoff. */
  lemma {:induction false} NoFrameIsLost(arrivals: seq<Frame>, w: World, n: nat)
    ensures var st := After(w, Boot(arrivals), n);
      Conserved(arrivals, st.processed, st.q)
  {
    hide Conserved, Iterate, After, Stopped;
    OneMore(w, Boot(arrivals), 0);
    if n == 0 {
      BootConserves(arrivals);
    } else {
      OneMore(w, Boot(arrivals), n - 1);
      NoFrameIsLost(arrivals, w, n - 1);
      var earlier := After(w, Boot(arrivals), n - 1);
      if !Stopped(earlier) {
        StillWaiting(earlier);
        IterateConserves(arrivals, w, earlier);
      }
    }
  }

  // ---- What each frame gets -------------------------------------------------

  predicate Materializes(st: Loop, p: Prompt) {
    ResolveWith(p, Lookup(st.snapshots)).Ok?
  }

  /** One prompt finishes once. It gets calls only if it materializes, its name
      is not in the cancel set and a backend is found, at most nine, or three for
      an extension's; how many, the environment and the frames waiting say. */
  lemma PromptOutcome(w: World, st: Loop, p: Prompt) returns (made: nat, end: RetryEnd)
    ensures var st' := HandlePrompt(w, st, p);
      var admitted := Materializes(st, p) && p.spid !in st.q.canceled;
      && st'.out == st.out + (if admitted then [Submitted(p.spid), Finished(p.spid)] else [Finished(p.spid)])
      && st'.calls == st.calls + Repeat(p.spid, made)
      && (0 < made <==> admitted && w.hasBackend(st.asked.resolutions))
      && (0 < made ==> CallsEnd(w, st.q.channel, st.asked, p.spid, if p.fromExtension then 2 else 8, made, end))
      && (0 < made ==> TakesOff(w, st.q.channel, st.asked, p.spid, made, end, st'.q.channel))
      && (made == 0 ==> st'.q == st.q.(canceled := st'.q.canceled))
      && st'.asked.resolutions == st.asked.resolutions + (if admitted then 1 else 0)
      && st'.asked.attempts == st.asked.attempts + made
      && st'.snapshots == Remember(st.snapshots, p)
      && st'.processed == st.processed
  {
    hide Retry, ResolveWith, Lookup, BackoffCut;
    made, end := 0, Succeeded;
    var asked := st.asked.(resolutions := st.asked.resolutions + 1);
    if Materializes(st, p) && p.spid !in st.q.canceled && w.hasBackend(st.asked.resolutions) {
      RetryOutcome(w, st.q, asked, p.spid, MaxRetries(p), 0);
      var r := Retry(w, st.q, asked, p.spid, MaxRetries(p), 0);
      made, end := Calls(asked, r.asked), r.end;
      assert forall k: nat :: GoesOn(w, st.q.channel, asked, p.spid, k) == GoesOn(w, st.q.channel, st.asked, p.spid, k);
    }
    assert st.calls + Repeat(p.spid, 0) == st.calls;
  }

  /** Once the prompt in flight is aborted no further call is made for it: if its
      first calls fail retryably and the backoff after the last of them is the
      first to be cut short, it gets exactly those calls. */
  lemma AbortStopsCalls(w: World, st: Loop, p: Prompt, n: nat)
    requires Materializes(st, p) && p.spid !in st.q.canceled && w.hasBackend(st.asked.resolutions)
    requires 1 <= n <= if p.fromExtension then 2 else 8
    requires forall k :: 0 <= k < n - 1 ==> GoesOn(w, st.q.channel, st.asked, p.spid, k)
    requires w.attempt(st.asked.attempts + n - 1) == Fail(true)
    requires BackoffCut(w, st.q.channel, st.asked.backoffs, n - 1, p.spid)
    ensures HandlePrompt(w, st, p).calls == st.calls + Repeat(p.spid, n)
  {
    hide HandlePrompt, BackoffCut, ResolveWith;
    var made, end := PromptOutcome(w, st, p);
    CallsEndOnce(
      w, st.q.channel, st.asked, p.spid, if p.fromExtension then 2 else 8, made, end, n, Interrupted);
  }

  lemma {:induction false} SleepKeeps(q: Queues, patience: nat, inFlight: Spid)
    ensures var q' := Sleep(q, patience, inFlight).0;
      q.canceled <= q'.canceled && |q'.deferred| + |q'.channel| <= |q.deferred| + |q.channel|
    decreases patience
  {
    if patience != 0 && q.channel != [] && !Aborts(q.channel[0], inFlight) {
      SleepKeeps(Park(q, inFlight), patience - 1, inFlight);
    }
  }

  lemma {:induction false} RetryKeeps(w: World, q: Queues, asked: Asked, spid: Spid, max: nat, attempt: nat)
    requires attempt <= max
    ensures var q' := Retry(w, q, asked, spid, max, attempt).q;
      q.canceled <= q'.canceled && |q'.deferred| + |q'.channel| <= |q.deferred| + |q.channel|
    decreases max - attempt
  {
    if w.attempt(asked.attempts) == Fail(true) && attempt < max {
      SleepKeeps(q, w.patience(asked.backoffs), spid);
      var (slept, aborted) := Sleep(q, w.patience(asked.backoffs), spid);
      if !aborted {
        var rested := asked.(attempts := asked.attempts + 1, backoffs := asked.backoffs + 1);
        RetryKeeps(w, slept, rested, spid, max, attempt + 1);
      }
    }
  }

  /** Handling never makes the queues longer, and forgets no cancel but the one
      that stopped the prompt it handled. */
  lemma HandleKeepsQueues(w: World, st: Loop, f: Frame)
    ensures var q, q' := st.q, HandleFrame(w, st, f).q;
      && HandleFrame(w, st, f).processed == st.processed
      && |q'.deferred| + |q'.channel| <= |q.deferred| + |q.channel|
      && (forall t :: t in q.canceled && t !in q'.canceled ==>
            PromptOf(f).Some? && PromptOf(f).value.spid == t && Materializes(st, PromptOf(f).value))
  {
    hide Retry, ResolveWith;
    if PromptOf(f).Some? {
      var p := PromptOf(f).value;
      RetryKeeps(w, st.q, st.asked.(resolutions := st.asked.resolutions + 1), p.spid, MaxRetries(p), 0);
    }
  }

  /** Nothing is processed after a disconnect. */
  lemma {:induction false} DisconnectIsLast(arrivals: seq<Frame>, w: World, n: nat)
    ensures var processed := After(w, Boot(arrivals), n).processed;
      forall i :: 0 <= i < |processed| - 1 ==> processed[i] != Disconnect
  {
    hide Iterate, After;
    OneMore(w, Boot(arrivals), 0);
    if n != 0 {
      OneMore(w, Boot(arrivals), n - 1);
      DisconnectIsLast(arrivals, w, n - 1);
      var earlier := After(w, Boot(arrivals), n - 1);
      if !Stopped(earlier) {
        IterateProcesses(w, earlier);
      }
    }
  }

  lemma IterateProcesses(w: World, st: Loop)
    requires Waiting(st.q)
    ensures Iterate(w, st).processed == st.processed + [Next(st.q)]
  {
    hide Retry, ResolveWith, Lookup;
  }

  // ---- Acks and finishes over a run -----------------------------------------

  function AcksIn(out: seq<Output>): seq<nat> {
    if out == [] then [] else
      var n := |out| - 1;
      AcksIn(out[..n]) + (if out[n].Ack? then [out[n].id] else [])
  }

  function FinishesIn(out: seq<Output>): seq<Spid> {
    if out == [] then [] else
      var n := |out| - 1;
      FinishesIn(out[..n]) + (if out[n].Finished? then [out[n].spid] else [])
  }

  function IdsIn(frames: seq<Frame>): seq<nat> {
    if frames == [] then [] else
      var n := |frames| - 1;
      IdsIn(frames[..n]) + (if frames[n].Logged? then [frames[n].id] else [])
  }

  function PromptsIn(frames: seq<Frame>): seq<Prompt> {
    if frames == [] then [] else
      var n := |frames| - 1;
      PromptsIn(frames[..n]) + (if PromptOf(frames[n]).Some? then [PromptOf(frames[n]).value] else [])
  }

  function Names(prompts: seq<Prompt>): seq<Spid> {
    seq(|prompts|, i requires 0 <= i < |prompts| => prompts[i].spid)
  }

  lemma OneOutput(out: seq<Output>, o: Output)
    ensures AcksIn(out + [o]) == if o.Ack? then AcksIn(out) + [o.id] else AcksIn(out)
    ensures FinishesIn(out + [o]) == if o.Finished? then FinishesIn(out) + [o.spid] else FinishesIn(out)
  {
    assert (out + [o])[..|out|] == out;
  }

  lemma OneFrame(frames: seq<Frame>, f: Frame)
    ensures IdsIn(frames + [f]) == if f.Logged? then IdsIn(frames) + [f.id] else IdsIn(frames)
    ensures PromptsIn(frames + [f]) ==
      if PromptOf(f).Some? then PromptsIn(frames) + [PromptOf(f).value] else PromptsIn(frames)
  {
    assert (frames + [f])[..|frames|] == frames;
  }

  lemma OneName(prompts: seq<Prompt>, p: Prompt)
    ensures Names(prompts + [p]) == Names(prompts) + [p.spid]
    ensures SnapshotsAfter(prompts + [p]) == Remember(SnapshotsAfter(prompts), p)
  {
    assert (prompts + [p])[..|prompts|] == prompts;
  }

  /** What the content of one frame adds to the outputs and the snapshots. */
  lemma DispatchOutcome(w: World, st: Loop, f: Frame)
    ensures var st' := Dispatch(w, st, f);
      && AcksIn(st'.out) == AcksIn(st.out)
      && FinishesIn(st'.out) ==
           (if PromptOf(f).Some? then FinishesIn(st.out) + [PromptOf(f).value.spid] else FinishesIn(st.out))
      && st'.snapshots == (if PromptOf(f).Some? then Remember(st.snapshots, PromptOf(f).value) else st.snapshots)
      && st'.processed == st.processed
  {
    hide HandlePrompt, AcksIn, FinishesIn, Remember, ResolveWith;
    match PromptOf(f) {
      case Some(p) =>
        var _, _ := PromptOutcome(w, st, p);
        OneOutput(st.out, Finished(p.spid));
        OneOutput(st.out, Submitted(p.spid));
        OneOutput(st.out + [Submitted(p.spid)], Finished(p.spid));
        assert st.out + [Submitted(p.spid)] + [Finished(p.spid)] == st.out + [Submitted(p.spid), Finished(p.spid)];
      case None =>
    }
  }

  /** Acks, finishes and snapshots follow the processed frames one for one. */
  ghost predicate Answered(st: Loop) {
    && AcksIn(st.out) == IdsIn(st.processed)
    && FinishesIn(st.out) == Names(PromptsIn(st.processed))
    && st.snapshots == SnapshotsAfter(PromptsIn(st.processed))
  }

  lemma IterateAnswers(w: World, st: Loop)
    requires Answered(st) && Waiting(st.q)
    ensures Answered(Iterate(w, st))
  {
    hide AcksIn, FinishesIn, IdsIn, PromptsIn, Names, SnapshotsAfter, Remember;
    var popped, f := Pop(st), Next(st.q);
    var dispatched := Dispatch(w, popped, f);
    DispatchOutcome(w, popped, f);
    OneFrame(st.processed, f);
    if PromptOf(f).Some? {
      OneName(PromptsIn(st.processed), PromptOf(f).value);
    }
    if f.Logged? {
      OneOutput(dispatched.out, Ack(f.id));
    }
    hide Dispatch;
  }

  lemma BootAnswers(arrivals: seq<Frame>)
    ensures Answered(Boot(arrivals))
  {
  }

  /** In every run, every processed envelope is acked once, in processing order,
      and every processed prompt finishes once, in processing order. */
  lemma {:induction false} EveryFrameIsAnswered(arrivals: seq<Frame>, w: World, n: nat)
    ensures Answered(After(w, Boot(arrivals), n))
  {
    hide Answered, Iterate, After, Stopped;
    OneMore(w, Boot(arrivals), 0);
    if n == 0 {
      BootAnswers(arrivals);
    } else {
      OneMore(w, Boot(arrivals), n - 1);
      EveryFrameIsAnswered(arrivals, w, n - 1);
      var earlier := After(w, Boot(arrivals), n - 1);
      if !Stopped(earlier) {
        StillWaiting(earlier);
        IterateAnswers(w, earlier);
      }
    }
  }

  lemma {:induction false} FramesJoin(a: seq<Frame>, b: seq<Frame>)
    ensures IdsIn(a + b) == IdsIn(a) + IdsIn(b) && PromptsIn(a + b) == PromptsIn(a) + PromptsIn(b)
  {
    if b == [] {
      assert a + b == a;
    } else {
      FramesJoin(a, b[..|b| - 1]);
      assert (a + b)[..|a + b| - 1] == a + b[..|b| - 1];
    }
  }

  /** Consumed cancels carry neither an id to ack nor a prompt. */
  lemma {:induction false} ConsumedAreSilent(arrivals: seq<Frame>, fates: seq<Fate>)
    requires |fates| <= |arrivals|
    requires forall i :: 0 <= i < |fates| && fates[i].Consumed? ==> CancelsOther(arrivals[i], fates[i].inFlight)
    ensures IdsIn(KeptFrames(arrivals, fates)) == IdsIn(arrivals[..|fates|])
    ensures PromptsIn(KeptFrames(arrivals, fates)) == PromptsIn(arrivals[..|fates|])
  {
    hide IdsIn, PromptsIn;
    if fates == [] {
      assert arrivals[..|fates|] == KeptFrames(arrivals, fates);
    } else {
      var n := |fates| - 1;
      ConsumedAreSilent(arrivals, fates[..n]);
      assert arrivals[..|fates|] == arrivals[..n] + [arrivals[n]];
      OneFrame(arrivals[..n], arrivals[n]);
      if fates[n] == Kept {
        OneFrame(KeptFrames(arrivals, fates[..n]), arrivals[n]);
      } else {
        assert KeptFrames(arrivals, fates) == KeptFrames(arrivals, fates[..n]);
      }
    }
  }

  /** In every run, the acks sent and the ids still to be acked are those of the
      arrivals, in arrival order; so are the prompts finished and still to finish. */
  lemma AnsweredInArrivalOrder(arrivals: seq<Frame>, w: World, n: nat)
    ensures var st := After(w, Boot(arrivals), n);
      && AcksIn(st.out) + IdsIn(st.q.deferred) + IdsIn(st.q.channel) == IdsIn(arrivals)
      && FinishesIn(st.out) + Names(PromptsIn(st.q.deferred)) + Names(PromptsIn(st.q.channel))
         == Names(PromptsIn(arrivals))
  {
    hide AcksIn, FinishesIn, IdsIn, PromptsIn, KeptFrames, After;
    NoFrameIsLost(arrivals, w, n);
    EveryFrameIsAnswered(arrivals, w, n);
    var st := After(w, Boot(arrivals), n);
    var read := arrivals[..|st.q.fates|];
    ConsumedAreSilent(arrivals, st.q.fates);
    FramesJoin(st.processed, st.q.deferred);
    FramesJoin(read, st.q.channel);
    assert arrivals == read + st.q.channel;
  }

  // ---- The cancel gate ------------------------------------------------------

  function CallsTo(st: Loop, spid: Spid): nat {
    multiset(st.calls)[spid]
  }

  lemma {:induction false} OthersDoNotCount(other: Spid, n: nat, spid: Spid)
    requires other != spid
    ensures multiset(Repeat(other, n))[spid] == 0
  {
    assert spid !in Repeat(other, n);
  }

  /** While a name is in the cancel set no prompt of that name is sent to a
      backend, and the name stays until it has stopped a prompt that materialized. */
  lemma GateStep(w: World, st: Loop, spid: Spid)
    requires Waiting(st.q) && spid in st.q.canceled
    ensures CallsTo(Iterate(w, st), spid) == CallsTo(st, spid)
    ensures spid in Iterate(w, st).q.canceled
      || (PromptOf(Next(st.q)).Some? && PromptOf(Next(st.q)).value.spid == spid
          && Materializes(st, PromptOf(Next(st.q)).value))
  {
    var popped, f := Pop(st), Next(st.q);
    HandleKeepsQueues(w, popped, f);
    if PromptOf(f).Some? {
      var p := PromptOf(f).value;
      var made, _ := PromptOutcome(w, popped, p);
      if p.spid != spid {
        OthersDoNotCount(p.spid, made, spid);
      } else {
        assert Repeat(p.spid, 0) == [];
      }
      assert multiset(popped.calls + Repeat(p.spid, made)) == multiset(popped.calls) + multiset(Repeat(p.spid, made));
    }
  }

  /** The cancel set after an iteration, name by name: a targeted cancel enters
      it, bare or in an envelope, when the main loop meets it, and when a backoff
      for another prompt reads it bare; a name leaves it by stopping a prompt. */
  lemma CancelSetAfter(w: World, st: Loop, t: Spid)
    requires Waiting(st.q)
    ensures var f, q, q' := Next(st.q), Pop(st).q, Iterate(w, st).q;
      && |q'.channel| <= |q.channel|
      && var read := q.channel[..|q.channel| - |q'.channel|];
         var spent := PromptOf(f).Some? && PromptOf(f).value.spid == t && Materializes(st, PromptOf(f).value);
         t in q'.canceled <==>
           || (t in st.q.canceled && !spent)
           || f == Bare(CancelPrompt(Some(t))) || (f.Logged? && f.event == CancelPrompt(Some(t)))
           || (PromptOf(f).Some? && PromptOf(f).value.spid != t && Bare(CancelPrompt(Some(t))) in read)
  {
    hide Retry, ResolveWith, Lookup;
    var f := Next(st.q);
    if PromptOf(f).Some? {
      var p := PromptOf(f).value;
      RetryReads(w, Pop(st).q, st.asked.(resolutions := st.asked.resolutions + 1), p.spid, MaxRetries(p), 0);
    }
  }

  /** Iteration `k` processes a prompt of this name that materializes. */
  ghost predicate GatesAt(w: World, st: Loop, k: nat, spid: Spid) {
    var now := After(w, st, k);
    && !Stopped(now)
    && PromptOf(Next(now.q)).Some? && PromptOf(Next(now.q)).value.spid == spid
    && Materializes(now, PromptOf(Next(now.q)).value)
  }

  /** However the run goes on, a canceled prompt makes no backend call, up to and
      including the iteration in which its cancel stops it. */
  lemma {:induction false} CanceledPromptIsNeverCalled(w: World, st: Loop, n: nat, spid: Spid)
    requires spid in st.q.canceled
    requires forall k :: 0 <= k < n - 1 ==> !GatesAt(w, st, k, spid)
    ensures CallsTo(After(w, st, n), spid) == CallsTo(st, spid)
    ensures spid in After(w, st, n).q.canceled || (0 < n && GatesAt(w, st, n - 1, spid))
  {
    hide CallsTo, Iterate, After, Stopped;
    OneMore(w, st, 0);
    if n != 0 {
      OneMore(w, st, n - 1);
      CanceledPromptIsNeverCalled(w, st, n - 1, spid);
      var earlier := After(w, st, n - 1);
      if !Stopped(earlier) {
        StillWaiting(earlier);
        GateStep(w, earlier, spid);
      }
    }
  }

  /** So a prompt whose cancel the main loop met first is skipped: from that
      cancel on no call is made for its name until it has stopped one. */
  lemma CancelAheadSkipsPrompt(w: World, st: Loop, n: nat, spid: Spid)
    requires !Stopped(st)
    requires Next(st.q) == Bare(CancelPrompt(Some(spid)))
      || (Next(st.q).Logged? && Next(st.q).event == CancelPrompt(Some(spid)))
    requires forall k :: 0 <= k < n - 1 ==> !GatesAt(w, Iterate(w, st), k, spid)
    ensures CallsTo(After(w, Iterate(w, st), n), spid) == CallsTo(st, spid)
  {
    hide After, GatesAt;
    CancelSetAfter(w, st, spid);
    CanceledPromptIsNeverCalled(w, Iterate(w, st), n, spid);
  }

  /** Every frame consumed from position `from` on has its target in the cancel set. */
  ghost predicate Recorded(arrivals: seq<Frame>, q: Queues, from: nat) {
    && from <= |q.fates| <= |arrivals|
    && q.channel == arrivals[|q.fates|..]
    && (forall i :: from <= i < |q.fates| && q.fates[i].Consumed? ==>
          CancelsOther(arrivals[i], q.fates[i].inFlight) && arrivals[i].event.target.value in q.canceled)
  }

  lemma {:induction false} SleepRecords(arrivals: seq<Frame>, q: Queues, from: nat, patience: nat, inFlight: Spid)
    requires Recorded(arrivals, q, from)
    ensures Recorded(arrivals, Sleep(q, patience, inFlight).0, from)
    decreases patience
  {
    if patience != 0 && q.channel != [] {
      assert q.channel[0] == arrivals[|q.fates|];
      assert Recorded(arrivals, Park(q, inFlight), from);
      if !Aborts(q.channel[0], inFlight) {
        SleepRecords(arrivals, Park(q, inFlight), from, patience - 1, inFlight);
      }
    }
  }

  lemma {:induction false} RetryRecords(
    arrivals: seq<Frame>, from: nat, w: World, q: Queues, asked: Asked, spid: Spid, max: nat, attempt: nat)
    requires Recorded(arrivals, q, from) && attempt <= max
    ensures Recorded(arrivals, Retry(w, q, asked, spid, max, attempt).q, from)
    decreases max - attempt
  {
    if w.attempt(asked.attempts) == Fail(true) && attempt < max {
      SleepRecords(arrivals, q, from, w.patience(asked.backoffs), spid);
      var (slept, aborted) := Sleep(q, w.patience(asked.backoffs), spid);
      if !aborted {
        var rested := asked.(attempts := asked.attempts + 1, backoffs := asked.backoffs + 1);
        RetryRecords(arrivals, from, w, slept, rested, spid, max, attempt + 1);
      }
    }
  }

  lemma IterateRecords(arrivals: seq<Frame>, w: World, st: Loop)
    requires Conserved(arrivals, st.processed, st.q) && Waiting(st.q)
    ensures Recorded(arrivals, Iterate(w, st).q, |Pop(st).q.fates|)
  {
    hide Conserved, Retry, ResolveWith, Lookup;
    PopConserves(arrivals, st);
    RecordedAtFirst(arrivals, Pop(st));
    var f := Next(st.q);
    if PromptOf(f).Some? {
      var p := PromptOf(f).value;
      var asked := st.asked.(resolutions := st.asked.resolutions + 1);
      RetryRecords(arrivals, |Pop(st).q.fates|, w, Pop(st).q, asked, p.spid, MaxRetries(p), 0);
    }
  }

  /** Every cancel a backoff consumed during an iteration is in the cancel set
      when the iteration ends: it has overtaken the prompt it names, even one
      queued before it. */
  lemma ConsumedCancelsGate(arrivals: seq<Frame>, w: World, n: nat)
    ensures var st := After(w, Boot(arrivals), n);
      !Stopped(st) ==> Recorded(arrivals, After(w, Boot(arrivals), n + 1).q, |Pop(st).q.fates|)
  {
    hide After, Conserved, Iterate, Recorded, Pop;
    NoFrameIsLost(arrivals, w, n);
    OneMore(w, Boot(arrivals), n);
    var st := After(w, Boot(arrivals), n);
    if !Stopped(st) {
      IterateRecords(arrivals, w, st);
    }
  }

  lemma RecordedAtFirst(arrivals: seq<Frame>, st: Loop)
    requires Conserved(arrivals, st.processed, st.q)
    ensures Recorded(arrivals, st.q, |st.q.fates|)
  {
  }

  /** A frame with the contents of its envelope, if it has one, made indifferent. */
  function Muffled(f: Frame): Frame {
    if f.Logged? then Logged(f.id, OtherEvent) else f
  }

  function MuffledAll(frames: seq<Frame>): (r: seq<Frame>)
    ensures |r| == |frames|
  {
    seq(|frames|, i requires 0 <= i < |frames| => Muffled(frames[i]))
  }

  function MuffledQueues(q: Queues): Queues {
    q.(deferred := MuffledAll(q.deferred), channel := MuffledAll(q.channel))
  }

  lemma ParkMuffled(q: Queues, inFlight: Spid)
    requires q.channel != []
    ensures Park(MuffledQueues(q), inFlight) == MuffledQueues(Park(q, inFlight))
    ensures Aborts(MuffledQueues(q).channel[0], inFlight) <==> Aborts(q.channel[0], inFlight)
  {
    assert MuffledAll(q.channel)[1..] == MuffledAll(q.channel[1..]);
    assert MuffledAll(q.deferred + [q.channel[0]]) == MuffledAll(q.deferred) + [Muffled(q.channel[0])];
  }

  /** A backoff does not look inside envelopes: whatever they hold, cancels for
      this prompt included, it ends, parks and records the same. */
  lemma {:induction false} EnvelopedCancelsWait(q: Queues, patience: nat, inFlight: Spid)
    ensures var (q', aborted) := Sleep(q, patience, inFlight);
      Sleep(MuffledQueues(q), patience, inFlight) == (MuffledQueues(q'), aborted)
    decreases patience
  {
    hide MuffledQueues, Park, Aborts;
    SameEmptiness(q);
    if patience != 0 && q.channel != [] {
      ParkMuffled(q, inFlight);
      if !Aborts(q.channel[0], inFlight) {
        EnvelopedCancelsWait(Park(q, inFlight), patience - 1, inFlight);
      }
    }
  }

  lemma SameEmptiness(q: Queues)
    ensures MuffledQueues(q).channel == [] <==> q.channel == []
  {
  }
}
