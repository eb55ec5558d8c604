/** Every call on the receive side does its work exactly once, in every interleaving,
    and every flush is followed by its reset of the overrun latch. */
module Calls {
  import opened Wire
  import opened Receiver
  import Pushes

  /** The call whose critical section thread `th` has yet to complete, as it was begun. */
  function Pending(pc: Pc): seq<Pc> {
    match pc
    case FWant(c, op) => [FWant(c, op)]
    case FHeld(c, op) => [FWant(c, op)]
    case QWant(c, op, _) => if op.Enqueue? then [] else [QWant(c, op, false)]
    case QHeld(c, op, _) => if op.Enqueue? then [] else [QWant(c, op, false)]
    case QPark(c, op) => if op.Enqueue? then [] else [QWant(c, op, false)]
    case Parked(c, op) => if op.Enqueue? then [] else [QWant(c, op, false)]
    case NWant(c, op) => if op.Store? then [NWant(c, op)] else []
    case NHeld(c, op) => if op.Store? then [NWant(c, op)] else []
    case _ => []
  }

  /** A blocking read goes on waiting: nothing queued, not closed, time not up. */
  predicate StaysBlocked(op: QueueOp, ch: Chan, h: Hint) {
    (op.PopWait? || op.PeekWait?) && ch.q == [] && !ch.closed && !h.timedOut
  }

  predicate Acts(s: State, e: Event, t: Tid) {
    e.Act? && e.t == t && t in s.threads && !s.threads[t].pc.Idle? && s.threads[t].pc.c in s.chans
  }

  function CalledAt(e: Event, t: Tid): seq<Pc> { if e.Begin? && e.t == t then [e.call] else [] }

  /** The call whose work thread `t` does in this step. */
  function DoneAt(s: State, e: Event, t: Tid): seq<Pc> {
    if !Acts(s, e, t) then [] else
    match s.threads[t].pc
    case FHeld(c, op) => [FWant(c, op)]
    case QHeld(c, op, _) => if op.Enqueue? || StaysBlocked(op, s.chans[c], e.h) then [] else [QWant(c, op, false)]
    case NHeld(c, op) => if op.Store? then [NWant(c, op)] else []
    case _ => []
  }

  /** The channel `t` flushes in this step, and the one whose latch it resets. */
  function FlushedAt(s: State, e: Event, t: Tid): seq<Cid> {
    if Acts(s, e, t) && s.threads[t].pc.QHeld? && s.threads[t].pc.op.Clear? then [s.threads[t].pc.c] else []
  }

  function ResetAt(s: State, e: Event, t: Tid): seq<Cid> {
    if Acts(s, e, t) && s.threads[t].pc.ResetLatch? then [s.threads[t].pc.c] else []
  }

  /** A flush short of its reset. */
  function Resetting(pc: Pc): seq<Cid> {
    if pc.ResetLatch? || (pc.QDone? && pc.after.Unlatch?) then [pc.c] else []
  }

  function Called(events: seq<Event>, i: nat, t: Tid): seq<Pc>
    requires i <= |events|
  {
    if i == 0 then [] else Called(events, i - 1, t) + CalledAt(events[i - 1], t)
  }

  function Done(states: seq<State>, events: seq<Event>, i: nat, t: Tid): seq<Pc>
    requires i <= |events| && i < |states|
  {
    if i == 0 then [] else Done(states, events, i - 1, t) + DoneAt(states[i - 1], events[i - 1], t)
  }

  function Flushed(states: seq<State>, events: seq<Event>, i: nat, t: Tid): seq<Cid>
    requires i <= |events| && i < |states|
  {
    if i == 0 then [] else Flushed(states, events, i - 1, t) + FlushedAt(states[i - 1], events[i - 1], t)
  }

  function Reset(states: seq<State>, events: seq<Event>, i: nat, t: Tid): seq<Cid>
    requires i <= |events| && i < |states|
  {
    if i == 0 then [] else Reset(states, events, i - 1, t) + ResetAt(states[i - 1], events[i - 1], t)
  }

  // ------------------------------------------------------------------- steps

  ghost predicate Accounts(th: Thread, th': Thread, called: seq<Pc>, done: seq<Pc>, flushed: seq<Cid>, reset: seq<Cid>) {
    && Pending(th.pc) + called == done + Pending(th'.pc)
    && Resetting(th.pc) + flushed == reset + Resetting(th'.pc)
  }

  lemma LocalAccounts(s: State, e: Event, t: Tid)
    requires Acts(s, e, t) && Local(t, s.threads[t], s.chans[s.threads[t].pc.c], e.h).Some?
    ensures Accounts(s.threads[t], Local(t, s.threads[t], s.chans[s.threads[t].pc.c], e.h).value.0,
                     [], DoneAt(s, e, t), FlushedAt(s, e, t), ResetAt(s, e, t))
  {
    hide Armed, Translate.Accepts, Translate.SetAccept;
    var th := s.threads[t];
    if FilterPc(th.pc) {
      hide QueueStep, RecordStep, CallbackStep;
    } else if QueuePc(th.pc) {
      hide FilterStep, RecordStep, CallbackStep;
    } else {
      hide FilterStep, QueueStep;
    }
  }

  lemma StepAccounts(s: State, e: Event, s': State, t: Tid)
    requires Apply(s, e) == Some(s') && t in s.threads
    ensures t in s'.threads
    ensures Accounts(s.threads[t], s'.threads[t], CalledAt(e, t), DoneAt(s, e, t), FlushedAt(s, e, t), ResetAt(s, e, t))
  {
    hide Local, Bits.And;
    if e.t == t && e.Act? {
      LocalAccounts(s, e, t);
    } else if e.t == t && e.Begin? {
      hide DoneAt, FlushedAt, ResetAt;
      NothingDone(s, e, t);
    } else {
      Pushes.OthersNudge(s, e, s', t);
      hide Apply, DoneAt, FlushedAt, ResetAt;
      NothingDone(s, e, t);
    }
  }

  lemma NothingDone(s: State, e: Event, t: Tid)
    requires !(e.Act? && e.t == t)
    ensures DoneAt(s, e, t) == [] && FlushedAt(s, e, t) == [] == ResetAt(s, e, t)
  {}

  lemma Joined<T>(a: seq<T>, b: seq<T>, x: seq<T>, x': seq<T>, a': seq<T>, b': seq<T>)
    requires a == b + x && x + a' == b' + x'
    ensures a + a' == (b + b') + x'
  {
    assert a + a' == b + (x + a');
    assert (b + b') + x' == b + (b' + x');
  }

  /** Every call of a thread, in every interleaving: those begun are, in order, those
      whose work under the lock has been done, once each, and the one it is in if its work
      is still to come. A blocking read's is done when a frame is there, the channel is
      closed or the time is up. Each flush has reset the latch or is about to. */
  lemma {:induction false} EveryCall(states: seq<State>, events: seq<Event>, i: nat, t: Tid)
    requires IsRun(states, events) && i < |states| && t in states[0].threads
    ensures t in states[i].threads
    ensures Called(events, i, t) == Done(states, events, i, t) + Pending(states[i].threads[t].pc)
    ensures Flushed(states, events, i, t) == Reset(states, events, i, t) + Resetting(states[i].threads[t].pc)
  {
    hide Apply, Pending, DoneAt, Resetting, FlushedAt, ResetAt, CalledAt, Accounts;
    if i == 0 {
      NothingCalled(states[0], t);
    } else {
      EveryCall(states, events, i - 1, t);
      StepAccounts(states[i - 1], events[i - 1], states[i], t);
      OneMore(states, events, i - 1, t);
    }
  }

  lemma NothingCalled(s: State, t: Tid)
    requires Init(s) && t in s.threads
    ensures Pending(s.threads[t].pc) == [] && Resetting(s.threads[t].pc) == []
  {}

  lemma OneMore(states: seq<State>, events: seq<Event>, i: nat, t: Tid)
    requires i < |events| && i + 1 < |states| && t in states[i].threads && t in states[i + 1].threads
    requires Called(events, i, t) == Done(states, events, i, t) + Pending(states[i].threads[t].pc)
    requires Flushed(states, events, i, t) == Reset(states, events, i, t) + Resetting(states[i].threads[t].pc)
    requires var s, e := states[i], events[i];
      Accounts(s.threads[t], states[i + 1].threads[t], CalledAt(e, t), DoneAt(s, e, t), FlushedAt(s, e, t), ResetAt(s, e, t))
    ensures Called(events, i + 1, t) == Done(states, events, i + 1, t) + Pending(states[i + 1].threads[t].pc)
    ensures Flushed(states, events, i + 1, t) == Reset(states, events, i + 1, t) + Resetting(states[i + 1].threads[t].pc)
  {
    hide Pending, DoneAt, Resetting, FlushedAt, ResetAt, CalledAt;
    var s, e, th' := states[i], events[i], states[i + 1].threads[t];
    Joined(Called(events, i, t), Done(states, events, i, t), Pending(s.threads[t].pc),
           Pending(th'.pc), CalledAt(e, t), DoneAt(s, e, t));
    Joined(Flushed(states, events, i, t), Reset(states, events, i, t), Resetting(s.threads[t].pc),
           Resetting(th'.pc), FlushedAt(s, e, t), ResetAt(s, e, t));
  }

  /** So a thread that is back from its calls has done the work of every one, and reset
      the latch after each flush. */
  lemma BackMeansDone(states: seq<State>, events: seq<Event>, i: nat, t: Tid)
    requires IsRun(states, events) && i < |states| && t in states[0].threads
    requires t in states[i].threads && states[i].threads[t].pc.Idle?
    ensures Called(events, i, t) == Done(states, events, i, t)
    ensures Flushed(states, events, i, t) == Reset(states, events, i, t)
  {
    EveryCall(states, events, i, t);
    hide Called, Done, Flushed, Reset;
    assert Resetting(states[i].threads[t].pc) == [] && Pending(states[i].threads[t].pc) == [];
  }
}
