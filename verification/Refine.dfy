/** Every interleaving of the receive-side step system is a run of the atomic ring, and
    with one producer and a clock that does not go back its stamps are in order. */
module Refine {
  import opened Wire
  import opened Receiver
  import Ring

  /** The ring operation a step amounts to on channel `c`, if any. */
  function OpOf(s: State, e: Event, c: Cid): seq<Ring.Op> {
    if !e.Act? || e.t !in s.threads || s.threads[e.t].pc.Idle? || s.threads[e.t].pc.c != c || c !in s.chans then []
    else
      var pc := s.threads[e.t].pc;
      if pc.ResetLatch? then [Ring.Unlatch]
      else if !pc.QHeld? then []
      else match pc.op
        case Enqueue(f) => [Ring.Enqueue(f)]
        case Pop => [Ring.Pop]
        case PopWait => if s.chans[c].q != [] then [Ring.Pop] else []
        case Clear => [Ring.Flush]
        case _ => []
  }

  function RingOf(ch: Chan): Ring.Ring { Ring.Ring(ch.q, ch.overflow) }

  lemma StepRefines(s: State, e: Event, s': State, c: Cid)
    requires Apply(s, e) == Some(s') && c in s.chans
    ensures c in s'.chans
    ensures |OpOf(s, e, c)| <= 1
    ensures RingOf(s'.chans[c]) ==
      if OpOf(s, e, c) == [] then RingOf(s.chans[c]) else Ring.Do(RingOf(s.chans[c]), OpOf(s, e, c)[0])
  {
    hide Bits.And, Translate.Accepts, Translate.SetAccept;
  }

  lemma AfterExtended(ops: seq<Ring.Op>, more: seq<Ring.Op>)
    requires |more| <= 1
    ensures Ring.After(ops + more) == if more == [] then Ring.After(ops) else Ring.Do(Ring.After(ops), more[0])
  {
    if more == [] {
      assert ops + more == ops;
    } else {
      assert (ops + more)[..|ops|] == ops;
    }
  }

  function OpsOf(states: seq<State>, events: seq<Event>, i: nat, c: Cid): seq<Ring.Op>
    requires i <= |events| && i < |states|
  {
    if i == 0 then [] else OpsOf(states, events, i - 1, c) + OpOf(states[i - 1], events[i - 1], c)
  }

  /** Ring refinement: whatever the interleaving of pushes, reads, flushes, time-outs and
      callbacks, each channel's ring is where its atomic operations, in the order of
      their critical sections, leave it. So the accounting of `Ring` holds of it. */
  lemma {:induction false} ReceiverRefinesRing(states: seq<State>, events: seq<Event>, i: nat, c: Cid)
    requires IsRun(states, events) && i < |states| && c in states[0].chans
    ensures c in states[i].chans
    ensures Ring.After(OpsOf(states, events, i, c)) == RingOf(states[i].chans[c])
  {
    if i > 0 {
      ReceiverRefinesRing(states, events, i - 1, c);
      var s, e := states[i - 1], events[i - 1];
      StepRefines(s, e, states[i], c);
      var before := OpsOf(states, events, i - 1, c);
      AfterExtended(before, OpOf(s, e, c));
      hide Apply, OpOf, Ring.Do;
    }
  }

  // -------------------------------------------------------------- time stamps

  /** Thread `th` is pushing a frame onto `c`. */
  predicate Pushing(th: Thread, c: Cid) {
    || (FilterPc(th.pc) && th.pc.c == c && th.pc.fop.Check?)
    || ((th.pc.QWant? || th.pc.QHeld?) && th.pc.c == c && th.pc.op.Enqueue?)
  }

  predicate StartsPush(e: Event, c: Cid) {
    e.Begin? && e.call.FWant? && e.call.c == c && e.call.fop.Check?
  }

  ghost predicate OneProducer(events: seq<Event>, c: Cid, p: Tid) {
    forall i :: 0 <= i < |events| && StartsPush(events[i], c) ==> events[i].t == p
  }

  ghost predicate ClockRuns(events: seq<Event>) {
    forall i, j :: 0 <= i < j < |events| && events[i].Act? && events[j].Act? ==> events[i].h.now <= events[j].h.now
  }

  /** The latest reading of the clock. */
  function Clock(events: seq<Event>, i: nat): nat
    requires i <= |events|
  {
    if i == 0 then 0 else if events[i - 1].Act? then events[i - 1].h.now else Clock(events, i - 1)
  }

  lemma {:induction false} ClockIsPast(events: seq<Event>, i: nat, j: nat)
    requires ClockRuns(events) && i <= j < |events| && events[j].Act?
    ensures Clock(events, i) <= events[j].h.now
  {
    if i > 0 {
      ClockIsPast(events, i - 1, j);
    }
  }

  predicate Sorted(q: seq<Frame>) {
    forall i, j :: 0 <= i < j < |q| ==> q[i].rxTime <= q[j].rxTime
  }

  predicate UpTo(q: seq<Frame>, time: nat) {
    forall i :: 0 <= i < |q| ==> q[i].rxTime <= time
  }

  /** A push between its stamp and its enqueue. */
  predicate StampOk(th: Thread, c: Cid, q: seq<Frame>, clock: nat) {
    (th.pc.QWant? || th.pc.QHeld?) && th.pc.c == c && th.pc.op.Enqueue? ==>
      UpTo(q, th.pc.op.f.rxTime) && th.pc.op.f.rxTime <= clock
  }

  ghost predicate StampInv(s: State, c: Cid, p: Tid, clock: nat) {
    && c in s.chans
    && Sorted(s.chans[c].q) && UpTo(s.chans[c].q, clock)
    && forall t <- s.threads :: (Pushing(s.threads[t], c) ==> t == p) && StampOk(s.threads[t], c, s.chans[c].q, clock)
  }

  predicate Within(q': seq<Frame>, q: seq<Frame>) { forall f <- q' :: f in q }

  lemma Shrinks(q: seq<Frame>, clock: nat, now: nat)
    requires Sorted(q) && UpTo(q, clock) && clock <= now
    ensures Sorted([]) && UpTo([], now) && Within([], q) && UpTo(q, now) && Within(q, q)
    ensures q != [] ==> Sorted(q[1..]) && UpTo(q[1..], now) && Within(q[1..], q)
  {}

  lemma Grows(q: seq<Frame>, f: Frame, now: nat)
    requires Sorted(q) && UpTo(q, f.rxTime) && f.rxTime <= now
    ensures Sorted(q + [f]) && UpTo(q + [f], now)
  {}

  lemma WithinUpTo(q': seq<Frame>, q: seq<Frame>, time: nat)
    requires Within(q', q) && UpTo(q, time)
    ensures UpTo(q', time)
  {
    forall i | 0 <= i < |q'|
      ensures q'[i].rxTime <= time
    {
      assert q'[i] in q;
    }
  }

  /** A step keeps the stamps sorted and at most the time now. */
  ghost predicate StampStep(th: Thread, ch: Chan, th': Thread, ch': Chan, c: Cid, now: nat) {
    && Sorted(ch'.q) && UpTo(ch'.q, now) && StampOk(th', c, ch'.q, now)
    && (Pushing(th', c) ==> Pushing(th, c))
    && (Pushing(th, c) || Within(ch'.q, ch.q))
  }

  lemma RunStamps(th: Thread, ch: Chan, h: Hint, c: Cid, clock: nat)
    requires th.pc.QHeld? && th.pc.c == c && clock <= h.now
    requires Sorted(ch.q) && UpTo(ch.q, clock) && StampOk(th, c, ch.q, clock)
    ensures var (th', ch') := RunQ(th, ch, h); StampStep(th, ch, th', ch', c, h.now)
  {
    Shrinks(ch.q, clock, h.now);
    if th.pc.op.Enqueue? {
      Grows(ch.q, th.pc.op.f, h.now);
    }
    hide Sorted, UpTo, Within;
  }

  lemma QueueStamps(t: Tid, th: Thread, ch: Chan, h: Hint, c: Cid, clock: nat)
    requires QueuePc(th.pc) && th.pc.c == c && QueueStep(t, th, ch, h).Some? && clock <= h.now
    requires Sorted(ch.q) && UpTo(ch.q, clock) && StampOk(th, c, ch.q, clock)
    ensures var (th', ch') := QueueStep(t, th, ch, h).value; StampStep(th, ch, th', ch', c, h.now)
  {
    hide RunQ;
    if th.pc.QHeld? {
      RunStamps(th, ch, h, c, clock);
    }
  }

  lemma FilterStamps(t: Tid, th: Thread, ch: Chan, h: Hint, c: Cid, clock: nat)
    requires FilterPc(th.pc) && th.pc.c == c && FilterStep(t, th, ch, h).Some? && clock <= h.now
    requires Sorted(ch.q) && UpTo(ch.q, clock)
    ensures var (th', ch') := FilterStep(t, th, ch, h).value; StampStep(th, ch, th', ch', c, h.now)
  {
    Shrinks(ch.q, clock, h.now);
    hide Translate.Accepts, Translate.SetAccept, Sorted, Within;
  }

  lemma LocalStamps(t: Tid, th: Thread, ch: Chan, h: Hint, c: Cid, clock: nat)
    requires !th.pc.Idle? && th.pc.c == c && Local(t, th, ch, h).Some? && clock <= h.now
    requires Sorted(ch.q) && UpTo(ch.q, clock) && StampOk(th, c, ch.q, clock)
    ensures var (th', ch') := Local(t, th, ch, h).value; StampStep(th, ch, th', ch', c, h.now)
  {
    hide Bits.And, QueueStep, FilterStep, Sorted, UpTo, Within;
    Shrinks(ch.q, clock, h.now);
    if QueuePc(th.pc) {
      QueueStamps(t, th, ch, h, c, clock);
    } else if FilterPc(th.pc) {
      FilterStamps(t, th, ch, h, c, clock);
    }
  }

  lemma ActStamps(s: State, t: Tid, h: Hint, s': State, c: Cid, p: Tid, clock: nat)
    requires Apply(s, Act(t, h)) == Some(s') && StampInv(s, c, p, clock) && clock <= h.now
    ensures StampInv(s', c, p, h.now)
  {
    var th := s.threads[t];
    if th.pc.c == c {
      LocalStamps(t, th, s.chans[c], h, c, clock);
    } else {
      Elsewhere(t, th, s.chans[th.pc.c], h, c);
    }
    hide Local, Bits.And;
    forall u <- s'.threads
      ensures (Pushing(s'.threads[u], c) ==> u == p) && StampOk(s'.threads[u], c, s'.chans[c].q, h.now)
    {
      assert (Pushing(s.threads[u], c) ==> u == p) && StampOk(s.threads[u], c, s.chans[c].q, clock);
      assert (Pushing(th, c) ==> t == p);
      if u != t && th.pc.c == c {
        OtherPusher(s.threads[u], c, s.chans[c].q, s'.chans[c].q, clock, h.now, Pushing(th, c));
      }
    }
  }

  /** A pusher's stamp outlasts a step of a thread that is not pushing. */
  lemma OtherPusher(th: Thread, c: Cid, q: seq<Frame>, q': seq<Frame>, clock: nat, now: nat, actorPushes: bool)
    requires StampOk(th, c, q, clock) && clock <= now && (actorPushes || Within(q', q))
    requires Pushing(th, c) ==> !actorPushes
    ensures StampOk(th, c, q', now)
  {
    if Pushing(th, c) && (th.pc.QWant? || th.pc.QHeld?) {
      WithinUpTo(q', q, th.pc.op.f.rxTime);
    }
  }

  lemma Elsewhere(t: Tid, th: Thread, ch: Chan, h: Hint, c: Cid)
    requires !th.pc.Idle? && th.pc.c != c && Local(t, th, ch, h).Some?
    ensures var th' := Local(t, th, ch, h).value.0; !th'.pc.Idle? ==> th'.pc.c != c
  {
    hide Bits.And, Translate.Accepts, Translate.SetAccept;
  }

  lemma OtherStamps(s: State, e: Event, s': State, c: Cid, p: Tid, clock: nat)
    requires Apply(s, e) == Some(s') && StampInv(s, c, p, clock) && !e.Act?
    requires StartsPush(e, c) ==> e.t == p
    requires forall t <- s.threads :: s.threads[t].pc.Parked? ==> !s.threads[t].pc.op.Enqueue?
    ensures StampInv(s', c, p, clock)
  {
    forall u <- s'.threads
      ensures (Pushing(s'.threads[u], c) ==> u == p) && StampOk(s'.threads[u], c, s'.chans[c].q, clock)
    {
      assert (Pushing(s.threads[u], c) ==> u == p) && StampOk(s.threads[u], c, s.chans[c].q, clock);
    }
  }

  lemma StampsAtStart(s: State, events: seq<Event>, c: Cid, p: Tid)
    requires Init(s) && c in s.chans
    ensures StampInv(s, c, p, Clock(events, 0))
  {}

  lemma NeverParksPushing(th: Thread, chans: set<Cid>)
    requires ThreadOk(th, chans)
    ensures th.pc.Parked? ==> !th.pc.op.Enqueue?
  {}

  /** With one producer and a clock that never goes back, the queued stamps are
      nondecreasing in every reachable state, although stamping and enqueuing are
      separate steps. */
  lemma {:induction false} StampsInOrder(states: seq<State>, events: seq<Event>, i: nat, c: Cid, p: Tid)
    requires IsRun(states, events) && i < |states| && c in states[0].chans
    requires OneProducer(events, c, p) && ClockRuns(events)
    ensures StampInv(states[i], c, p, Clock(events, i))
  {
    hide Apply, StampInv, Init, ThreadOk;
    if i == 0 {
      StampsAtStart(states[0], events, c, p);
    } else {
      StampsInOrder(states, events, i - 1, c, p);
      var s, e, s' := states[i - 1], events[i - 1], states[i];
      RunKeepsInv(states, events, i - 1);
      if e.Act? {
        ClockIsPast(events, i - 1, i - 1);
        ActStamps(s, e.t, e.h, s', c, p, Clock(events, i - 1));
      } else {
        forall t <- s.threads
          ensures s.threads[t].pc.Parked? ==> !s.threads[t].pc.op.Enqueue?
        {
          assert ThreadOk(s.threads[t], s.chans.Keys);
          NeverParksPushing(s.threads[t], s.chans.Keys);
        }
        OtherStamps(s, e, s', c, p, Clock(events, i - 1));
      }
    }
  }
}
