/** The condvar protocol of `push`, `pop_wait`, `peek_wait` and `mark_closed`: no
    reader sleeps through a close, and none through a frame where every blocking
    reader consumes what it is woken for. */
module Wakeup {
  import opened Wire
  import opened Translate
  import opened Receiver

  // ------------------------------------------------------------- close wakeup

  /** A `mark_closed` between its store and its `notify_all`. */
  predicate Closing(th: Thread, c: Cid) {
    th.pc == QDone(c, WakeAll) || th.pc == NotifyAll(c)
  }

  ghost predicate SomeParked(s: State, c: Cid) {
    exists t <- s.threads :: ParkedOn(s.threads[t], c)
  }

  ghost predicate SomeClosing(s: State, c: Cid) {
    exists t <- s.threads :: Closing(s.threads[t], c)
  }

  ghost predicate CloseInv(s: State, c: Cid) {
    c in s.chans ==>
      && (s.chans[c].closed && SomeParked(s, c) ==> SomeClosing(s, c))
      && (forall t <- s.threads :: Closing(s.threads[t], c) ==> s.chans[c].closed)
      && (forall t <- s.threads :: Parking(s.threads[t], c) ==> !s.chans[c].closed)
  }

  lemma QueueCloses(t: Tid, th: Thread, ch: Chan, h: Hint)
    requires QueuePc(th.pc) && QueueStep(t, th, ch, h).Some?
    ensures var (th', ch') := QueueStep(t, th, ch, h).value;
      && (ch.closed ==> ch'.closed)
      && (ch'.closed && !ch.closed ==> th.pc.QHeld? && Closing(th', th.pc.c))
  {}

  lemma RestKeepsOpen(t: Tid, th: Thread, ch: Chan, h: Hint)
    requires !QueuePc(th.pc) && Local(t, th, ch, h).Some?
    ensures Local(t, th, ch, h).value.1.closed == ch.closed
  {
    hide Bits.And, Accepts, SetAccept, QueueStep;
  }

  /** `closed` never clears, and is stored only under the queue lock. */
  lemma ClosedStored(s: State, e: Event, s': State, c: Cid)
    requires Inv(s) && Apply(s, e) == Some(s') && c in s.chans
    ensures s'.threads.Keys == s.threads.Keys && c in s'.chans
    ensures s.chans[c].closed ==> s'.chans[c].closed
    ensures s'.chans[c].closed && !s.chans[c].closed ==>
      s.threads[e.t].pc.QHeld? && s.threads[e.t].pc.c == c && Closing(s'.threads[e.t], c)
  {
    SameChannels(s, e, s');
    hide Inv, FilterStep, QueueStep, RecordStep, CallbackStep;
    if e.Act? {
      var th := s.threads[e.t];
      if QueuePc(th.pc) {
        QueueCloses(e.t, th, s.chans[th.pc.c], e.h);
      } else {
        RestKeepsOpen(e.t, th, s.chans[th.pc.c], e.h);
      }
    }
  }

  lemma QueueLockExcludes(s: State, c: Cid, t: Tid, u: Tid)
    requires Inv(s) && c in s.chans && t in s.threads && u in s.threads
    requires Has(s.threads[t], c, QLock) && Has(s.threads[u], c, QLock)
    ensures t == u
  {
    assert Owns(s, c, t, QLock) && Owns(s, c, u, QLock);
  }

  predicate Parking(th: Thread, c: Cid) { th.pc.QPark? && th.pc.c == c }

  /** How a thread's wakeup-relevant points change in a local step. */
  lemma LocalMoves(t: Tid, th: Thread, ch: Chan, h: Hint, c: Cid)
    requires !th.pc.Idle? && th.pc.c == c && Local(t, th, ch, h).Some?
    ensures var (th', ch') := Local(t, th, ch, h).value;
      && (ParkedOn(th', c) ==> Parking(th, c) && ch'.closed == ch.closed && ch'.q == ch.q)
      && (Closing(th', c) && !Closing(th, c) ==> ch'.closed)
      && (Closing(th, c) ==> Closing(th', c))
      && (Parking(th', c) ==>
           th.pc.QHeld? && !ch.closed && !ch'.closed && ch.q == [] && ch'.q == [])
      && (ch'.q != ch.q ==> th.pc.QHeld?)
  {
    hide Bits.And, Accepts, SetAccept;
  }

  lemma LocalElsewhere(t: Tid, th: Thread, ch: Chan, h: Hint, c: Cid)
    requires !th.pc.Idle? && th.pc.c != c && Local(t, th, ch, h).Some?
    ensures var th' := Local(t, th, ch, h).value.0; !th'.pc.Idle? ==> th'.pc.c != c
  {
    hide Bits.And, Accepts, SetAccept;
  }

  /** The same for any thread in any step. */
  lemma Moves(s: State, e: Event, s': State, c: Cid, u: Tid)
    requires Inv(s) && Apply(s, e) == Some(s') && c in s.chans && u in s.threads
    requires c in s'.chans && u in s'.threads
    ensures ParkedOn(s'.threads[u], c) && !ParkedOn(s.threads[u], c) ==>
      u == e.t && Parking(s.threads[u], c) && s'.chans[c].closed == s.chans[c].closed && s'.chans[c].q == s.chans[c].q
    ensures Closing(s'.threads[u], c) && !Closing(s.threads[u], c) ==> s'.chans[c].closed
    ensures Closing(s.threads[u], c) && !Closing(s'.threads[u], c) ==>
      e == Broadcast(u) && s.threads[u].pc == NotifyAll(c)
    ensures Parking(s'.threads[u], c) && !Parking(s.threads[u], c) ==>
      u == e.t && s.threads[u].pc.QHeld? && s.threads[u].pc.c == c
      && !s.chans[c].closed && !s'.chans[c].closed && s.chans[c].q == [] && s'.chans[c].q == []
  {
    hide Bits.And, Local;
    var th := s.threads[e.t];
    if e.Act? && u == e.t {
      if th.pc.c == c {
        LocalMoves(u, th, s.chans[c], e.h, c);
      } else {
        LocalElsewhere(u, th, s.chans[th.pc.c], e.h, c);
      }
    }
  }

  lemma BroadcastWakesAll(s: State, t: Tid, s': State, c: Cid)
    requires Apply(s, Broadcast(t)) == Some(s') && s.threads[t].pc == NotifyAll(c)
    ensures !SomeParked(s', c)
  {}

  lemma StepKeepsClose(s: State, e: Event, s': State, c: Cid)
    requires Inv(s) && Apply(s, e) == Some(s') && CloseInv(s, c) && c in s.chans
    ensures CloseInv(s', c)
  {
    ClosedStored(s, e, s', c);
    forall u <- s.threads
      ensures Closing(s'.threads[u], c) ==> s'.chans[c].closed
      ensures Parking(s'.threads[u], c) ==> !s'.chans[c].closed
    {
      Moves(s, e, s', c, u);
      if s'.chans[c].closed && !s.chans[c].closed && Parking(s'.threads[u], c) {
        QueueLockExcludes(s, c, e.t, u);
      }
    }
    if s'.chans[c].closed && SomeParked(s', c) {
      if !s.chans[c].closed {
        assert Closing(s'.threads[e.t], c);
      } else {
        var u :| u in s'.threads && ParkedOn(s'.threads[u], c);
        Moves(s, e, s', c, u);
        assert SomeParked(s, c);
        var t :| t in s.threads && Closing(s.threads[t], c);
        Moves(s, e, s', c, t);
        if !Closing(s'.threads[t], c) {
          BroadcastWakesAll(s, t, s', c);
        }
      }
    }
  }

  /** Close wakeup, at every moment: a reader parked while `closed` is set means that a
      `mark_closed` has yet to notify. */
  lemma {:induction false} CloseWakeup(states: seq<State>, events: seq<Event>, i: nat, c: Cid)
    requires IsRun(states, events) && i < |states| && c in states[i].chans
    ensures CloseInv(states[i], c)
  {
    if i > 0 {
      RunKeepsInv(states, events, i - 1);
      SameChannels(states[i - 1], events[i - 1], states[i]);
      CloseWakeup(states, events, i - 1, c);
      StepKeepsClose(states[i - 1], events[i - 1], states[i], c);
    }
  }

  lemma SameChannels(s: State, e: Event, s': State)
    requires Apply(s, e) == Some(s')
    ensures s'.chans.Keys == s.chans.Keys && s'.threads.Keys == s.threads.Keys
  {
    hide Bits.And, Local;
  }

  /** Close wakeup, for good: once a `notify_all` of `mark_closed` has run, no reader of
      the channel is parked, then or ever after. */
  lemma ClosedForGood(states: seq<State>, events: seq<Event>, i: nat, j: nat, c: Cid)
    requires IsRun(states, events) && i < j < |states|
    requires events[i].Broadcast? && events[i].t in states[i].threads
    requires states[i].threads[events[i].t].pc == NotifyAll(c)
    ensures c in states[j].chans && states[j].chans[c].closed && !SomeParked(states[j], c)
    decreases j
  {
    RunKeepsInv(states, events, i);
    assert ThreadOk(states[i].threads[events[i].t], states[i].chans.Keys);
    CloseWakeup(states, events, i, c);
    if j == i + 1 {
      assert Apply(states[i], events[i]) == Some(states[j]);
      assert Closing(states[i].threads[events[i].t], c);
      BroadcastWakesAll(states[i], events[i].t, states[j], c);
    } else {
      ClosedForGood(states, events, i, j - 1, c);
      RunKeepsInv(states, events, j - 1);
      CloseWakeup(states, events, j - 1, c);
      StaysUnparked(states[j - 1], events[j - 1], states[j], c);
    }
  }

  lemma StaysUnparked(s: State, e: Event, s': State, c: Cid)
    requires Inv(s) && Apply(s, e) == Some(s') && CloseInv(s, c)
    requires c in s.chans && s.chans[c].closed && !SomeParked(s, c)
    ensures c in s'.chans && s'.chans[c].closed && !SomeParked(s', c)
  {
    hide Inv, Apply;
    ClosedStored(s, e, s', c);
    forall u <- s'.threads
      ensures !ParkedOn(s'.threads[u], c)
    {
      Moves(s, e, s', c, u);
    }
  }

  // ------------------------------------------------------------- frame wakeup

  /** A blocked reader that was woken and has not yet looked at the queue again. */
  predicate IsWoken(th: Thread, c: Cid) {
    (th.pc.QWant? || th.pc.QHeld?) && th.pc.woken && th.pc.c == c
  }

  /** A push that enqueued and has not yet notified. */
  predicate IsPending(th: Thread, c: Cid) {
    th.pc == QDone(c, WakeOne) || th.pc == NotifyOne(c)
  }

  predicate Helps(th: Thread, c: Cid) { IsWoken(th, c) || IsPending(th, c) }

  /** The readers woken but not yet resumed and the pushes yet to notify. */
  function Helpers(s: State, c: Cid): set<Tid> {
    set t | t in s.threads && Helps(s.threads[t], c)
  }

  /** No frame is left for a sleeping reader without somebody under way to take it or
      to wake a reader for it. */
  ghost predicate NoLostWakeup(s: State, c: Cid) {
    c in s.chans && SomeParked(s, c) ==> |s.chans[c].q| <= |Helpers(s, c)|
  }

  /** Which threads may make blocking reads of channel `c`: those that may call
      `peek_wait` and those that may call `pop_wait`. */
  datatype Readers = Readers(c: Cid, peekers: set<Tid>, poppers: set<Tid>)

  predicate Starts(e: Event, c: Cid, op: QueueOp) { e.Begin? && e.call == QWant(c, op, false) }

  predicate Permits(rs: Readers, e: Event) {
    && (Starts(e, rs.c, PeekWait) ==> e.t in rs.peekers)
    && (Starts(e, rs.c, PopWait) ==> e.t in rs.poppers)
  }

  ghost predicate Follows(events: seq<Event>, rs: Readers) {
    forall i :: 0 <= i < |events| ==> Permits(rs, events[i])
  }

  /** Nobody peeks, or one thread does all the blocking reads. */
  predicate PeeksAlone(rs: Readers) { rs.peekers == {} || |rs.peekers + rs.poppers| <= 1 }

  /** In a blocking read `op` of `c`, before its condition is met. */
  predicate BlocksIn(th: Thread, c: Cid, op: QueueOp) {
    (th.pc.QWant? || th.pc.QHeld? || th.pc.QPark? || th.pc.Parked?) && th.pc.op == op && th.pc.c == c
  }

  predicate Fits(th: Thread, t: Tid, rs: Readers) {
    && (BlocksIn(th, rs.c, PeekWait) ==> t in rs.peekers)
    && (BlocksIn(th, rs.c, PopWait) ==> t in rs.poppers)
    && (IsWoken(th, rs.c) ==> th.pc.op.PopWait? || th.pc.op.PeekWait?)
  }

  ghost predicate FrameInv(s: State, rs: Readers) {
    && rs.c in s.chans
    && NoLostWakeup(s, rs.c)
    && (forall t <- s.threads :: Fits(s.threads[t], t, rs))
    && (forall t <- s.threads :: Parking(s.threads[t], rs.c) ==> s.chans[rs.c].q == [])
  }

  function Weight(th: Thread, c: Cid): nat { if Helps(th, c) then 1 else 0 }

  lemma RunBalanced(th: Thread, ch: Chan, h: Hint, c: Cid)
    requires th.pc.QHeld? && th.pc.c == c && (th.pc.woken ==> th.pc.op.PopWait?)
    ensures var (th', ch') := RunQ(th, ch, h);
      ch'.q == [] || |ch'.q| + Weight(th, c) <= |ch.q| + Weight(th', c)
  {}

  /** An acting thread that does not peek empties the queue, or changes its length by no
      more than it changes the number of helpers. */
  lemma ActBalanced(t: Tid, th: Thread, ch: Chan, h: Hint, rs: Readers)
    requires !th.pc.Idle? && th.pc.c == rs.c && Fits(th, t, rs) && !BlocksIn(th, rs.c, PeekWait)
    requires Local(t, th, ch, h).Some?
    ensures var (th', ch') := Local(t, th, ch, h).value;
      ch'.q == [] || |ch'.q| + Weight(th, rs.c) <= |ch.q| + Weight(th', rs.c)
  {
    hide Bits.And, Accepts, SetAccept, RunQ;
    if th.pc.QHeld? {
      RunBalanced(th, ch, h, rs.c);
    }
  }

  lemma ActFits(t: Tid, th: Thread, ch: Chan, h: Hint, rs: Readers)
    requires !th.pc.Idle? && Fits(th, t, rs) && Local(t, th, ch, h).Some?
    ensures Fits(Local(t, th, ch, h).value.0, t, rs)
  {
    hide Bits.And, Accepts, SetAccept;
  }

  lemma OneThreadChanges(s: State, s': State, c: Cid, t: Tid)
    requires s'.threads.Keys == s.threads.Keys && t in s.threads
    requires forall u <- s.threads :: u != t ==> Helps(s'.threads[u], c) == Helps(s.threads[u], c)
    ensures |Helpers(s', c)| + Weight(s.threads[t], c) == |Helpers(s, c)| + Weight(s'.threads[t], c)
  {
    hide Helps;
    var rest := Helpers(s, c) - {t};
    assert rest == Helpers(s', c) - {t};
    assert Helpers(s, c) == if Helps(s.threads[t], c) then rest + {t} else rest;
    assert Helpers(s', c) == if Helps(s'.threads[t], c) then rest + {t} else rest;
  }

  lemma ActKeepsCount(s: State, t: Tid, h: Hint, s': State, rs: Readers)
    requires Inv(s) && Apply(s, Act(t, h)) == Some(s') && FrameInv(s, rs)
    requires !BlocksIn(s.threads[t], rs.c, PeekWait)
    ensures rs.c in s'.chans && NoLostWakeup(s', rs.c)
  {
    var c := rs.c;
    var th := s.threads[t];
    assert ThreadOk(th, s.chans.Keys) && Fits(th, t, rs);
    if th.pc.c == c {
      ActBalanced(t, th, s.chans[c], h, rs);
    } else {
      LocalElsewhere(t, th, s.chans[th.pc.c], h, c);
    }
    hide Local, Bits.And, Fits;
    OneThreadChanges(s, s', c, t);
    if SomeParked(s', c) {
      var u :| u in s'.threads && ParkedOn(s'.threads[u], c);
      Moves(s, Act(t, h), s', c, u);
    }
  }

  lemma OneOf(a: set<Tid>, t: Tid, u: Tid)
    requires |a| <= 1 && t in a && u in a
    ensures t == u
  {
    var rest := a - {t};
    assert a == rest + {t};
    assert rest == {};
  }

  /** A lone peeker: only it can park, and it parks beside an empty queue. */
  lemma PeekKeepsCount(s: State, t: Tid, h: Hint, s': State, rs: Readers)
    requires Inv(s) && Apply(s, Act(t, h)) == Some(s') && FrameInv(s, rs) && PeeksAlone(rs)
    requires BlocksIn(s.threads[t], rs.c, PeekWait)
    ensures rs.c in s'.chans && NoLostWakeup(s', rs.c)
  {
    var c := rs.c;
    SameChannels(s, Act(t, h), s');
    assert Fits(s.threads[t], t, rs);
    if SomeParked(s', c) {
      var u :| u in s'.threads && ParkedOn(s'.threads[u], c);
      Moves(s, Act(t, h), s', c, u);
      OthersStay(s, t, h, s');
      assert ThreadOk(s.threads[u], s.chans.Keys) && Fits(s.threads[u], u, rs);
      OneOf(rs.peekers + rs.poppers, t, u);
      assert Parking(s.threads[t], c);
    }
  }

  lemma OthersStay(s: State, t: Tid, h: Hint, s': State)
    requires Apply(s, Act(t, h)) == Some(s')
    ensures forall u <- s.threads :: u != t ==> s'.threads[u] == s.threads[u]
    ensures !s.threads[t].pc.Parked?
  {
    hide FilterStep, QueueStep, RecordStep, CallbackStep;
  }

  lemma SignalKeepsCount(s: State, e: Event, s': State, rs: Readers)
    requires Inv(s) && Apply(s, e) == Some(s') && FrameInv(s, rs) && e.Signal?
    ensures NoLostWakeup(s', rs.c)
  {
    var c := rs.c;
    NoNewParked(s, e, s', c);
    var mid := if e.wake.None? then s
      else s.(threads := s.threads[e.wake.value := Woken(s.threads[e.wake.value])]);
    hide Fits, LockInv, ThreadOk;
    if e.wake.Some? {
      OneThreadChanges(s, mid, c, e.wake.value);
    }
    OneThreadChanges(mid, s', c, e.t);
  }

  lemma NoNewParked(s: State, e: Event, s': State, c: Cid)
    requires Apply(s, e) == Some(s') && !e.Act?
    ensures SomeParked(s', c) ==> SomeParked(s, c)
  {
    if SomeParked(s', c) {
      var u :| u in s'.threads && ParkedOn(s'.threads[u], c);
      assert ParkedOn(s.threads[u], c);
    }
  }

  lemma OtherKeepsCount(s: State, e: Event, s': State, rs: Readers)
    requires Inv(s) && Apply(s, e) == Some(s') && FrameInv(s, rs) && !e.Act? && !e.Signal?
    ensures NoLostWakeup(s', rs.c)
  {
    var c := rs.c;
    hide Fits, LockInv, ThreadOk;
    NoNewParked(s, e, s', c);
    if e.Broadcast? {
      var d := s.threads[e.t].pc.c;
      if d != c {
        assert Helpers(s', c) == Helpers(s, c);
      }
    } else {
      OneThreadChanges(s, s', c, e.t);
    }
  }

  lemma StepFits(s: State, e: Event, s': State, rs: Readers, u: Tid)
    requires Inv(s) && Apply(s, e) == Some(s') && Permits(rs, e)
    requires u in s.threads && u in s'.threads && Fits(s.threads[u], u, rs)
    ensures Fits(s'.threads[u], u, rs)
  {
    assert ThreadOk(s.threads[u], s.chans.Keys);
    hide Local, Bits.And, LockInv, Outermost;
    if e.Act? && u == e.t {
      ActFits(u, s.threads[u], s.chans[s.threads[u].pc.c], e.h, rs);
    }
  }

  lemma StepKeepsCount(s: State, e: Event, s': State, rs: Readers)
    requires Inv(s) && Apply(s, e) == Some(s') && FrameInv(s, rs) && PeeksAlone(rs)
    ensures rs.c in s'.chans && NoLostWakeup(s', rs.c)
  {
    SameChannels(s, e, s');
    hide Apply, NoLostWakeup;
    if e.Act? && !BlocksIn(s.threads[e.t], rs.c, PeekWait) {
      ActKeepsCount(s, e.t, e.h, s', rs);
    } else if e.Act? {
      PeekKeepsCount(s, e.t, e.h, s', rs);
    } else if e.Signal? {
      SignalKeepsCount(s, e, s', rs);
    } else {
      OtherKeepsCount(s, e, s', rs);
    }
  }

  lemma StepKeepsFrame(s: State, e: Event, s': State, rs: Readers)
    requires Inv(s) && Apply(s, e) == Some(s') && FrameInv(s, rs) && PeeksAlone(rs) && Permits(rs, e)
    ensures FrameInv(s', rs)
  {
    SameChannels(s, e, s');
    ActsFirst(s, e, s');
    StepKeepsCount(s, e, s', rs);
    var c := rs.c;
    QueueChanges(s, e, s', c);
    hide Apply, NoLostWakeup, Fits;
    forall u <- s'.threads
      ensures Parking(s'.threads[u], c) ==> s'.chans[c].q == []
      ensures Fits(s'.threads[u], u, rs)
    {
      StepFits(s, e, s', rs, u);
      Moves(s, e, s', c, u);
      if Parking(s.threads[u], c) && s'.chans[c].q != s.chans[c].q {
        QueueLockExcludes(s, c, e.t, u);
      }
    }
  }

  lemma ActsFirst(s: State, e: Event, s': State)
    requires Apply(s, e) == Some(s')
    ensures e.t in s.threads
  {}

  /** Only the holder of the queue lock changes the queue. */
  lemma QueueChanges(s: State, e: Event, s': State, c: Cid)
    requires Inv(s) && Apply(s, e) == Some(s') && c in s.chans && c in s'.chans
    ensures s'.chans[c].q != s.chans[c].q ==> Has(s.threads[e.t], c, QLock)
  {
    hide Local, Bits.And;
    if e.Act? && s.threads[e.t].pc.c == c {
      LocalMoves(e.t, s.threads[e.t], s.chans[c], e.h, c);
    }
  }

  /** Frame wakeup: where nobody peeks, or one thread does all the blocking reads, each
      reachable state has no parked reader or no more frames queued than helpers under
      way; whatever the time-outs, spurious wakeups, flushes and non-blocking reads. */
  lemma {:induction false} FrameWakeup(states: seq<State>, events: seq<Event>, i: nat, rs: Readers)
    requires IsRun(states, events) && i < |states| && rs.c in states[i].chans
    requires Follows(events, rs) && PeeksAlone(rs)
    ensures FrameInv(states[i], rs)
  {
    hide FrameInv, PeeksAlone;
    if i > 0 {
      RunKeepsInv(states, events, i - 1);
      SameChannels(states[i - 1], events[i - 1], states[i]);
      FrameWakeup(states, events, i - 1, rs);
      assert Permits(rs, events[i - 1]);
      StepKeepsFrame(states[i - 1], events[i - 1], states[i], rs);
    } else {
      FrameAtStart(states[0], rs);
    }
  }

  lemma FrameAtStart(s: State, rs: Readers)
    requires Init(s) && rs.c in s.chans
    ensures FrameInv(s, rs)
  {}
}
