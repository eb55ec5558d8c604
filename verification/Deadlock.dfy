/** Deadlock freedom of the four locks of every channel, callbacks included, and with it
    that every call can be brought to its end. */
module Deadlock {
  import opened Wire
  import opened Receiver
  import opened Sums

  /** A reader outside callbacks, waiting for a frame: it is allowed to wait. */
  predicate Resting(th: Thread) { th.pc.Parked? && th.cb.None? }

  /** In the middle of a call or of a callback, and not resting. */
  predicate Busy(th: Thread) { (!th.pc.Idle? || th.cb.Some?) && !Resting(th) }

  /** Steps that finish what is under way: no new call, and no time-out except of a
      read made inside a callback, whose duration is zero. */
  predicate Progress(s: State, e: Event) {
    && !e.Begin? && e.t in s.threads
    && (e.Wake? ==> s.threads[e.t].cb.Some?)
    && (e.Act? ==> (e.h.timedOut <==> s.threads[e.t].cb.Some?))
  }

  ghost predicate CanProgress(s: State) {
    exists e :: Progress(s, e) && Apply(s, e).Some?
  }

  function HintFor(th: Thread): Hint { Hint(th.cb.Some?, 0) }

  lemma ActsUnless(s: State, t: Tid)
    requires Inv(s) && t in s.threads && !s.threads[t].pc.Idle?
    requires Local(t, s.threads[t], s.chans[s.threads[t].pc.c], HintFor(s.threads[t])).Some?
    ensures CanProgress(s)
  {
    var e := Act(t, HintFor(s.threads[t]));
    assert ThreadOk(s.threads[t], s.chans.Keys);
    assert Progress(s, e) && Apply(s, e).Some?;
  }

  /** The holder of a filter, queue or notify lock can always take its next step. */
  lemma LeafHolder(s: State, c: Cid, k: Lock)
    requires Inv(s) && c in s.chans && k != CbLock && Holder(s.chans[c], k).Some?
    ensures CanProgress(s)
  {
    var u := Holder(s.chans[c], k).value;
    assert Owns(s, c, u, k);
    ActsUnless(s, u);
  }

  lemma Signaller(s: State, t: Tid)
    requires Inv(s) && t in s.threads && s.threads[t].pc.NotifyOne?
    ensures CanProgress(s)
  {
    var c := s.threads[t].pc.c;
    var e := Signal(t, None);
    if exists u <- s.threads :: ParkedOn(s.threads[u], c) {
      var u :| u in s.threads && ParkedOn(s.threads[u], c);
      e := Signal(t, Some(u));
    }
    assert Progress(s, e) && Apply(s, e).Some?;
  }

  /** Any busy thread not waiting for `cb_active` leads to a possible step: its own, or
      that of the holder of the leaf lock it waits for. */
  lemma LeafBusy(s: State, t: Tid)
    requires Inv(s) && t in s.threads && Busy(s.threads[t])
    requires !s.threads[t].pc.CbWant? && !s.threads[t].pc.DWant?
    ensures CanProgress(s)
  {
    var th := s.threads[t];
    assert ThreadOk(th, s.chans.Keys);
    if th.pc.Idle? {
      assert Apply(s, EndCallback(t)).Some?;
    } else if th.pc.Parked? {
      assert Apply(s, Event.Wake(t)).Some?;
    } else if th.pc.NotifyOne? {
      Signaller(s, t);
    } else if th.pc.NotifyAll? {
      assert Apply(s, Broadcast(t)).Some?;
    } else if th.pc.FWant? && s.chans[th.pc.c].fLock.Some? {
      LeafHolder(s, th.pc.c, FLock);
    } else if th.pc.QWant? && s.chans[th.pc.c].qLock.Some? {
      LeafHolder(s, th.pc.c, QLock);
    } else if th.pc.NWant? && s.chans[th.pc.c].nLock.Some? {
      LeafHolder(s, th.pc.c, NLock);
    } else {
      ActsUnless(s, t);
    }
  }

  /** In every reachable state with a thread in the middle of a call, some call can go
      on, without any time-out of a blocked reader. A waiter for `cb_active` waits for
      a thread that needs at most one leaf lock and never `cb_active` itself, because a
      callback skips the drain. */
  lemma DeadlockFree(states: seq<State>, events: seq<Event>, i: nat, t: Tid)
    requires IsRun(states, events) && i < |states|
    requires t in states[i].threads && Busy(states[i].threads[t])
    ensures CanProgress(states[i])
  {
    RunKeepsInv(states, events, i);
    var s := states[i];
    var th := s.threads[t];
    assert ThreadOk(th, s.chans.Keys);
    if th.pc.CbWant? || th.pc.DWant? {
      var c := th.pc.c;
      if s.chans[c].cbActive.Some? {
        var u := s.chans[c].cbActive.value;
        assert Holder(s.chans[c], CbLock).Some?;
        assert Owns(s, c, u, CbLock) && ThreadOk(s.threads[u], s.chans.Keys);
        LeafBusy(s, u);
      } else {
        ActsUnless(s, t);
      }
    } else {
      LeafBusy(s, t);
    }
  }

  // ------------------------------------------------------- every call can end

  /** How many steps a woken reader may have to go again before it parks. */
  const AGAIN := 3

  /** Steps a thread has left in its call, of `n` threads in all. A `notify_one` gives
      one reader some steps back, a `notify_all` up to `n` of them, and pays for them. */
  function PcRank(pc: Pc, inCb: bool, n: nat): nat {
    match pc
    case Idle => 0
    case FWant(_, op) => FilterRank(op) + 2
    case FHeld(_, op) => FilterRank(op) + 1
    case FDone(_, op, _) => FilterRank(op)
    case QWant(_, op, _) => HeldRank(op, n) + 1
    case QHeld(_, op, _) => HeldRank(op, n)
    case QPark(_, _) => if inCb then 7 else 3
    case Parked(_, _) => if inCb then 6 else 2
    case QDone(_, after) => AfterRank(after, n)
    case NotifyOne(_) => 12
    case NotifyAll(_) => n * AGAIN + 1
    case ResetLatch(_) => 2
    case CbWant(_) => 8
    case CbDecide(_, _) => 4
    case CbRelease(_) => 1
    case NWant(_, op) => if op.Load? then 7 else 5
    case NHeld(_, op) => if op.Load? then 6 else 4
    case NDone(_, op, _) => if op.Load? then 5 else 3
    case DWant(_) => 2
    case DHeld(_) => 1
  }

  function FilterRank(op: FilterOp): nat { if op.Check? then 16 else 1 }

  function HeldRank(op: QueueOp, n: nat): nat {
    match op
    case Enqueue(_) => 14
    case MarkClosed => n * AGAIN + 3
    case _ => 4
  }

  function AfterRank(a: After, n: nat): nat {
    match a
    case Return => 1
    case WakeOne => 13
    case WakeAll => n * AGAIN + 2
    case Unlatch => 3
  }

  /** A callback under way has its own end and the push's release still to come. */
  function Rank(th: Thread, n: nat): nat { PcRank(th.pc, th.cb.Some?, n) + if th.cb.Some? then 2 else 0 }

  function Ranks(s: State): (r: map<nat, nat>)
    ensures r.Keys == s.threads.Keys && |r| == |s.threads|
  {
    var r := map t | t in s.threads :: Rank(s.threads[t], |s.threads|);
    assert r.Keys == s.threads.Keys && |r.Keys| == |r| && |s.threads.Keys| == |s.threads|;
    r
  }

  lemma FilterFalls(t: Tid, th: Thread, ch: Chan, h: Hint, n: nat)
    requires FilterPc(th.pc) && FilterStep(t, th, ch, h).Some?
    ensures Rank(FilterStep(t, th, ch, h).value.0, n) < Rank(th, n)
  {
    hide Translate.Accepts, Translate.SetAccept;
  }

  lemma QueueFalls(t: Tid, th: Thread, ch: Chan, h: Hint, n: nat, chans: set<Cid>)
    requires QueuePc(th.pc) && ThreadOk(th, chans) && QueueStep(t, th, ch, h).Some?
    requires h.timedOut <==> th.cb.Some?
    ensures Rank(QueueStep(t, th, ch, h).value.0, n) < Rank(th, n)
  {
    hide Bits.And;
  }

  lemma RecordFalls(t: Tid, th: Thread, ch: Chan, n: nat)
    requires RecordPc(th.pc) && RecordStep(t, th, ch).Some?
    ensures Rank(RecordStep(t, th, ch).value.0, n) < Rank(th, n)
  {}

  lemma CallbackFalls(t: Tid, th: Thread, ch: Chan, n: nat, chans: set<Cid>)
    requires CallbackPc(th.pc) && ThreadOk(th, chans) && CallbackStep(t, th, ch).Some?
    ensures Rank(CallbackStep(t, th, ch).value.0, n) < Rank(th, n)
  {
    hide Bits.And;
  }

  lemma LocalFalls(t: Tid, th: Thread, ch: Chan, h: Hint, n: nat, chans: set<Cid>)
    requires ThreadOk(th, chans) && Local(t, th, ch, h).Some? && (h.timedOut <==> th.cb.Some?)
    ensures Rank(Local(t, th, ch, h).value.0, n) < Rank(th, n)
  {
    hide FilterStep, QueueStep, RecordStep, CallbackStep, Rank, ThreadOk;
    if FilterPc(th.pc) {
      FilterFalls(t, th, ch, h, n);
    } else if QueuePc(th.pc) {
      QueueFalls(t, th, ch, h, n, chans);
    } else if RecordPc(th.pc) {
      RecordFalls(t, th, ch, n);
    } else {
      CallbackFalls(t, th, ch, n, chans);
    }
  }

  lemma SameThreads(s: State, s': State)
    requires s'.threads.Keys == s.threads.Keys
    ensures |s'.threads| == |s.threads|
  {
    assert |s'.threads.Keys| == |s'.threads| && |s.threads.Keys| == |s.threads|;
  }

  lemma ActFalls(s: State, e: Event, s': State)
    requires Inv(s) && Apply(s, e) == Some(s') && Progress(s, e) && e.Act?
    ensures Sum(Ranks(s')) < Sum(Ranks(s))
  {
    var t, th := e.t, s.threads[e.t];
    assert ThreadOk(th, s.chans.Keys);
    hide Local, Rank, LockInv, ThreadOk;
    LocalFalls(t, th, s.chans[th.pc.c], e.h, |s.threads|, s.chans.Keys);
    assert s'.threads.Keys == s.threads.Keys;
    SameThreads(s, s');
    SumFalls(Ranks(s), Ranks(s'), t, 0);
  }

  /** A woken reader has at most `AGAIN` more steps than it had. */
  lemma WokenRank(th: Thread, n: nat, chans: set<Cid>)
    requires th.pc.Parked? && ThreadOk(th, chans)
    ensures Rank(Woken(th), n) <= Rank(th, n) + AGAIN
    ensures th.cb.Some? ==> Rank(Woken(th), n) < Rank(th, n)
  {}

  lemma NotifierRank(th: Thread, n: nat)
    requires th.pc.NotifyOne?
    ensures Rank(th.(pc := CbWant(th.pc.c)), n) + 4 == Rank(th, n)
  {}

  lemma OneRank(s: State, t: Tid, th: Thread)
    requires t in s.threads
    ensures Ranks(s.(threads := s.threads[t := th])) == Ranks(s)[t := Rank(th, |s.threads|)]
  {
    hide Rank;
    SameThreads(s, s.(threads := s.threads[t := th]));
  }

  lemma SignalFalls(s: State, e: Event, s': State)
    requires Inv(s) && Apply(s, e) == Some(s') && e.Signal?
    ensures Sum(Ranks(s')) < Sum(Ranks(s))
  {
    var t, n := e.t, |s.threads|;
    var th := s.threads[t];
    var done := th.(pc := CbWant(th.pc.c));
    RankAt(s, t);
    var mid := s.(threads := s.threads[t := done]);
    SameThreads(s, mid);
    NotifierRank(th, n);
    OneRank(s, t, done);
    SumChange(Ranks(s), t, Rank(done, n));
    if e.wake.Some? {
      var u := e.wake.value;
      var reader := s.threads[u];
      assert ThreadOk(reader, s.chans.Keys) && reader.pc.Parked?;
      assert s' == mid.(threads := mid.threads[u := Woken(reader)]);
      hide Apply, Inv, Rank, Ranks;
      WokenRank(reader, n, s.chans.Keys);
      OneRank(mid, u, Woken(reader));
      SumChange(Ranks(mid), u, Rank(Woken(reader), n));
      RankAt(mid, u);
    } else {
      assert s' == mid;
    }
  }

  lemma RankAt(s: State, t: Tid)
    requires t in s.threads
    ensures Ranks(s)[t] == Rank(s.threads[t], |s.threads|)
  {}

  lemma BroadcastFalls(s: State, e: Event, s': State)
    requires Inv(s) && Apply(s, e) == Some(s') && e.Broadcast?
    ensures Sum(Ranks(s')) < Sum(Ranks(s))
  {
    var t, n := e.t, |s.threads|;
    assert s'.threads.Keys == s.threads.Keys;
    SameThreads(s, s');
    assert Rank(s'.threads[t], n) + n * AGAIN < Rank(s.threads[t], n);
    forall u | u in s.threads && u != t
      ensures Rank(s'.threads[u], n) <= Rank(s.threads[u], n) + AGAIN
    {
      assert ThreadOk(s.threads[u], s.chans.Keys);
      if s.threads[u].pc.Parked? {
        WokenRank(s.threads[u], n, s.chans.Keys);
      }
      hide Rank;
    }
    hide Rank, Inv;
    SumFalls(Ranks(s), Ranks(s'), t, AGAIN);
  }

  lemma AloneFalls(s: State, e: Event, s': State)
    requires Inv(s) && Apply(s, e) == Some(s') && Progress(s, e) && (e.Wake? || e.EndCallback?)
    ensures Sum(Ranks(s')) < Sum(Ranks(s))
  {
    assert s'.threads.Keys == s.threads.Keys;
    SameThreads(s, s');
    assert ThreadOk(s.threads[e.t], s.chans.Keys);
    if e.Wake? {
      WokenRank(s.threads[e.t], |s.threads|, s.chans.Keys);
    }
    assert Rank(s'.threads[e.t], |s.threads|) < Rank(s.threads[e.t], |s.threads|);
    hide Rank, Inv;
    SumFalls(Ranks(s), Ranks(s'), e.t, 0);
  }

  /** Every step that finishes something leaves less to do. */
  lemma ProgressFalls(s: State, e: Event, s': State)
    requires Inv(s) && Apply(s, e) == Some(s') && Progress(s, e)
    ensures Sum(Ranks(s')) < Sum(Ranks(s)) && s'.threads.Keys == s.threads.Keys
  {
    ThreadsStay(s, e, s');
    hide Apply, Inv, Ranks;
    match e
    case Act(_, _) => ActFalls(s, e, s');
    case Signal(_, _) => SignalFalls(s, e, s');
    case Broadcast(_) => BroadcastFalls(s, e, s');
    case _ => AloneFalls(s, e, s');
  }

  lemma ThreadsStay(s: State, e: Event, s': State)
    requires Apply(s, e) == Some(s')
    ensures s'.threads.Keys == s.threads.Keys
  {
    hide Local, Bits.And;
  }

  ghost predicate OnlyProgress(states: seq<State>, events: seq<Event>, i: nat) {
    |states| == |events| + 1 && forall j :: i <= j < |events| ==> Progress(states[j], events[j])
  }

  /** Every call comes to its end, callbacks included: any run can be continued, by steps
      that only finish what is under way, without a new call or the time-out of a blocked
      reader, to a state where thread `t` has returned, out of its callback too, or rests
      in a blocking read. Each such step leaves less to do, so no
      choice of them puts it off. */
  lemma {:induction false} CallsEnd(states: seq<State>, events: seq<Event>, t: Tid)
    returns (all: seq<State>, acts: seq<Event>)
    requires IsRun(states, events) && t in states[|events|].threads
    ensures IsRun(all, acts) && states <= all && events <= acts && OnlyProgress(all, acts, |events|)
    ensures t in all[|acts|].threads && !Busy(all[|acts|].threads[t])
    decreases Sum(Ranks(states[|events|]))
  {
    hide Apply, Progress, Ranks, Busy;
    all, acts := states, events;
    var s := states[|events|];
    if Busy(s.threads[t]) {
      DeadlockFree(states, events, |events|, t);
      RunKeepsInv(states, events, |events|);
      var e :| Progress(s, e) && Apply(s, e).Some?;
      var s' := Apply(s, e).value;
      ProgressFalls(s, e, s');
      all, acts := CallsEnd(states + [s'], events + [e], t);
      assert all[|events|] == s && acts[|events|] == e;
    }
  }
}
