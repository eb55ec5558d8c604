/** The `cb_active` drain of `set_notify`: when it returns to a caller outside
    callbacks, the replaced callback is neither running nor about to run. */
module Drain {
  import opened Wire
  import opened Translate
  import opened Receiver

  /** Thread `th` is executing record `r`'s callback on channel `c`, or has read `r`
      and will decide whether to. */
  predicate Runs(th: Thread, c: Cid, r: Notify) {
    || (th.cb == Some(InCb(c, r)))
    || (th.pc.NDone? && th.pc.nop.Load? && th.pc.c == c && th.pc.n == r)
    || (th.pc.CbDecide? && th.pc.c == c && th.pc.n == r)
  }

  ghost predicate NobodyRuns(s: State, c: Cid, r: Notify) {
    forall t <- s.threads :: !Runs(s.threads[t], c, r)
  }

  /** `r` is not stored, nobody runs it: it can only come back by being stored again. */
  ghost predicate Retired(s: State, c: Cid, r: Notify) {
    c in s.chans && s.chans[c].notify != r && NobodyRuns(s, c, r)
  }

  /** The event is a `set_notify` storing `r` on channel `c`. */
  predicate Stores(s: State, e: Event, c: Cid, r: Notify) {
    e.Act? && e.t in s.threads && s.threads[e.t].pc == NHeld(c, Store(r))
  }

  lemma RecordKeeps(t: Tid, th: Thread, ch: Chan, r: Notify)
    requires RecordPc(th.pc) && RecordStep(t, th, ch).Some?
    requires ch.notify != r && th.pc != NHeld(th.pc.c, Store(r))
    ensures var (th', ch') := RecordStep(t, th, ch).value;
      ch'.notify != r && (Runs(th', th.pc.c, r) ==> Runs(th, th.pc.c, r)) && th'.cb == th.cb
  {}

  lemma CallbackKeeps(t: Tid, th: Thread, ch: Chan, r: Notify, chans: set<Cid>)
    requires CallbackPc(th.pc) && ThreadOk(th, chans) && CallbackStep(t, th, ch).Some?
    ensures var (th', ch') := CallbackStep(t, th, ch).value;
      && ch'.notify == ch.notify && (Runs(th', th.pc.c, r) ==> Runs(th, th.pc.c, r))
      && (th'.cb != th.cb ==> th'.cb.Some? && th'.cb.value.c == th.pc.c)
  {
    hide Bits.And;
  }

  lemma RestKeeps(t: Tid, th: Thread, ch: Chan, h: Hint, r: Notify, c: Cid)
    requires (FilterPc(th.pc) || QueuePc(th.pc)) && Local(t, th, ch, h).Some?
    ensures var (th', ch') := Local(t, th, ch, h).value;
      ch'.notify == ch.notify && th'.cb == th.cb && (Runs(th', c, r) ==> Runs(th, c, r))
  {
    hide Accepts, SetAccept, RecordStep, CallbackStep;
  }

  /** What a thread's own step does to record `r` of the channel it is at: it does not
      store it, unless it is a `set_notify` storing it, and does not come to run it. */
  lemma LocalKeeps(t: Tid, th: Thread, ch: Chan, h: Hint, r: Notify, chans: set<Cid>)
    requires !th.pc.Idle? && ThreadOk(th, chans) && Local(t, th, ch, h).Some?
    requires ch.notify != r && th.pc != NHeld(th.pc.c, Store(r))
    ensures var (th', ch') := Local(t, th, ch, h).value;
      ch'.notify != r && (Runs(th', th.pc.c, r) ==> Runs(th, th.pc.c, r))
  {
    hide FilterStep, QueueStep, RecordStep, CallbackStep, Runs, ThreadOk;
    if RecordPc(th.pc) {
      RecordKeeps(t, th, ch, r);
    } else if CallbackPc(th.pc) {
      CallbackKeeps(t, th, ch, r, chans);
    } else {
      RestKeeps(t, th, ch, h, r, th.pc.c);
    }
  }

  /** A step at another channel does not bring a thread to run a record of `c`. */
  lemma LocalElsewhere(t: Tid, th: Thread, ch: Chan, h: Hint, c: Cid, r: Notify, chans: set<Cid>)
    requires !th.pc.Idle? && th.pc.c != c && ThreadOk(th, chans) && Local(t, th, ch, h).Some?
    ensures Runs(Local(t, th, ch, h).value.0, c, r) ==> Runs(th, c, r)
  {
    LocalThread(t, th, ch, h, chans);
    hide Local, ThreadOk;
  }

  lemma NotStored(s: State, e: Event, s': State, c: Cid, r: Notify)
    requires Inv(s) && Apply(s, e) == Some(s') && c in s.chans
    requires s.chans[c].notify != r && !Stores(s, e, c, r)
    ensures c in s'.chans && s'.chans[c].notify != r
  {
    assert ThreadOk(s.threads[e.t], s.chans.Keys);
    hide Local, Inv, ThreadOk, Runs;
    if e.Act? && s.threads[e.t].pc.c == c {
      LocalKeeps(e.t, s.threads[e.t], s.chans[c], e.h, r, s.chans.Keys);
    }
  }

  /** Whoever runs `r` after a step ran it before. */
  lemma RunsBefore(s: State, e: Event, s': State, c: Cid, r: Notify, u: Tid)
    requires Inv(s) && Apply(s, e) == Some(s') && c in s.chans && u in s.threads && !Stores(s, e, c, r)
    requires s.chans[c].notify != r && Runs(s'.threads[u], c, r)
    ensures Runs(s.threads[u], c, r)
  {
    assert ThreadOk(s.threads[e.t], s.chans.Keys);
    hide Local, Inv, ThreadOk;
    if e.Act? && e.t == u {
      var th := s.threads[u];
      if th.pc.c == c {
        LocalKeeps(u, th, s.chans[c], e.h, r, s.chans.Keys);
      } else {
        LocalElsewhere(u, th, s.chans[th.pc.c], e.h, c, r, s.chans.Keys);
      }
    }
  }

  lemma StaysRetired(s: State, e: Event, s': State, c: Cid, r: Notify)
    requires Inv(s) && Apply(s, e) == Some(s') && Retired(s, c, r) && !Stores(s, e, c, r)
    ensures Retired(s', c, r)
  {
    NotStored(s, e, s', c, r);
    KeepsThreads(s, e, s');
    forall u <- s'.threads
      ensures !Runs(s'.threads[u], c, r)
    {
      if Runs(s'.threads[u], c, r) {
        RunsBefore(s, e, s', c, r, u);
      }
    }
  }

  lemma KeepsThreads(s: State, e: Event, s': State)
    requires Apply(s, e) == Some(s')
    ensures s'.threads.Keys == s.threads.Keys
  {
    hide Bits.And, Local;
  }

  /** A runner of any record holds `cb_active`; so once another thread has it, nobody
      runs anything. */
  lemma HolderExcludesRunners(s: State, c: Cid, t: Tid, r: Notify)
    requires Inv(s) && c in s.chans && s.chans[c].notify != r
    requires t in s.threads && s.threads[t].pc == DHeld(c)
    ensures Retired(s, c, r)
  {
    hide Bits.And;
    assert Owns(s, c, t, CbLock) && ThreadOk(s.threads[t], s.chans.Keys);
    forall u <- s.threads
      ensures !Runs(s.threads[u], c, r)
    {
      assert Owns(s, c, u, CbLock) && ThreadOk(s.threads[u], s.chans.Keys);
    }
  }

  /** Where thread `t` is between its store and its return. */
  ghost predicate Draining(s: State, t: Tid, c: Cid, r: Notify) {
    && c in s.chans && s.chans[c].notify != r && t in s.threads
    && s.threads[t].cb.None?
    && var pc := s.threads[t].pc;
       || (pc.NDone? && pc.nop.Store? && pc.c == c)
       || pc == DWant(c)
       || pc == DHeld(c)
  }

  lemma DrainStep(s: State, e: Event, s': State, t: Tid, c: Cid, r: Notify)
    requires Inv(s) && Apply(s, e) == Some(s') && Draining(s, t, c, r) && !Stores(s, e, c, r)
    ensures Draining(s', t, c, r) || (s'.threads[t].pc.Idle? && Retired(s', c, r))
  {
    hide Bits.And;
    NotStored(s, e, s', c, r);
    if s.threads[t].pc == DHeld(c) {
      HolderExcludesRunners(s, c, t, r);
      StaysRetired(s, e, s', c, r);
    }
    hide Retired;
  }

  /** Callback drain. A thread outside callbacks stores a record other than `r` at step
      `i`, and next finishes that `set_notify` call at step `j`. If nobody stores `r`
      again up to step `m`, then from the return on nobody is running `r`, or about to,
      and `r` is not armed. */
  lemma DrainTheorem(states: seq<State>, events: seq<Event>, i: nat, j: nat, m: nat, t: Tid, c: Cid, n: Notify, r: Notify)
    requires IsRun(states, events) && i < j <= m < |states|
    requires t in states[i].threads && states[i].threads[t] == Thread(NHeld(c, Store(n)), None)
    requires events[i].Act? && events[i].t == t && n != r
    requires forall x :: i < x < j ==> t in states[x].threads && !states[x].threads[t].pc.Idle?
    requires t in states[j].threads && states[j].threads[t].pc.Idle?
    requires forall x :: i < x < m ==> !Stores(states[x], events[x], c, r)
    ensures forall x :: j <= x <= m ==> Retired(states[x], c, r)
  {
    RunKeepsInv(states, events, i);
    assert ThreadOk(states[i].threads[t], states[i].chans.Keys);
    assert Draining(states[i + 1], t, c, r) by {
      assert Apply(states[i], events[i]) == Some(states[i + 1]);
    }
    var x := i + 1;
    while x < j
      invariant i < x <= j
      invariant Draining(states[x], t, c, r) || (x == j && Retired(states[j], c, r))
    {
      RunKeepsInv(states, events, x);
      DrainStep(states[x], events[x], states[x + 1], t, c, r);
      x := x + 1;
    }
    assert Retired(states[j], c, r);
    while x < m
      invariant j <= x <= m
      invariant forall y :: j <= y <= x ==> Retired(states[y], c, r)
    {
      RunKeepsInv(states, events, x);
      StaysRetired(states[x], events[x], states[x + 1], c, r);
      x := x + 1;
    }
  }

  // ------------------------------------------------ disarming from a callback

  /** `r` is not stored and no thread but `t` runs it, or is about to. */
  ghost predicate QuietFor(s: State, c: Cid, r: Notify, t: Tid) {
    && c in s.chans && s.chans[c].notify != r
    && forall u <- s.threads :: u != t ==> !Runs(s.threads[u], c, r)
  }

  /** A call made inside a callback stays inside it. */
  lemma StaysInCallback(s: State, e: Event, s': State, t: Tid)
    requires Inv(s) && Apply(s, e) == Some(s') && t in s.threads
    requires s.threads[t].cb.Some? && !s.threads[t].pc.Idle?
    ensures t in s'.threads && s'.threads[t].cb == s.threads[t].cb
  {
    hide Bits.And, Accepts, SetAccept, LockInv;
    assert ThreadOk(s.threads[t], s.chans.Keys);
  }

  /** A running callback holds `cb_active`, so it excludes every other run of the
      channel's callback. */
  lemma CallbackExcludes(s: State, c: Cid, t: Tid, r: Notify)
    requires Inv(s) && c in s.chans && s.chans[c].notify != r
    requires t in s.threads && s.threads[t].cb.Some? && s.threads[t].cb.value.c == c
    ensures QuietFor(s, c, r, t)
  {
    hide Bits.And;
    assert Owns(s, c, t, CbLock) && ThreadOk(s.threads[t], s.chans.Keys);
    forall u <- s.threads | u != t
      ensures !Runs(s.threads[u], c, r)
    {
      assert Owns(s, c, u, CbLock) && ThreadOk(s.threads[u], s.chans.Keys);
    }
  }

  /** A callback that replaces its own channel's record: the drain is skipped, but at the
      return no other thread runs the replaced record or is about to. */
  lemma SelfDisarm(states: seq<State>, events: seq<Event>, i: nat, j: nat, t: Tid, c: Cid, n: Notify, r: Notify)
    requires IsRun(states, events) && i < j < |states| && n != r
    requires t in states[i].threads && states[i].threads[t].pc == NHeld(c, Store(n))
    requires states[i].threads[t].cb.Some? && states[i].threads[t].cb.value.c == c
    requires events[i].Act? && events[i].t == t
    requires forall x :: i < x < j ==> t in states[x].threads && !states[x].threads[t].pc.Idle?
    requires forall x :: i < x < j ==> !Stores(states[x], events[x], c, r)
    ensures QuietFor(states[j], c, r, t)
  {
    hide Apply, Stores, QuietFor, Inv;
    RunKeepsInv(states, events, i);
    StoresIt(states[i], events[i], states[i + 1], t, c, n);
    StaysInCallback(states[i], events[i], states[i + 1], t);
    var x := i + 1;
    while x < j
      invariant i < x <= j
      invariant t in states[x].threads && states[x].threads[t].cb == states[i].threads[t].cb
      invariant c in states[x].chans && states[x].chans[c].notify != r
    {
      RunKeepsInv(states, events, x);
      NotStored(states[x], events[x], states[x + 1], c, r);
      StaysInCallback(states[x], events[x], states[x + 1], t);
      x := x + 1;
    }
    RunKeepsInv(states, events, j);
    CallbackExcludes(states[j], c, t, r);
  }

  lemma StoresIt(s: State, e: Event, s': State, t: Tid, c: Cid, n: Notify)
    requires Inv(s) && Apply(s, e) == Some(s') && e.Act? && e.t == t
    requires t in s.threads && s.threads[t].pc == NHeld(c, Store(n))
    ensures c in s'.chans && s'.chans[c].notify == n
  {}
}
