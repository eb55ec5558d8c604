/** Where the two wakeup and drain guarantees stop: concrete runs beyond their
    conditions, and with them the exact conditions. */
module Limits {
  import opened Wire
  import opened Translate
  import opened Receiver
  import Drain
  import opened Wakeup

  ghost predicate Reaches(rs: Readers, states: seq<State>, events: seq<Event>, s: State) {
    IsRun(states, events) && Follows(events, rs) && states[|events|] == s
  }

  /** Reachable with no blocking read of `rs.c` but by its readers. */
  ghost predicate Reachable(rs: Readers, s: State) {
    exists states, events :: Reaches(rs, states, events, s)
  }

  lemma Start(rs: Readers, s: State)
    requires Init(s)
    ensures Reachable(rs, s)
  {
    assert Reaches(rs, [s], [], s);
  }

  lemma Extend(rs: Readers, s: State, e: Event, s': State)
    requires Reachable(rs, s) && Apply(s, e) == Some(s') && Permits(rs, e)
    ensures Reachable(rs, s')
  {
    var states, events :| Reaches(rs, states, events, s);
    assert Reaches(rs, states + [s'], events + [e], s');
  }

  /** `s` with thread `t` and channel `c` replaced. */
  function With(s: State, t: Tid, th: Thread, c: Cid, ch: Chan): State {
    State(s.threads[t := th], s.chans[c := ch])
  }

  /** One local step of thread `t` from a state described by its thread and channel. */
  lemma Acts(s: State, t: Tid, th: Thread, c: Cid, ch: Chan, h: Hint, th': Thread, ch': Chan)
    requires !th.pc.Idle? && th.pc.c == c && Local(t, th, ch, h) == Some((th', ch'))
    ensures Apply(With(s, t, th, c, ch), Act(t, h)) == Some(With(s, t, th', c, ch'))
  {
    hide Local;
    var s1 := With(s, t, th, c, ch);
    var s2 := With(s, t, th', c, ch');
    assert s1.threads[t := th'] == s2.threads && s1.chans[c := ch'] == s2.chans;
  }

  lemma StepsTo(rs: Readers, s: State, t: Tid, th: Thread, c: Cid, ch: Chan, h: Hint, th': Thread, ch': Chan)
    requires Reachable(rs, With(s, t, th, c, ch))
    requires !th.pc.Idle? && th.pc.c == c && Local(t, th, ch, h) == Some((th', ch'))
    ensures Reachable(rs, With(s, t, th', c, ch'))
  {
    hide Reachable, Local, Apply, With;
    Acts(s, t, th, c, ch, h, th', ch');
    Extend(rs, With(s, t, th, c, ch), Act(t, h), With(s, t, th', c, ch'));
  }

  lemma Begins(rs: Readers, s: State, t: Tid, th: Thread, c: Cid, ch: Chan, call: Pc)
    requires Reachable(rs, With(s, t, th, c, ch))
    requires th.pc.Idle? && Startable(th, call) && call.c == c && Permits(rs, Begin(t, call))
    ensures Reachable(rs, With(s, t, th.(pc := call), c, ch))
  {
    hide Reachable;
    var s1 := With(s, t, th, c, ch);
    var s2 := With(s, t, th.(pc := call), c, ch);
    assert s1.threads[t := th.(pc := call)] == s2.threads;
    Extend(rs, s1, Begin(t, call), s2);
  }

  const GO := Hint(false, 0)

  /** A reader runs into the condvar and parks. */
  lemma ReaderParks(rs: Readers, s: State, t: Tid, c: Cid, op: QueueOp)
    requires Reachable(rs, s) && t in s.threads && c in s.chans
    requires s.threads[t] == Thread(Idle, None) && s.chans[c] == NEW_CHAN
    requires (op == PopWait && t in rs.poppers) || (op == PeekWait && t in rs.peekers)
    ensures Reachable(rs, s.(threads := s.threads[t := Thread(Parked(c, op), None)]))
  {
    hide Reachable;
    var th, ch := Thread(Idle, None), NEW_CHAN;
    var held := ch.(qLock := Some(t));
    assert With(s, t, th, c, ch) == s;
    Begins(rs, s, t, th, c, ch, QWant(c, op, false));
    StepsTo(rs, s, t, Thread(QWant(c, op, false), None), c, ch, GO, Thread(QHeld(c, op, false), None), held);
    StepsTo(rs, s, t, Thread(QHeld(c, op, false), None), c, held, GO, Thread(QPark(c, op), None), held);
    StepsTo(rs, s, t, Thread(QPark(c, op), None), c, held, GO, Thread(Parked(c, op), None), ch);
    assert With(s, t, Thread(Parked(c, op), None), c, ch) == s.(threads := s.threads[t := Thread(Parked(c, op), None)]);
  }

  /** A push on a quiet, unfiltered channel enqueues and comes to its `notify_one`. */
  lemma PushEnqueues(rs: Readers, s: State, t: Tid, c: Cid, ch: Chan, f: Frame)
    requires Reachable(rs, With(s, t, Thread(Idle, None), c, ch))
    requires ch.filters == ACCEPT_ALL && ch.q == [] && ch.qLock.None? && ch.fLock.None?
    ensures Reachable(rs, With(s, t, Thread(NotifyOne(c), None), c, ch.(q := [f.(rxTime := 0)])))
  {
    hide Reachable, With;
    var g := f.(rxTime := 0);
    var locked := ch.(fLock := Some(t));
    var held := ch.(qLock := Some(t));
    AcceptsAll(f.canId);
    Begins(rs, s, t, Thread(Idle, None), c, ch, FWant(c, Check(f)));
    StepsTo(rs, s, t, Thread(FWant(c, Check(f)), None), c, ch, GO, Thread(FHeld(c, Check(f)), None), locked);
    StepsTo(rs, s, t, Thread(FHeld(c, Check(f)), None), c, locked, GO, Thread(FDone(c, Check(f), true), None), locked);
    StepsTo(rs, s, t, Thread(FDone(c, Check(f), true), None), c, locked, GO, Thread(QWant(c, Enqueue(g), false), None), ch);
    StepsTo(rs, s, t, Thread(QWant(c, Enqueue(g), false), None), c, ch, GO, Thread(QHeld(c, Enqueue(g), false), None), held);
    assert ch.q + [g] == [g];
    StepsTo(rs, s, t, Thread(QHeld(c, Enqueue(g), false), None), c, held, GO,
          Thread(QDone(c, WakeOne), None), held.(q := [g]));
    StepsTo(rs, s, t, Thread(QDone(c, WakeOne), None), c, held.(q := [g]), GO,
          Thread(NotifyOne(c), None), ch.(q := [g]));
  }

  lemma AcceptsAll(canId: u32)
    ensures Accepts(ACCEPT_ALL, canId)
  {}

  // ------------------------------------------------- peek_wait steals a wakeup

  const IDLE := Thread(Idle, None)

  /** A pusher, a blocked reader making call `op`, and a second reader in `peek_wait`. */
  datatype Cast = Cast(c: Cid, pusher: Tid, sleeper: Tid, peeker: Tid, op: QueueOp)

  predicate Plays(k: Cast, rs: Readers) {
    && k.pusher != k.sleeper && k.pusher != k.peeker && k.sleeper != k.peeker
    && k.c == rs.c && k.peeker in rs.peekers
    && ((k.op == PopWait && k.sleeper in rs.poppers) || (k.op == PeekWait && k.sleeper in rs.peekers))
  }

  function Scene(k: Cast, pusher: Pc, sleeper: Pc, peeker: Pc, ch: Chan): State {
    State(map[k.pusher := Thread(pusher, None), k.sleeper := Thread(sleeper, None), k.peeker := Thread(peeker, None)],
          map[k.c := ch])
  }

  const FULL := NEW_CHAN.(q := [DEFAULT_FRAME])

  lemma BothPark(rs: Readers, k: Cast)
    requires Plays(k, rs)
    ensures Reachable(rs, Scene(k, Idle, Parked(k.c, k.op), Parked(k.c, PeekWait), NEW_CHAN))
  {
    hide Reachable;
    var s0 := Scene(k, Idle, Idle, Idle, NEW_CHAN);
    Start(rs, s0);
    ReaderParks(rs, s0, k.sleeper, k.c, k.op);
    var s1 := Scene(k, Idle, Parked(k.c, k.op), Idle, NEW_CHAN);
    assert s1 == s0.(threads := s0.threads[k.sleeper := Thread(Parked(k.c, k.op), None)]);
    ReaderParks(rs, s1, k.peeker, k.c, PeekWait);
    assert s1.threads[k.peeker := Thread(Parked(k.c, PeekWait), None)]
        == Scene(k, Idle, Parked(k.c, k.op), Parked(k.c, PeekWait), NEW_CHAN).threads;
  }

  lemma PushNotifies(rs: Readers, k: Cast)
    requires Plays(k, rs)
    ensures Reachable(rs, Scene(k, NotifyOne(k.c), Parked(k.c, k.op), Parked(k.c, PeekWait), FULL))
  {
    hide Reachable, Apply;
    BothPark(rs, k);
    var s := Scene(k, Idle, Parked(k.c, k.op), Parked(k.c, PeekWait), NEW_CHAN);
    assert With(s, k.pusher, IDLE, k.c, NEW_CHAN) == s;
    PushEnqueues(rs, s, k.pusher, k.c, NEW_CHAN, DEFAULT_FRAME);
    assert With(s, k.pusher, Thread(NotifyOne(k.c), None), k.c, FULL)
        == Scene(k, NotifyOne(k.c), Parked(k.c, k.op), Parked(k.c, PeekWait), FULL);
  }

  lemma PushWakesPeeker(rs: Readers, k: Cast)
    requires Plays(k, rs)
    ensures Reachable(rs, Scene(k, CbWant(k.c), Parked(k.c, k.op), QWant(k.c, PeekWait, true), FULL))
  {
    hide Reachable;
    PushNotifies(rs, k);
    var s := Scene(k, NotifyOne(k.c), Parked(k.c, k.op), Parked(k.c, PeekWait), FULL);
    var s' := Scene(k, CbWant(k.c), Parked(k.c, k.op), QWant(k.c, PeekWait, true), FULL);
    assert s.threads[k.pusher := Thread(CbWant(k.c), None)][k.peeker := Woken(s.threads[k.peeker])] == s'.threads;
    Extend(rs, s, Signal(k.pusher, Some(k.peeker)), s');
  }

  /** Two readers are parked; a push wakes the one in `peek_wait`, which consumes
      nothing. The other sleeps on beside a queued frame. */
  lemma PeekStealsWakeup(rs: Readers, k: Cast) returns (s: State)
    requires Plays(k, rs)
    ensures Reachable(rs, s) && !NoLostWakeup(s, k.c)
    ensures s == Scene(k, CbWant(k.c), Parked(k.c, k.op), Idle, FULL)
  {
    hide Reachable, NoLostWakeup;
    PushWakesPeeker(rs, k);
    var c, p := k.c, k.peeker;
    var held := FULL.(qLock := Some(p));
    var s1 := Scene(k, CbWant(c), Parked(c, k.op), QWant(c, PeekWait, true), FULL);
    assert With(s1, p, Thread(QWant(c, PeekWait, true), None), c, FULL) == s1;
    s := Scene(k, CbWant(c), Parked(c, k.op), Idle, FULL);
    assert With(s1, p, IDLE, c, FULL) == s;
    AsleepBesideFrame(k);
    hide With, Scene;
    StepsTo(rs, s1, p, Thread(QWant(c, PeekWait, true), None), c, FULL, GO, Thread(QHeld(c, PeekWait, true), None), held);
    StepsTo(rs, s1, p, Thread(QHeld(c, PeekWait, true), None), c, held, GO, Thread(QDone(c, Return), None), held);
    StepsTo(rs, s1, p, Thread(QDone(c, Return), None), c, held, GO, IDLE, FULL);
  }

  lemma AsleepBesideFrame(k: Cast)
    requires k.pusher != k.sleeper && k.pusher != k.peeker && k.sleeper != k.peeker
    ensures !NoLostWakeup(Scene(k, CbWant(k.c), Parked(k.c, k.op), Idle, FULL), k.c)
  {
    var s := Scene(k, CbWant(k.c), Parked(k.c, k.op), Idle, FULL);
    assert ParkedOn(s.threads[k.sleeper], k.c);
    assert Helpers(s, k.c) == {};
  }

  /** A point of a run in which only `rs` makes blocking reads of its channel. */
  ghost predicate Point(rs: Readers, states: seq<State>, events: seq<Event>, i: nat) {
    && IsRun(states, events) && i < |states| && rs.c in states[i].chans
    && Follows(events, rs)
  }

  ghost predicate WakesForFrames(rs: Readers) {
    forall states, events, i :: Point(rs, states, events, i) ==> NoLostWakeup(states[i], rs.c)
  }

  /** A peeker with company: some two readers can be cast in the failing run. */
  lemma Casting(rs: Readers) returns (k: Cast)
    requires !PeeksAlone(rs)
    ensures Plays(k, rs)
  {
    var p :| p in rs.peekers;
    var all := rs.peekers + rs.poppers;
    assert all == (all - {p}) + {p};
    var r :| r in all - {p};
    k := Cast(rs.c, p + r + 1, r, p, if r in rs.poppers then PopWait else PeekWait);
  }

  /** The frame-wakeup guarantee holds in all runs exactly where nobody peeks or one
      thread does all the blocking reads of the channel. */
  lemma WakesForFramesExactly(rs: Readers)
    ensures WakesForFrames(rs) <==> rs.peekers == {} || |rs.peekers + rs.poppers| <= 1
  {
    if !PeeksAlone(rs) {
      var k := Casting(rs);
      var s := PeekStealsWakeup(rs, k);
      var states, events :| Reaches(rs, states, events, s);
      assert Point(rs, states, events, |events|);
      hide NoLostWakeup;
    } else {
      hide NoLostWakeup, PeeksAlone;
      forall states, events, i | Point(rs, states, events, i)
        ensures NoLostWakeup(states[i], rs.c)
      {
        FrameWakeup(states, events, i, rs);
      }
    }
  }

  // --------------------------------------- the drain skipped inside callbacks

  const ARMED := Notify(1, NOTIFY_RX, 0)
  const OFF := Notify(0, 0, 0)

  lemma IsArmed()
    ensures Armed(ARMED) && !Armed(OFF)
  {
    assert Bits.And(1, 1) == 1;
  }

  /** `set_notify` from a thread outside callbacks, uncontended. */
  lemma Arms(rs: Readers, s: State, t: Tid, c: Cid, ch: Chan, n: Notify)
    requires Reachable(rs, With(s, t, Thread(Idle, None), c, ch)) && ch.nLock.None? && ch.cbActive.None?
    ensures Reachable(rs, With(s, t, Thread(Idle, None), c, ch.(notify := n)))
  {
    hide Reachable, With;
    var held := ch.(nLock := Some(t));
    var stored := held.(notify := n);
    var freed := ch.(notify := n);
    var op := Store(n);
    Begins(rs, s, t, Thread(Idle, None), c, ch, NWant(c, op));
    StepsTo(rs, s, t, Thread(NWant(c, op), None), c, ch, GO, Thread(NHeld(c, op), None), held);
    StepsTo(rs, s, t, Thread(NHeld(c, op), None), c, held, GO, Thread(NDone(c, op, n), None), stored);
    StepsTo(rs, s, t, Thread(NDone(c, op, n), None), c, stored, GO, Thread(DWant(c), None), freed);
    StepsTo(rs, s, t, Thread(DWant(c), None), c, freed, GO, Thread(DHeld(c), None), freed.(cbActive := Some(t)));
    StepsTo(rs, s, t, Thread(DHeld(c), None), c, freed.(cbActive := Some(t)), GO, Thread(Idle, None), freed);
  }

  /** A push on an armed, quiet channel that nobody waits on enters the callback. */
  lemma PushEntersCallback(rs: Readers, s: State, t: Tid, c: Cid, ch: Chan)
    requires Reachable(rs, With(s, t, Thread(Idle, None), c, ch))
    requires ch == NEW_CHAN.(notify := ARMED)
    requires forall u <- s.threads :: u != t ==> !s.threads[u].pc.Parked?
    ensures Reachable(rs, With(s, t, Thread(Idle, Some(InCb(c, ARMED))), c,
                           ch.(q := [DEFAULT_FRAME], cbActive := Some(t))))
  {
    hide Reachable;
    PushEnqueues(rs, s, t, c, ch, DEFAULT_FRAME);
    var full := ch.(q := [DEFAULT_FRAME]);
    var s1 := With(s, t, Thread(NotifyOne(c), None), c, full);
    var s2 := With(s, t, Thread(CbWant(c), None), c, full);
    assert s1.threads[t := Thread(CbWant(c), None)] == s2.threads;
    Extend(rs, s1, Signal(t, None), s2);
    CallbackEntered(rs, s, t, c, ch);
  }

  lemma CallbackEntered(rs: Readers, s: State, t: Tid, c: Cid, ch: Chan)
    requires Reachable(rs, With(s, t, Thread(CbWant(c), None), c, ch.(q := [DEFAULT_FRAME])))
    requires ch == NEW_CHAN.(notify := ARMED)
    ensures Reachable(rs, With(s, t, Thread(Idle, Some(InCb(c, ARMED))), c,
                           ch.(q := [DEFAULT_FRAME], cbActive := Some(t))))
  {
    hide Reachable, With;
    var full := ch.(q := [DEFAULT_FRAME]);
    var active := full.(cbActive := Some(t));
    var held := active.(nLock := Some(t));
    IsArmed();
    StepsTo(rs, s, t, Thread(CbWant(c), None), c, full, GO, Thread(NWant(c, Load), None), active);
    StepsTo(rs, s, t, Thread(NWant(c, Load), None), c, active, GO, Thread(NHeld(c, Load), None), held);
    StepsTo(rs, s, t, Thread(NHeld(c, Load), None), c, held, GO, Thread(NDone(c, Load, ARMED), None), held);
    StepsTo(rs, s, t, Thread(NDone(c, Load, ARMED), None), c, held, GO, Thread(CbDecide(c, ARMED), None), active);
    StepsTo(rs, s, t, Thread(CbDecide(c, ARMED), None), c, active, GO, Thread(Idle, Some(InCb(c, ARMED))), active);
  }

  const CALLER := 1

  const ARMED_CHAN := NEW_CHAN.(notify := ARMED)

  /** Both threads run the armed callback of their channel: thread 0 of channel 0,
      `CALLER` of channel 1, where it is at `pc`. */
  function InCallbacks(pc: Pc, ch0: Chan): State {
    State(map[0 := Thread(Idle, Some(InCb(0, ARMED))), CALLER := Thread(pc, Some(InCb(1, ARMED)))],
          map[0 := ch0, 1 := ARMED_CHAN.(q := [DEFAULT_FRAME], cbActive := Some(CALLER))])
  }

  const BUSY := ARMED_CHAN.(q := [DEFAULT_FRAME], cbActive := Some(0))

  lemma BothArm(rs: Readers)
    ensures Reachable(rs, State(map[0 := IDLE, CALLER := IDLE], map[0 := ARMED_CHAN, 1 := ARMED_CHAN]))
  {
    hide Reachable;
    var threads := map[0 := IDLE, CALLER := IDLE];
    var s0 := State(threads, map[0 := NEW_CHAN, 1 := NEW_CHAN]);
    Start(rs, s0);
    assert With(s0, 0, IDLE, 0, NEW_CHAN) == s0;
    Arms(rs, s0, 0, 0, NEW_CHAN, ARMED);
    var s1 := State(threads, map[0 := ARMED_CHAN, 1 := NEW_CHAN]);
    assert With(s0, 0, IDLE, 0, ARMED_CHAN) == s1 == With(s1, CALLER, IDLE, 1, NEW_CHAN);
    Arms(rs, s1, CALLER, 1, NEW_CHAN, ARMED);
    assert With(s1, CALLER, IDLE, 1, ARMED_CHAN) == State(threads, map[0 := ARMED_CHAN, 1 := ARMED_CHAN]);
  }

  lemma BothEnter(rs: Readers)
    ensures Reachable(rs, InCallbacks(Idle, BUSY))
  {
    hide Reachable;
    BothArm(rs);
    var s2 := State(map[0 := IDLE, CALLER := IDLE], map[0 := ARMED_CHAN, 1 := ARMED_CHAN]);
    assert With(s2, 0, IDLE, 0, ARMED_CHAN) == s2;
    PushEntersCallback(rs, s2, 0, 0, ARMED_CHAN);
    var s3 := State(map[0 := Thread(Idle, Some(InCb(0, ARMED))), CALLER := IDLE], map[0 := BUSY, 1 := ARMED_CHAN]);
    assert With(s2, 0, Thread(Idle, Some(InCb(0, ARMED))), 0, BUSY) == s3 == With(s3, CALLER, IDLE, 1, ARMED_CHAN);
    PushEntersCallback(rs, s3, CALLER, 1, ARMED_CHAN);
    assert With(s3, CALLER, Thread(Idle, Some(InCb(1, ARMED))), 1,
                ARMED_CHAN.(q := [DEFAULT_FRAME], cbActive := Some(CALLER))) == InCallbacks(Idle, BUSY);
  }

  const STORING := BUSY.(nLock := Some(CALLER))

  /** Channels 0 and 1 both run their callbacks; the one on channel 1 goes to disarm
      channel 0 ... */
  lemma DisarmFromOtherCallback(rs: Readers)
    ensures Reachable(rs, InCallbacks(NHeld(0, Store(OFF)), STORING))
  {
    hide Reachable;
    BothEnter(rs);
    var s, cb := InCallbacks(Idle, BUSY), Some(InCb(1, ARMED));
    var op := Store(OFF);
    assert With(s, CALLER, Thread(Idle, cb), 0, BUSY) == s;
    assert With(s, CALLER, Thread(NHeld(0, op), cb), 0, STORING) == InCallbacks(NHeld(0, op), STORING);
    hide With;
    Begins(rs, s, CALLER, Thread(Idle, cb), 0, BUSY, NWant(0, op));
    StepsTo(rs, s, CALLER, Thread(NWant(0, op), cb), 0, BUSY, GO, Thread(NHeld(0, op), cb), STORING);
  }

  lemma InCallbacksWith(pc: Pc, ch: Chan)
    ensures With(InCallbacks(Idle, BUSY), CALLER, Thread(pc, Some(InCb(1, ARMED))), 0, ch) == InCallbacks(pc, ch)
  {}

  /** ... and returns from `set_notify` two steps later, while channel 0's callback is
      still executing. */
  lemma ReturnsUndrained()
    ensures Apply(InCallbacks(NHeld(0, Store(OFF)), STORING), Act(CALLER, GO))
         == Some(InCallbacks(NDone(0, Store(OFF), OFF), STORING.(notify := OFF)))
    ensures Apply(InCallbacks(NDone(0, Store(OFF), OFF), STORING.(notify := OFF)), Act(CALLER, GO))
         == Some(InCallbacks(Idle, BUSY.(notify := OFF)))
  {
    var op := Store(OFF);
    var any, cb := InCallbacks(Idle, BUSY), Some(InCb(1, ARMED));
    var stored, freed := STORING.(notify := OFF), BUSY.(notify := OFF);
    InCallbacksWith(NHeld(0, op), STORING);
    InCallbacksWith(NDone(0, op, OFF), stored);
    InCallbacksWith(Idle, freed);
    hide Apply, InCallbacks, With;
    Acts(any, CALLER, Thread(NHeld(0, op), cb), 0, STORING, GO, Thread(NDone(0, op, OFF), cb), stored);
    Acts(any, CALLER, Thread(NDone(0, op, OFF), cb), 0, stored, GO, Thread(Idle, cb), freed);
  }

  /** Where a `set_notify` on channel `c` is called from. */
  datatype Site = Outside | OwnCallback | OtherCallback

  function SiteOf(th: Thread, c: Cid): Site {
    if th.cb.None? then Outside else if th.cb.value.c == c then OwnCallback else OtherCallback
  }

  /** A `set_notify` call of thread `t`, from its store of `n` at step `i` to its return
      at step `j`, with `r` not stored meanwhile. */
  ghost predicate DisarmCall(states: seq<State>, events: seq<Event>, i: nat, j: nat, t: Tid, c: Cid,
                             n: Notify, r: Notify, site: Site) {
    && IsRun(states, events) && i < j < |states| && n != r
    && t in states[i].threads && states[i].threads[t].pc == NHeld(c, Store(n))
    && SiteOf(states[i].threads[t], c) == site
    && events[i].Act? && events[i].t == t
    && (forall x :: i < x < j ==> t in states[x].threads && !states[x].threads[t].pc.Idle?)
    && t in states[j].threads && states[j].threads[t].pc.Idle?
    && (forall x :: i < x < j ==> !Drain.Stores(states[x], events[x], c, r))
  }

  ghost predicate DrainGuaranteed(site: Site) {
    forall states, events, i, j, t, c, n, r :: DisarmCall(states, events, i, j, t, c, n, r, site)
      ==> Drain.QuietFor(states[j], c, r, t)
  }

  lemma CallerAt(pc: Pc, ch: Chan)
    ensures var s := InCallbacks(pc, ch);
      && CALLER in s.threads && s.threads[CALLER] == Thread(pc, Some(InCb(1, ARMED)))
      && (!pc.NHeld? ==> !Drain.Stores(s, Act(CALLER, GO), 0, ARMED))
  {}

  lemma UndrainedRun(rs: Readers, states: seq<State>, events: seq<Event>) returns (all: seq<State>, acts: seq<Event>, i: nat)
    requires Reaches(rs, states, events, InCallbacks(NHeld(0, Store(OFF)), STORING))
    ensures DisarmCall(all, acts, i, i + 2, CALLER, 0, OFF, ARMED, OtherCallback)
    ensures i + 2 < |all| && all[i + 2] == InCallbacks(Idle, BUSY.(notify := OFF))
  {
    ReturnsUndrained();
    hide Apply, InCallbacks, Drain.Stores;
    i := |events|;
    var s' := InCallbacks(NDone(0, Store(OFF), OFF), STORING.(notify := OFF));
    all := states + [s', InCallbacks(Idle, BUSY.(notify := OFF))];
    acts := events + [Act(CALLER, GO), Act(CALLER, GO)];
    assert all[i] == states[i] && all[i + 1] == s';
    assert acts[i] == acts[i + 1] == Act(CALLER, GO);
    assert IsRun(all, acts);
    CallerAt(NHeld(0, Store(OFF)), STORING);
    CallerAt(NDone(0, Store(OFF), OFF), STORING.(notify := OFF));
    CallerAt(Idle, BUSY.(notify := OFF));
  }

  /** That no other thread runs the replaced record after the return is guaranteed
      exactly where the caller is not inside a callback of another channel; disarming
      from the channel's own callback is safe, as that callback excludes every other. */
  lemma DrainGuaranteedExactly(site: Site)
    ensures DrainGuaranteed(site) <==> site != OtherCallback
  {
    if site == OtherCallback {
      var rs := Readers(0, {}, {});
      DisarmFromOtherCallback(rs);
      var states, events :| Reaches(rs, states, events, InCallbacks(NHeld(0, Store(OFF)), STORING));
      var all, acts, i := UndrainedRun(rs, states, events);
      assert Drain.Runs(all[i + 2].threads[0], 0, ARMED);
      assert !Drain.QuietFor(all[i + 2], 0, ARMED, CALLER);
    } else {
      forall states, events, i, j, t, c, n, r | DisarmCall(states, events, i, j, t, c, n, r, site)
        ensures Drain.QuietFor(states[j], c, r, t)
      {
        if site == Outside {
          Drain.DrainTheorem(states, events, i, j, j, t, c, n, r);
        } else {
          Drain.SelfDisarm(states, events, i, j, t, c, n, r);
        }
      }
    }
  }
}
