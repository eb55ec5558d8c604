/** The receive side of src/transport.rs as a step system: any number of channels and
    threads, where one step is one lock acquire or release, one critical-section body,
    one atomic store, one condvar park or wake, or one callback entry or exit.

    A thread runs a push (the receive loops), a read, a filter, flush, level or close
    call, or `set_notify`; a thread inside a notify callback may run any of these
    except a push, on any channel. */
module Receiver {
  import opened Bits
  import opened Wire
  import opened Translate

  const RING_CAP := 8192
  const NOTIFY_RX: u32 := 1

  type Tid = nat
  type Cid = nat

  datatype Notify = Notify(cb: nat, flags: u32, tag: nat)

  predicate Armed(n: Notify) { n.cb != 0 && And(n.flags, NOTIFY_RX) != 0 }

  /** One channel's `Shared`: the data and the holder of each of its four locks. */
  datatype Chan = Chan(q: seq<Frame>, closed: bool, overflow: bool, filters: Accept, notify: Notify,
                       qLock: Option<Tid>, fLock: Option<Tid>, nLock: Option<Tid>, cbActive: Option<Tid>)

  const NEW_CHAN := Chan([], false, false, ACCEPT_ALL, Notify(0, 0, 0), None, None, None, None)

  /** What is done under each lock. */
  datatype FilterOp = Check(f: Frame) | Direct(d: Directive)
  datatype QueueOp = Enqueue(f: Frame) | Pop | PopWait | PeekWait | Clear | Level | MarkClosed
  datatype NotifyOp = Load | Store(n: Notify)

  /** What follows the release of the queue lock. */
  datatype After = Return | WakeOne | WakeAll | Unlatch

  datatype Pc =
    | Idle
    | FWant(c: Cid, fop: FilterOp) | FHeld(c: Cid, fop: FilterOp) | FDone(c: Cid, fop: FilterOp, pass: bool)
    | QWant(c: Cid, op: QueueOp, woken: bool) | QHeld(c: Cid, op: QueueOp, woken: bool)
    | QPark(c: Cid, op: QueueOp) | Parked(c: Cid, op: QueueOp) | QDone(c: Cid, after: After)
    | NotifyOne(c: Cid) | NotifyAll(c: Cid) | ResetLatch(c: Cid)
    | CbWant(c: Cid) | CbDecide(c: Cid, n: Notify) | CbRelease(c: Cid)
    | NWant(c: Cid, nop: NotifyOp) | NHeld(c: Cid, nop: NotifyOp) | NDone(c: Cid, nop: NotifyOp, n: Notify)
    | DWant(c: Cid) | DHeld(c: Cid)

  /** The callback a thread is inside: its channel and the record it was read from. */
  datatype InCb = InCb(c: Cid, n: Notify)

  datatype Thread = Thread(pc: Pc, cb: Option<InCb>)

  datatype State = State(threads: map<Tid, Thread>, chans: map<Cid, Chan>)

  // ------------------------------------------------------------------- steps

  /** What the environment settles in a step: whether a wait's time is up, and the
      receive clock. */
  datatype Hint = Hint(timedOut: bool, now: nat)

  /** The body of a critical section on the queue. */
  function RunQ(th: Thread, ch: Chan, h: Hint): (Thread, Chan)
    requires th.pc.QHeld?
  {
    var c := th.pc.c;
    match th.pc.op
    case Enqueue(f) =>
      if |ch.q| >= RING_CAP then (th.(pc := QDone(c, Return)), ch.(overflow := true))
      else (th.(pc := QDone(c, WakeOne)), ch.(q := ch.q + [f]))
    case Pop => (th.(pc := QDone(c, Return)), ch.(q := if ch.q == [] then [] else ch.q[1..]))
    case PopWait =>
      if ch.q == [] && !ch.closed then
        (th.(pc := if h.timedOut then QDone(c, Return) else QPark(c, PopWait)), ch)
      else (th.(pc := QDone(c, Return)), ch.(q := if ch.q == [] then [] else ch.q[1..]))
    case PeekWait =>
      if ch.q == [] && !ch.closed && !h.timedOut then (th.(pc := QPark(c, PeekWait)), ch)
      else (th.(pc := QDone(c, Return)), ch)
    case Clear => (th.(pc := QDone(c, Unlatch)), ch.(q := []))
    case Level => (th.(pc := QDone(c, Return)), ch)
    case MarkClosed => (th.(pc := QDone(c, WakeAll)), ch.(closed := true))
  }

  function AfterQ(c: Cid, a: After): Pc {
    match a
    case Return => Idle
    case WakeOne => NotifyOne(c)
    case WakeAll => NotifyAll(c)
    case Unlatch => ResetLatch(c)
  }

  /** Steps on the filter lock: the check that opens a push, and `canAccept`. */
  function FilterStep(t: Tid, th: Thread, ch: Chan, h: Hint): Option<(Thread, Chan)>
    requires FilterPc(th.pc)
  {
    match th.pc
    case FWant(c, op) =>
      if ch.fLock.None? then Some((th.(pc := FHeld(c, op)), ch.(fLock := Some(t)))) else None
    case FHeld(c, op) =>
      (match op
       case Check(f) => Some((th.(pc := FDone(c, op, Accepts(ch.filters, f.canId))), ch))
       case Direct(d) => Some((th.(pc := FDone(c, op, false)), ch.(filters := SetAccept(ch.filters, d)))))
    case FDone(c, op, pass) =>
      var next := if op.Check? && pass then QWant(c, Enqueue(op.f.(rxTime := h.now)), false) else Idle;
      Some((th.(pc := next), ch.(fLock := None)))
  }

  /** Steps on the queue lock, and the latch reset that follows a flush. */
  function QueueStep(t: Tid, th: Thread, ch: Chan, h: Hint): Option<(Thread, Chan)>
    requires QueuePc(th.pc)
  {
    match th.pc
    case QWant(c, op, w) =>
      if ch.qLock.None? then Some((th.(pc := QHeld(c, op, w)), ch.(qLock := Some(t)))) else None
    case QHeld(_, _, _) => Some(RunQ(th, ch, h))
    case QPark(c, op) => Some((th.(pc := Parked(c, op)), ch.(qLock := None)))
    case QDone(c, a) => Some((th.(pc := AfterQ(c, a)), ch.(qLock := None)))
    case ResetLatch(_) => Some((th.(pc := Idle), ch.(overflow := false)))
  }

  /** Steps on the notify record. After storing, `set_notify` goes on to drain
      `cb_active` unless this thread is inside a notify callback, on any channel. */
  function RecordStep(t: Tid, th: Thread, ch: Chan): Option<(Thread, Chan)>
    requires RecordPc(th.pc)
  {
    match th.pc
    case NWant(c, op) =>
      if ch.nLock.None? then Some((th.(pc := NHeld(c, op)), ch.(nLock := Some(t)))) else None
    case NHeld(c, op) =>
      (match op
       case Load => Some((th.(pc := NDone(c, op, ch.notify)), ch))
       case Store(n) => Some((th.(pc := NDone(c, op, n)), ch.(notify := n))))
    case NDone(c, op, n) =>
      var next := if op.Load? then CbDecide(c, n) else if th.cb.Some? then Idle else DWant(c);
      Some((th.(pc := next), ch.(nLock := None)))
  }

  /** Steps on `cb_active`: a push's callback window, and the drain. */
  function CallbackStep(t: Tid, th: Thread, ch: Chan): Option<(Thread, Chan)>
    requires CallbackPc(th.pc)
  {
    match th.pc
    case CbWant(c) =>
      if ch.cbActive.None? then Some((th.(pc := NWant(c, Load)), ch.(cbActive := Some(t)))) else None
    case CbDecide(c, n) =>
      Some((if Armed(n) then Thread(Idle, Some(InCb(c, n))) else th.(pc := CbRelease(c)), ch))
    case CbRelease(_) => Some((th.(pc := Idle), ch.(cbActive := None)))
    case DWant(c) =>
      if ch.cbActive.None? then Some((th.(pc := DHeld(c)), ch.(cbActive := Some(t)))) else None
    case DHeld(_) => Some((th.(pc := Idle), ch.(cbActive := None)))
  }

  predicate FilterPc(pc: Pc) { pc.FWant? || pc.FHeld? || pc.FDone? }
  predicate QueuePc(pc: Pc) { pc.QWant? || pc.QHeld? || pc.QPark? || pc.QDone? || pc.ResetLatch? }
  predicate RecordPc(pc: Pc) { pc.NWant? || pc.NHeld? || pc.NDone? }
  predicate CallbackPc(pc: Pc) { pc.CbWant? || pc.CbDecide? || pc.CbRelease? || pc.DWant? || pc.DHeld? }

  /** A step that touches only its own thread `t` and the channel its pc names; None
      where the step is blocked or is not of this kind. */
  function Local(t: Tid, th: Thread, ch: Chan, h: Hint): Option<(Thread, Chan)> {
    if FilterPc(th.pc) then FilterStep(t, th, ch, h)
    else if QueuePc(th.pc) then QueueStep(t, th, ch, h)
    else if RecordPc(th.pc) then RecordStep(t, th, ch)
    else if CallbackPc(th.pc) then CallbackStep(t, th, ch)
    else None
  }

  datatype Event =
    | Begin(t: Tid, call: Pc)
    | Act(t: Tid, h: Hint)
    | Signal(t: Tid, wake: Option<Tid>)
    | Broadcast(t: Tid)
    | Wake(t: Tid)
    | EndCallback(t: Tid)

  /** The first program point of each call. Only a thread outside callbacks pushes. */
  predicate Startable(th: Thread, call: Pc) {
    match call
    case FWant(_, op) => op.Check? ==> th.cb.None?
    case QWant(_, op, woken) => !op.Enqueue? && !woken
    case NWant(_, op) => op.Store?
    case _ => false
  }

  predicate ParkedOn(th: Thread, c: Cid) { th.pc.Parked? && th.pc.c == c }

  function Woken(th: Thread): Thread
    requires th.pc.Parked?
  {
    th.(pc := QWant(th.pc.c, th.pc.op, true))
  }

  function Apply(s: State, e: Event): Option<State> {
    if e.t !in s.threads then None else
    var t, th := e.t, s.threads[e.t];
    match e
    case Begin(_, call) =>
      if th.pc.Idle? && Startable(th, call) && call.c in s.chans
      then Some(s.(threads := s.threads[t := th.(pc := call)])) else None
    case Act(_, h) =>
      if th.pc.Idle? || th.pc.c !in s.chans then None else
      (match Local(t, th, s.chans[th.pc.c], h)
       case None => None
       case Some(r) => Some(State(s.threads[t := r.0], s.chans[th.pc.c := r.1])))
    case Signal(_, wake) =>
      if !th.pc.NotifyOne? then None else
      var c := th.pc.c;
      var s' := s.(threads := s.threads[t := th.(pc := CbWant(c))]);
      (match wake
       case None => if exists u <- s.threads :: ParkedOn(s.threads[u], c) then None else Some(s')
       case Some(u) =>
         if u in s.threads && ParkedOn(s.threads[u], c)
         then Some(s'.(threads := s'.threads[u := Woken(s.threads[u])])) else None)
    case Broadcast(_) =>
      if !th.pc.NotifyAll? then None else
      var c := th.pc.c;
      Some(s.(threads := map u | u in s.threads ::
        if u == t then th.(pc := Idle)
        else if ParkedOn(s.threads[u], c) then Woken(s.threads[u]) else s.threads[u]))
    case Wake(_) =>
      if th.pc.Parked? then Some(s.(threads := s.threads[t := Woken(th)])) else None
    case EndCallback(_) =>
      if th.pc.Idle? && th.cb.Some?
      then Some(s.(threads := s.threads[t := Thread(CbRelease(th.cb.value.c), None)])) else None
  }

  ghost predicate Init(s: State) {
    && (forall t <- s.threads :: s.threads[t] == Thread(Idle, None))
    && (forall c <- s.chans :: s.chans[c] == NEW_CHAN)
  }

  /** A run: `states[i]` becomes `states[i+1]` by `events[i]`. */
  ghost predicate IsRun(states: seq<State>, events: seq<Event>) {
    && |states| == |events| + 1 && Init(states[0])
    && forall i :: 0 <= i < |events| ==> Apply(states[i], events[i]) == Some(states[i + 1])
  }

  // --------------------------------------------------------- lock invariants

  datatype Lock = QLock | FLock | NLock | CbLock

  function Holder(ch: Chan, k: Lock): Option<Tid> {
    match k
    case QLock => ch.qLock
    case FLock => ch.fLock
    case NLock => ch.nLock
    case CbLock => ch.cbActive
  }

  predicate Reading(pc: Pc) { (pc.NWant? || pc.NHeld? || pc.NDone?) && pc.nop.Load? }

  /** The program points inside a lock's critical section. */
  predicate Inside(pc: Pc, k: Lock) {
    match k
    case QLock => pc.QHeld? || pc.QPark? || pc.QDone?
    case FLock => pc.FHeld? || pc.FDone?
    case NLock => pc.NHeld? || pc.NDone?
    case CbLock => Reading(pc) || pc.CbDecide? || pc.CbRelease? || pc.DHeld?
  }

  /** A thread in a callback holds `cb_active` of that callback's channel throughout. */
  predicate Has(th: Thread, c: Cid, k: Lock) {
    || (Inside(th.pc, k) && th.pc.c == c)
    || (k == CbLock && th.cb.Some? && th.cb.value.c == c)
  }

  /** Program points that belong to a push or to a drain, never reached in a callback. */
  predicate Outermost(pc: Pc) {
    || Inside(pc, CbLock) || pc.CbWant? || pc.DWant? || pc.NotifyOne?
    || (pc.QDone? && pc.after.WakeOne?)
    || ((pc.FWant? || pc.FHeld? || pc.FDone?) && pc.fop.Check?)
    || ((pc.QWant? || pc.QHeld?) && pc.op.Enqueue?)
  }

  predicate ThreadOk(th: Thread, chans: set<Cid>) {
    && (!th.pc.Idle? ==> th.pc.c in chans)
    && (th.cb.Some? ==> th.cb.value.c in chans && Armed(th.cb.value.n) && !Outermost(th.pc))
    && ((th.pc.QPark? || th.pc.Parked?) ==> th.pc.op.PopWait? || th.pc.op.PeekWait?)
  }

  predicate Owns(s: State, c: Cid, t: Tid, k: Lock)
    requires c in s.chans && t in s.threads
  {
    Holder(s.chans[c], k) == Some(t) <==> Has(s.threads[t], c, k)
  }

  /** Each lock's holder is exactly the thread that is inside its critical section. */
  ghost predicate LockInv(s: State) {
    && (forall c <- s.chans, t <- s.threads, k :: Owns(s, c, t, k))
    && (forall c <- s.chans, k :: Holder(s.chans[c], k).Some? ==> Holder(s.chans[c], k).value in s.threads)
  }

  ghost predicate Inv(s: State) {
    && (forall t <- s.threads :: ThreadOk(s.threads[t], s.chans.Keys))
    && LockInv(s)
  }

  /** A local step takes or drops a lock only in its own name, in step with its pc. */
  ghost predicate InStep(t: Tid, th: Thread, ch: Chan, th': Thread, ch': Chan, k: Lock)
    requires !th.pc.Idle?
  {
    && (Holder(ch', k) == Some(t) <==> Has(th', th.pc.c, k))
    && (Holder(ch', k) != Holder(ch, k) ==>
         Holder(ch, k) in {None, Some(t)} && Holder(ch', k) in {None, Some(t)})
  }

  lemma FilterInStep(t: Tid, th: Thread, ch: Chan, h: Hint, k: Lock)
    requires FilterPc(th.pc) && FilterStep(t, th, ch, h).Some?
    requires Holder(ch, k) == Some(t) <==> Has(th, th.pc.c, k)
    ensures InStep(t, th, ch, FilterStep(t, th, ch, h).value.0, FilterStep(t, th, ch, h).value.1, k)
  {
    hide Accepts, SetAccept;
  }

  lemma QueueInStep(t: Tid, th: Thread, ch: Chan, h: Hint, k: Lock)
    requires QueuePc(th.pc) && QueueStep(t, th, ch, h).Some?
    requires Holder(ch, k) == Some(t) <==> Has(th, th.pc.c, k)
    ensures InStep(t, th, ch, QueueStep(t, th, ch, h).value.0, QueueStep(t, th, ch, h).value.1, k)
  {}

  lemma RecordInStep(t: Tid, th: Thread, ch: Chan, k: Lock)
    requires RecordPc(th.pc) && RecordStep(t, th, ch).Some?
    requires Holder(ch, k) == Some(t) <==> Has(th, th.pc.c, k)
    ensures InStep(t, th, ch, RecordStep(t, th, ch).value.0, RecordStep(t, th, ch).value.1, k)
  {}

  lemma CallbackInStep(t: Tid, th: Thread, ch: Chan, k: Lock)
    requires CallbackPc(th.pc) && th.cb.None? && CallbackStep(t, th, ch).Some?
    requires Holder(ch, k) == Some(t) <==> Has(th, th.pc.c, k)
    ensures InStep(t, th, ch, CallbackStep(t, th, ch).value.0, CallbackStep(t, th, ch).value.1, k)
  {
    hide And;
  }

  lemma LocalLock(t: Tid, th: Thread, ch: Chan, h: Hint, chans: set<Cid>, k: Lock)
    requires !th.pc.Idle? && ThreadOk(th, chans) && Local(t, th, ch, h).Some?
    requires Holder(ch, k) == Some(t) <==> Has(th, th.pc.c, k)
    ensures var r := Local(t, th, ch, h).value; InStep(t, th, ch, r.0, r.1, k)
  {
    hide FilterStep, QueueStep, RecordStep, CallbackStep, InStep, Holder, Has, And;
    if FilterPc(th.pc) {
      FilterInStep(t, th, ch, h, k);
    } else if QueuePc(th.pc) {
      QueueInStep(t, th, ch, h, k);
    } else if RecordPc(th.pc) {
      RecordInStep(t, th, ch, k);
    } else {
      CallbackInStep(t, th, ch, k);
    }
  }

  lemma LocalThread(t: Tid, th: Thread, ch: Chan, h: Hint, chans: set<Cid>)
    requires !th.pc.Idle? && ThreadOk(th, chans) && Local(t, th, ch, h).Some?
    ensures var th' := Local(t, th, ch, h).value.0;
      && ThreadOk(th', chans)
      && (!th'.pc.Idle? ==> th'.pc.c == th.pc.c)
      && (th'.cb != th.cb ==> th.cb.None? && th'.cb.value.c == th.pc.c)
  {
    hide And, Accepts, SetAccept;
  }

  lemma IdleIsOutside(k: Lock)
    ensures !Inside(Idle, k)
  {}

  lemma ActOwns(s: State, t: Tid, h: Hint, s': State, c: Cid, u: Tid, k: Lock)
    requires Inv(s) && Apply(s, Act(t, h)) == Some(s') && c in s.chans && u in s.threads
    ensures Owns(s', c, u, k)
    ensures Holder(s'.chans[c], k).Some? ==> Holder(s'.chans[c], k).value in s'.threads
  {
    IdleIsOutside(k);
    hide Local, And, Inside, Holder, ThreadOk;
    var th := s.threads[t];
    assert ThreadOk(th, s.chans.Keys) && !th.pc.Idle?;
    assert Owns(s, th.pc.c, t, k) && Owns(s, c, u, k) && Owns(s, c, t, k);
    LocalLock(t, th, s.chans[th.pc.c], h, s.chans.Keys, k);
    LocalThread(t, th, s.chans[th.pc.c], h, s.chans.Keys);
  }

  lemma ActKeepsInv(s: State, t: Tid, h: Hint, s': State)
    requires Inv(s) && Apply(s, Act(t, h)) == Some(s')
    ensures Inv(s')
  {
    LocalThread(t, s.threads[t], s.chans[s.threads[t].pc.c], h, s.chans.Keys);
    assert s'.chans.Keys == s.chans.Keys && s'.threads.Keys == s.threads.Keys;
    forall c <- s'.chans, u <- s'.threads, k
      ensures Owns(s', c, u, k)
    {
      ActOwns(s, t, h, s', c, u, k);
    }
    forall c <- s'.chans, k
      ensures Holder(s'.chans[c], k).Some? ==> Holder(s'.chans[c], k).value in s'.threads
    {
      ActOwns(s, t, h, s', c, t, k);
    }
    hide Local, And, Outermost, Owns;
  }

  /** The other steps take and drop no lock. */
  lemma OtherThread(s: State, e: Event, s': State, u: Tid)
    requires Inv(s) && Apply(s, e) == Some(s') && !e.Act? && u in s.threads
    ensures s'.chans == s.chans && s'.threads.Keys == s.threads.Keys
    ensures ThreadOk(s'.threads[u], s.chans.Keys)
  {
    hide And, LockInv, Local, Armed;
    assert ThreadOk(s.threads[u], s.chans.Keys) && ThreadOk(s.threads[e.t], s.chans.Keys);
  }

  lemma OtherHas(s: State, e: Event, s': State, u: Tid, c: Cid, k: Lock)
    requires Inv(s) && Apply(s, e) == Some(s') && !e.Act? && u in s.threads && u in s'.threads
    ensures Has(s'.threads[u], c, k) == Has(s.threads[u], c, k)
  {
    hide And, LockInv, Local, Armed, Outermost;
    assert ThreadOk(s.threads[u], s.chans.Keys) && ThreadOk(s.threads[e.t], s.chans.Keys);
  }

  lemma OtherKeepsInv(s: State, e: Event, s': State)
    requires Inv(s) && Apply(s, e) == Some(s') && !e.Act?
    ensures Inv(s')
  {
    OtherThread(s, e, s', e.t);
    hide Apply, Has, ThreadOk;
    forall u <- s'.threads
      ensures ThreadOk(s'.threads[u], s'.chans.Keys)
    {
      OtherThread(s, e, s', u);
    }
    forall c <- s'.chans, u <- s'.threads, k
      ensures Owns(s', c, u, k)
    {
      assert Owns(s, c, u, k);
      OtherHas(s, e, s', u, c, k);
    }
  }

  lemma StepKeepsInv(s: State, e: Event, s': State)
    requires Inv(s) && Apply(s, e) == Some(s')
    ensures Inv(s')
  {
    if e.Act? {
      ActKeepsInv(s, e.t, e.h, s');
    } else {
      OtherKeepsInv(s, e, s');
    }
  }

  lemma {:induction false} RunKeepsInv(states: seq<State>, events: seq<Event>, i: nat)
    requires IsRun(states, events) && i < |states|
    ensures Inv(states[i])
  {
    if i > 0 {
      RunKeepsInv(states, events, i - 1);
      StepKeepsInv(states[i - 1], events[i - 1], states[i]);
    }
  }
}
