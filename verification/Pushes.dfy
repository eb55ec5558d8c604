/** What becomes of every push in every interleaving: checked once by the filter of the
    moment, stamped and offered to the ring exactly if it passes, and followed by one
    callback window exactly if the ring took it. */
module Pushes {
  import opened Wire
  import opened Translate
  import opened Receiver
  import Refine
  import Ring

  /** The event is a step of thread `t`'s own, at channel `c`. */
  predicate Own(s: State, e: Event, t: Tid, c: Cid) {
    e.Act? && e.t == t && t in s.threads && !s.threads[t].pc.Idle? && s.threads[t].pc.c == c
  }

  predicate Checking(pc: Pc) { pc.FHeld? && pc.fop.Check? }
  predicate Leaving(pc: Pc) { pc.FDone? && pc.fop.Check? }
  predicate Offering(pc: Pc) { pc.QHeld? && pc.op.Enqueue? }

  // -------------------------------------------------------- what has happened

  /** The directives stored on `c`, oldest first. */
  function Directives(states: seq<State>, events: seq<Event>, i: nat, c: Cid): seq<Directive>
    requires i <= |events| && i < |states|
  {
    if i == 0 then [] else
    var s, e := states[i - 1], events[i - 1];
    Directives(states, events, i - 1, c) +
    if Own(s, e, e.t, c) && s.threads[e.t].pc.FHeld? && s.threads[e.t].pc.fop.Direct?
    then [s.threads[e.t].pc.fop.d] else []
  }

  /** The notify record stored last on `c`. */
  function LastStored(states: seq<State>, events: seq<Event>, i: nat, c: Cid): Notify
    requires i <= |events| && i < |states|
  {
    if i == 0 then Notify(0, 0, 0) else
    var s, e := states[i - 1], events[i - 1];
    if Own(s, e, e.t, c) && s.threads[e.t].pc.NHeld? && s.threads[e.t].pc.nop.Store?
    then s.threads[e.t].pc.nop.n else LastStored(states, events, i - 1, c)
  }

  /** Whether the frame `t` checked last on `c` passed the filter of that moment. */
  function LastVerdict(states: seq<State>, events: seq<Event>, i: nat, t: Tid, c: Cid): bool
    requires i <= |events| && i < |states|
  {
    if i == 0 then false else
    var s, e := states[i - 1], events[i - 1];
    if Own(s, e, t, c) && Checking(s.threads[t].pc)
    then ShownPasses(Directives(states, events, i - 1, c), s.threads[t].pc.fop.f.canId, s.threads[t].pc.fop.f.fd)
    else LastVerdict(states, events, i - 1, t, c)
  }

  /** The record `t` read last on `c`, as of the moment it read it. */
  function LastLoaded(states: seq<State>, events: seq<Event>, i: nat, t: Tid, c: Cid): Notify
    requires i <= |events| && i < |states|
  {
    if i == 0 then Notify(0, 0, 0) else
    var s, e := states[i - 1], events[i - 1];
    if Own(s, e, t, c) && s.threads[t].pc.NHeld? && s.threads[t].pc.nop.Load?
    then LastStored(states, events, i - 1, c) else LastLoaded(states, events, i - 1, t, c)
  }

  function BegunAt(e: Event, t: Tid, c: Cid): seq<Frame> {
    if e.Begin? && e.t == t && e.call.FWant? && e.call.c == c && e.call.fop.Check? then [e.call.fop.f] else []
  }

  function DecidedAt(s: State, e: Event, t: Tid, c: Cid): seq<Frame> {
    if Own(s, e, t, c) && Leaving(s.threads[t].pc) then [s.threads[t].pc.fop.f] else []
  }

  function OfferedAt(s: State, e: Event, t: Tid, c: Cid): seq<Frame> {
    if Own(s, e, t, c) && Offering(s.threads[t].pc) then [s.threads[t].pc.op.f] else []
  }

  function TakenAt(s: State, e: Event, t: Tid, c: Cid): nat {
    if c in s.chans && OfferedAt(s, e, t, c) != [] && |s.chans[c].q| < 8192 then 1 else 0
  }

  function WindowAt(s: State, e: Event, t: Tid, c: Cid): nat {
    if Own(s, e, t, c) && s.threads[t].pc.CbDecide? then 1 else 0
  }

  /** The frames of the pushes on `c` that `t` began; of those whose check is over; those
      of them that passed, with the clock read after the check; those it offered to the
      ring; how many of these the ring took; and its callback windows. */
  function Begun(events: seq<Event>, i: nat, t: Tid, c: Cid): seq<Frame>
    requires i <= |events|
  {
    if i == 0 then [] else Begun(events, i - 1, t, c) + BegunAt(events[i - 1], t, c)
  }

  function Decided(states: seq<State>, events: seq<Event>, i: nat, t: Tid, c: Cid): seq<Frame>
    requires i <= |events| && i < |states|
  {
    if i == 0 then [] else
    Decided(states, events, i - 1, t, c) + DecidedAt(states[i - 1], events[i - 1], t, c)
  }

  function Passed(states: seq<State>, events: seq<Event>, i: nat, t: Tid, c: Cid): seq<Frame>
    requires i <= |events| && i < |states|
  {
    if i == 0 then [] else
    var s, e := states[i - 1], events[i - 1];
    Passed(states, events, i - 1, t, c) +
    if DecidedAt(s, e, t, c) != [] && LastVerdict(states, events, i - 1, t, c)
    then [DecidedAt(s, e, t, c)[0].(rxTime := e.h.now)] else []
  }

  function Offered(states: seq<State>, events: seq<Event>, i: nat, t: Tid, c: Cid): seq<Frame>
    requires i <= |events| && i < |states|
  {
    if i == 0 then [] else
    Offered(states, events, i - 1, t, c) + OfferedAt(states[i - 1], events[i - 1], t, c)
  }

  function Taken(states: seq<State>, events: seq<Event>, i: nat, t: Tid, c: Cid): nat
    requires i <= |events| && i < |states|
  {
    if i == 0 then 0 else
    Taken(states, events, i - 1, t, c) + TakenAt(states[i - 1], events[i - 1], t, c)
  }

  function Windows(states: seq<State>, events: seq<Event>, i: nat, t: Tid, c: Cid): nat
    requires i <= |events| && i < |states|
  {
    if i == 0 then 0 else
    Windows(states, events, i - 1, t, c) + WindowAt(states[i - 1], events[i - 1], t, c)
  }

  // ------------------------------------------------------ what is under way

  /** The frame `t` is checking. */
  function UnderCheck(th: Thread, c: Cid): seq<Frame> {
    if FilterPc(th.pc) && th.pc.c == c && th.pc.fop.Check? then [th.pc.fop.f] else []
  }

  /** The frame `t` is bringing to the ring. */
  function InFlight(th: Thread, c: Cid): seq<Frame> {
    if (th.pc.QWant? || th.pc.QHeld?) && th.pc.c == c && th.pc.op.Enqueue? then [th.pc.op.f] else []
  }

  /** Between the ring's taking a frame of `t` and `t`'s callback window. */
  predicate Due(th: Thread, c: Cid) {
    || th.pc == QDone(c, WakeOne) || th.pc == NotifyOne(c) || th.pc == CbWant(c)
    || (RecordPc(th.pc) && th.pc.c == c && th.pc.nop.Load?)
    || (th.pc.CbDecide? && th.pc.c == c)
  }

  function DueCount(th: Thread, c: Cid): nat { if Due(th, c) then 1 else 0 }

  /** What thread `t` carries from its check and from its reading of the record. */
  predicate Carries(th: Thread, c: Cid, verdict: bool, record: Notify) {
    && (Leaving(th.pc) && th.pc.c == c ==> th.pc.pass == verdict)
    && (th.pc.NDone? && th.pc.nop.Load? && th.pc.c == c ==> th.pc.n == record)
    && (th.pc.CbDecide? && th.pc.c == c ==> th.pc.n == record)
  }

  ghost predicate ChannelInv(states: seq<State>, events: seq<Event>, i: nat, c: Cid)
    requires i <= |events| && i < |states|
  {
    && c in states[i].chans
    && states[i].chans[c].filters == Filter(Directives(states, events, i, c))
    && states[i].chans[c].notify == LastStored(states, events, i, c)
  }

  ghost predicate ThreadInv(states: seq<State>, events: seq<Event>, i: nat, t: Tid, c: Cid)
    requires i <= |events| && i < |states|
  {
    && t in states[i].threads
    && var th := states[i].threads[t];
       && Begun(events, i, t, c) == Decided(states, events, i, t, c) + UnderCheck(th, c)
       && Passed(states, events, i, t, c) == Offered(states, events, i, t, c) + InFlight(th, c)
       && Taken(states, events, i, t, c) == Windows(states, events, i, t, c) + DueCount(th, c)
       && Carries(th, c, LastVerdict(states, events, i, t, c), LastLoaded(states, events, i, t, c))
  }

  // ------------------------------------------------------------- local steps

  /** What one own step at `c` moves from one stage to the next. */
  ghost predicate Flows(th: Thread, ch: Chan, h: Hint, th': Thread, c: Cid) {
    && UnderCheck(th, c) == (if Leaving(th.pc) then [th.pc.fop.f] else []) + UnderCheck(th', c)
    && InFlight(th, c) + (if Leaving(th.pc) && th.pc.pass then [th.pc.fop.f.(rxTime := h.now)] else [])
       == (if Offering(th.pc) then [th.pc.op.f] else []) + InFlight(th', c)
    && DueCount(th, c) + (if Offering(th.pc) && |ch.q| < 8192 then 1 else 0)
       == (if th.pc.CbDecide? then 1 else 0) + DueCount(th', c)
  }

  /** What it carries on. */
  ghost predicate CarriesOn(th: Thread, ch: Chan, th': Thread) {
    && (Leaving(th'.pc) ==> Checking(th.pc) && th'.pc.fop == th.pc.fop && th'.pc.pass == Accepts(ch.filters, th.pc.fop.f.canId))
    && (th'.pc.NDone? && th'.pc.nop.Load? ==> th.pc.NHeld? && th.pc.nop.Load? && th'.pc.n == ch.notify)
    && (th'.pc.CbDecide? ==> th.pc.NDone? && th.pc.nop.Load? && th'.pc.n == th.pc.n)
  }

  ghost predicate ChannelStep(th: Thread, ch: Chan, ch': Chan) {
    && ch'.filters == (if th.pc.FHeld? && th.pc.fop.Direct? then SetAccept(ch.filters, th.pc.fop.d) else ch.filters)
    && ch'.notify == (if th.pc.NHeld? && th.pc.nop.Store? then th.pc.nop.n else ch.notify)
  }

  lemma FilterFlows(t: Tid, th: Thread, ch: Chan, h: Hint)
    requires FilterPc(th.pc) && FilterStep(t, th, ch, h).Some?
    ensures var (th', ch') := FilterStep(t, th, ch, h).value;
      Flows(th, ch, h, th', th.pc.c) && CarriesOn(th, ch, th') && ChannelStep(th, ch, ch')
  {
    hide Accepts, SetAccept;
  }

  lemma QueueFlows(t: Tid, th: Thread, ch: Chan, h: Hint)
    requires QueuePc(th.pc) && QueueStep(t, th, ch, h).Some?
    requires th.pc.QPark? ==> !th.pc.op.Enqueue?
    ensures var (th', ch') := QueueStep(t, th, ch, h).value;
      Flows(th, ch, h, th', th.pc.c) && CarriesOn(th, ch, th') && ChannelStep(th, ch, ch')
  {}

  lemma RecordFlows(t: Tid, th: Thread, ch: Chan, h: Hint)
    requires RecordPc(th.pc) && RecordStep(t, th, ch).Some?
    ensures var (th', ch') := RecordStep(t, th, ch).value;
      Flows(th, ch, h, th', th.pc.c) && CarriesOn(th, ch, th') && ChannelStep(th, ch, ch')
  {}

  lemma CallbackFlows(t: Tid, th: Thread, ch: Chan, h: Hint)
    requires CallbackPc(th.pc) && CallbackStep(t, th, ch).Some?
    ensures var (th', ch') := CallbackStep(t, th, ch).value;
      Flows(th, ch, h, th', th.pc.c) && CarriesOn(th, ch, th') && ChannelStep(th, ch, ch')
  {
    hide Bits.And;
  }

  lemma LocalFlows(t: Tid, th: Thread, ch: Chan, h: Hint, chans: set<Cid>)
    requires !th.pc.Idle? && ThreadOk(th, chans) && Local(t, th, ch, h).Some?
    ensures var (th', ch') := Local(t, th, ch, h).value;
      Flows(th, ch, h, th', th.pc.c) && CarriesOn(th, ch, th') && ChannelStep(th, ch, ch')
  {
    hide FilterStep, QueueStep, RecordStep, CallbackStep, Flows, CarriesOn, ChannelStep;
    if FilterPc(th.pc) {
      FilterFlows(t, th, ch, h);
    } else if QueuePc(th.pc) {
      QueueFlows(t, th, ch, h);
    } else if RecordPc(th.pc) {
      RecordFlows(t, th, ch, h);
    } else {
      CallbackFlows(t, th, ch, h);
    }
  }

  /** A thread at another channel has nothing under way on `c`. */
  predicate Away(th: Thread, c: Cid) { th.pc.Idle? || th.pc.c != c }

  lemma AwayIsEmpty(th: Thread, c: Cid, verdict: bool, record: Notify)
    requires Away(th, c)
    ensures UnderCheck(th, c) == [] && InFlight(th, c) == [] && DueCount(th, c) == 0
    ensures Carries(th, c, verdict, record)
  {}

  lemma StaysAway(s: State, e: Event, s': State, t: Tid, c: Cid)
    requires Inv(s) && Apply(s, e) == Some(s') && e.Act? && e.t == t && s.threads[t].pc.c != c
    ensures t in s'.threads && Away(s.threads[t], c) && Away(s'.threads[t], c)
  {
    var th := s.threads[t];
    assert ThreadOk(th, s.chans.Keys);
    LocalThread(t, th, s.chans[th.pc.c], e.h, s.chans.Keys);
    hide Local, Bits.And, LockInv;
  }

  // ----------------------------------------------------------- every step

  /** What a step does to the filter and the record of `c`. */
  lemma ChannelMoves(s: State, e: Event, s': State, c: Cid)
    requires Inv(s) && Apply(s, e) == Some(s') && c in s.chans
    ensures c in s'.chans
    ensures Own(s, e, e.t, c) ==> ChannelStep(s.threads[e.t], s.chans[c], s'.chans[c])
    ensures !Own(s, e, e.t, c) ==> s'.chans[c].filters == s.chans[c].filters && s'.chans[c].notify == s.chans[c].notify
  {
    hide Inv, Local, ChannelStep, Flows, CarriesOn, ThreadOk;
    if e.Act? {
      var th := s.threads[e.t];
      ActorOk(s, e);
      LocalFlows(e.t, th, s.chans[th.pc.c], e.h, s.chans.Keys);
    }
  }

  lemma ChannelKept(states: seq<State>, events: seq<Event>, i: nat, c: Cid)
    requires i < |events| && i + 1 < |states| && Inv(states[i])
    requires Apply(states[i], events[i]) == Some(states[i + 1]) && ChannelInv(states, events, i, c)
    ensures ChannelInv(states, events, i + 1, c)
  {
    hide Directives, LastStored, Filter, Inv, Apply, SetAccept;
    var s, e, s' := states[i], events[i], states[i + 1];
    var ds := Directives(states, events, i, c);
    assert ds + [] == ds;
    DirectivesNext(states, events, i, c);
    ChannelMoves(s, e, s', c);
    if Own(s, e, e.t, c) && s.threads[e.t].pc.FHeld? && s.threads[e.t].pc.fop.Direct? {
      FilterMore(ds, s.threads[e.t].pc.fop.d);
    }
  }

  lemma DirectivesNext(states: seq<State>, events: seq<Event>, i: nat, c: Cid)
    requires i < |events| && i + 1 < |states|
    ensures var s, e := states[i], events[i];
      && Directives(states, events, i + 1, c) == Directives(states, events, i, c) +
         (if Own(s, e, e.t, c) && s.threads[e.t].pc.FHeld? && s.threads[e.t].pc.fop.Direct?
          then [s.threads[e.t].pc.fop.d] else [])
      && LastStored(states, events, i + 1, c) ==
         if Own(s, e, e.t, c) && s.threads[e.t].pc.NHeld? && s.threads[e.t].pc.nop.Store?
         then s.threads[e.t].pc.nop.n else LastStored(states, events, i, c)
  {}

  lemma ActorOk(s: State, e: Event)
    requires Inv(s) && Apply(s, e).Some? && e.Act?
    ensures e.t in s.threads && ThreadOk(s.threads[e.t], s.chans.Keys) && !s.threads[e.t].pc.Idle?
    ensures s.threads[e.t].pc.c in s.chans
  {}

  lemma FilterMore(ds: seq<Directive>, d: Directive)
    ensures Filter(ds + [d]) == SetAccept(Filter(ds), d)
  {
    assert (ds + [d])[..|ds|] == ds;
  }

  /** How a thread may change in a step that is not a local one of its own. */
  predicate Nudged(th: Thread, th': Thread) {
    || th' == th
    || (th.pc.Parked? && th' == Woken(th))
    || (th.pc.NotifyOne? && th' == th.(pc := CbWant(th.pc.c)))
    || (th.pc.NotifyAll? && th' == th.(pc := Idle))
    || (th.pc.Idle? && th.cb.Some? && th' == Thread(CbRelease(th.cb.value.c), None))
  }

  lemma OthersNudge(s: State, e: Event, s': State, t: Tid)
    requires Apply(s, e) == Some(s') && t in s.threads && !(e.t == t && (e.Act? || e.Begin?))
    ensures t in s'.threads && Nudged(s.threads[t], s'.threads[t])
  {
    hide Local, Bits.And;
  }

  lemma NudgesKeep(th: Thread, th': Thread, c: Cid, verdict: bool, record: Notify, chans: set<Cid>)
    requires Nudged(th, th') && ThreadOk(th, chans) && Carries(th, c, verdict, record)
    ensures UnderCheck(th', c) == UnderCheck(th, c) && InFlight(th', c) == InFlight(th, c)
    ensures DueCount(th', c) == DueCount(th, c) && Carries(th', c, verdict, record)
  {}

  lemma BeginsPush(s: State, e: Event, s': State, c: Cid, verdict: bool, record: Notify)
    requires Apply(s, e) == Some(s') && e.Begin?
    ensures e.t in s.threads && e.t in s'.threads
    ensures UnderCheck(s.threads[e.t], c) == [] && UnderCheck(s'.threads[e.t], c) == BegunAt(e, e.t, c)
    ensures InFlight(s.threads[e.t], c) == [] && InFlight(s'.threads[e.t], c) == []
    ensures DueCount(s.threads[e.t], c) == 0 && DueCount(s'.threads[e.t], c) == 0
    ensures Carries(s'.threads[e.t], c, verdict, record)
  {}

  /** The events of the others, and those of `t` that are no own step at `c`, change nothing
      of `t` on `c`, but for a push it begins. */
  lemma OtherEvents(s: State, e: Event, s': State, t: Tid, c: Cid, verdict: bool, record: Notify)
    requires Inv(s) && Apply(s, e) == Some(s') && t in s.threads && !Own(s, e, t, c)
    requires Carries(s.threads[t], c, verdict, record)
    ensures t in s'.threads
    ensures UnderCheck(s.threads[t], c) + BegunAt(e, t, c) == UnderCheck(s'.threads[t], c)
    ensures InFlight(s'.threads[t], c) == InFlight(s.threads[t], c)
    ensures DueCount(s'.threads[t], c) == DueCount(s.threads[t], c)
    ensures Carries(s'.threads[t], c, verdict, record)
  {
    assert ThreadOk(s.threads[t], s.chans.Keys);
    if e.Act? && e.t == t {
      StaysAway(s, e, s', t, c);
      AwayIsEmpty(s.threads[t], c, verdict, record);
      AwayIsEmpty(s'.threads[t], c, verdict, record);
    } else if e.Begin? && e.t == t {
      BeginsPush(s, e, s', c, verdict, record);
    } else {
      OthersNudge(s, e, s', t);
      NudgesKeep(s.threads[t], s'.threads[t], c, verdict, record, s.chans.Keys);
    }
    hide Apply, Inv, UnderCheck, InFlight, DueCount, Carries, ThreadOk;
  }

  /** An own step of `t` at `c`. */
  lemma OwnEvent(s: State, e: Event, s': State, t: Tid, c: Cid, ds: seq<Directive>, verdict: bool, record: Notify)
    requires Inv(s) && Apply(s, e) == Some(s') && Own(s, e, t, c) && c in s.chans
    requires s.chans[c].filters == Filter(ds) && Carries(s.threads[t], c, verdict, record)
    ensures t in s'.threads
    ensures var th, th' := s.threads[t], s'.threads[t];
      && Flows(th, s.chans[c], e.h, th', c)
      && Carries(th', c,
           if Checking(th.pc) then ShownPasses(ds, th.pc.fop.f.canId, th.pc.fop.f.fd) else verdict,
           if th.pc.NHeld? && th.pc.nop.Load? then s.chans[c].notify else record)
  {
    hide Local, Bits.And, Flows, LockInv, ShownPasses, Filter, Accepts, ThreadOk;
    var th := s.threads[t];
    assert ThreadOk(th, s.chans.Keys);
    LocalFlows(t, th, s.chans[c], e.h, s.chans.Keys);
    if Checking(th.pc) {
      FilterMeaning(ds, th.pc.fop.f.canId, th.pc.fop.f.fd);
    }
    var th' := s'.threads[t];
    assert CarriesOn(th, s.chans[c], th');
    assert Leaving(th'.pc) ==> Checking(th.pc) && th'.pc.pass == ShownPasses(ds, th.pc.fop.f.canId, th.pc.fop.f.fd);
  }

  lemma Three(a: seq<Frame>, b: seq<Frame>, x: seq<Frame>, y: seq<Frame>, z: seq<Frame>)
    requires a == b + x && x + y == z
    ensures a + y == b + z
  {}

  lemma Split(a: seq<Frame>, b: seq<Frame>, x: seq<Frame>, y: seq<Frame>, z: seq<Frame>, w: seq<Frame>)
    requires a == b + x && x + y == z + w
    ensures a + y == (b + z) + w
  {
    assert (b + x) + y == b + (x + y);
    assert b + (z + w) == (b + z) + w;
  }

  /** One more event. */
  lemma Next(states: seq<State>, events: seq<Event>, i: nat, t: Tid, c: Cid)
    requires i < |events| && i + 1 < |states|
    ensures var s, e := states[i], events[i];
      && Begun(events, i + 1, t, c) == Begun(events, i, t, c) + BegunAt(e, t, c)
      && Decided(states, events, i + 1, t, c) == Decided(states, events, i, t, c) + DecidedAt(s, e, t, c)
      && Offered(states, events, i + 1, t, c) == Offered(states, events, i, t, c) + OfferedAt(s, e, t, c)
      && Taken(states, events, i + 1, t, c) == Taken(states, events, i, t, c) + TakenAt(s, e, t, c)
      && Windows(states, events, i + 1, t, c) == Windows(states, events, i, t, c) + WindowAt(s, e, t, c)
  {
    hide Own;
  }

  lemma NextVerdicts(states: seq<State>, events: seq<Event>, i: nat, t: Tid, c: Cid)
    requires i < |events| && i + 1 < |states|
    ensures var s, e := states[i], events[i];
      && Passed(states, events, i + 1, t, c) == Passed(states, events, i, t, c) +
           (if DecidedAt(s, e, t, c) != [] && LastVerdict(states, events, i, t, c)
            then [DecidedAt(s, e, t, c)[0].(rxTime := e.h.now)] else [])
      && LastVerdict(states, events, i + 1, t, c) == (
           if Own(s, e, t, c) && Checking(s.threads[t].pc)
           then ShownPasses(Directives(states, events, i, c), s.threads[t].pc.fop.f.canId, s.threads[t].pc.fop.f.fd)
           else LastVerdict(states, events, i, t, c))
      && LastLoaded(states, events, i + 1, t, c) == (
           if Own(s, e, t, c) && s.threads[t].pc.NHeld? && s.threads[t].pc.nop.Load?
           then LastStored(states, events, i, c) else LastLoaded(states, events, i, t, c))
  {
    hide ShownPasses, Directives;
  }

  lemma ThreadKept(states: seq<State>, events: seq<Event>, i: nat, t: Tid, c: Cid)
    requires i < |events| && i + 1 < |states| && Inv(states[i])
    requires Apply(states[i], events[i]) == Some(states[i + 1])
    requires ChannelInv(states, events, i, c) && ThreadInv(states, events, i, t, c)
    ensures ThreadInv(states, events, i + 1, t, c)
  {
    var s, e, s' := states[i], events[i], states[i + 1];
    var verdict, record := LastVerdict(states, events, i, t, c), LastLoaded(states, events, i, t, c);
    var th := s.threads[t];
    var begun, decided := Begun(events, i, t, c), Decided(states, events, i, t, c);
    var passed, offered := Passed(states, events, i, t, c), Offered(states, events, i, t, c);
    Next(states, events, i, t, c);
    NextVerdicts(states, events, i, t, c);
    hide Apply, Inv, ShownPasses, Filter, UnderCheck, InFlight, DueCount, Directives;
    hide Begun, Decided, Passed, Offered, Taken, Windows, LastVerdict, LastLoaded, LastStored;
    assert begun + [] == begun && decided + [] == decided && passed + [] == passed && offered + [] == offered;
    if Own(s, e, t, c) {
      OwnEvent(s, e, s', t, c, Directives(states, events, i, c), verdict, record);
      var th' := s'.threads[t];
      Split(begun, decided, UnderCheck(th, c), [], DecidedAt(s, e, t, c), UnderCheck(th', c));
      assert UnderCheck(th, c) + [] == UnderCheck(th, c);
      Split(passed, offered, InFlight(th, c), if Leaving(th.pc) && th.pc.pass then [th.pc.fop.f.(rxTime := e.h.now)] else [],
            OfferedAt(s, e, t, c), InFlight(th', c));
    } else {
      OtherEvents(s, e, s', t, c, verdict, record);
      Three(begun, decided, UnderCheck(th, c), BegunAt(e, t, c), UnderCheck(s'.threads[t], c));
    }
  }

  lemma AtStart(states: seq<State>, events: seq<Event>, t: Tid, c: Cid)
    requires IsRun(states, events) && c in states[0].chans && t in states[0].threads
    ensures ChannelInv(states, events, 0, c) && ThreadInv(states, events, 0, t, c)
  {
    hide Apply;
  }

  /** Every push, in every interleaving. The filter of a channel is that of the directives
      stored so far, and its notify record the one stored last. Of each thread's pushes,
      in order: every one begun is checked, or under check; those whose shown id and
      class pass the code and mask of that moment, and only those, are offered to the
      ring, with the clock as their stamp, or are on the way to it; each one the ring
      takes, and none other, is followed by one callback window, or is due for it; and the
      record the window acts on is the one stored when it was read. */
  lemma {:induction false} EveryPush(states: seq<State>, events: seq<Event>, i: nat, t: Tid, c: Cid)
    requires IsRun(states, events) && i < |states| && c in states[0].chans && t in states[0].threads
    ensures ChannelInv(states, events, i, c) && ThreadInv(states, events, i, t, c)
  {
    if i == 0 {
      AtStart(states, events, t, c);
    } else {
      hide Apply, Inv, ChannelInv, ThreadInv;
      EveryPush(states, events, i - 1, t, c);
      RunKeepsInv(states, events, i - 1);
      ChannelKept(states, events, i - 1, c);
      ThreadKept(states, events, i - 1, t, c);
    }
  }

  /** In its callback window a push runs the callback exactly if the record has one and
      asks for receive events, the lowest bit of its flags; else it lets go. */
  lemma WindowFires(s: State, e: Event, s': State, t: Tid, c: Cid)
    requires Apply(s, e) == Some(s') && Own(s, e, t, c) && s.threads[t].pc.CbDecide?
    ensures var n := s.threads[t].pc.n;
      t in s'.threads && s'.threads[t] ==
        if n.cb != 0 && n.flags % 2 == 1 then Thread(Idle, Some(InCb(c, n)))
        else s.threads[t].(pc := CbRelease(c))
  {
    var n := s.threads[t].pc.n;
    assert Bits.Shl(1, 0) == 1;
    Bits.BitIs(n.flags, 0);
    hide Bits.And;
  }

  // ------------------------------------------------- the ring's side of it

  lemma OffersAreOps(s: State, e: Event, c: Cid)
    requires c in s.chans && Apply(s, e).Some?
    ensures OfferedAt(s, e, e.t, c) == Ring.Admitted(Refine.OpOf(s, e, c))
    ensures |Refine.OpOf(s, e, c)| <= 1
  {
    hide Apply;
    var ops := Refine.OpOf(s, e, c);
    assert |ops| == 1 ==> ops[..0] == [] && Ring.Admitted(ops[..0]) == [];
  }

  lemma AdmittedMore(a: seq<Ring.Op>, b: seq<Ring.Op>)
    requires |b| <= 1
    ensures Ring.Admitted(a + b) == Ring.Admitted(a) + Ring.Admitted(b)
  {
    if b == [] {
      assert a + b == a && Ring.Admitted(a) + [] == Ring.Admitted(a);
    } else {
      assert (a + b)[..|a|] == a && b[..0] == [];
    }
  }

  lemma {:induction false} NoMorePassed(states: seq<State>, events: seq<Event>, i: nat, t: Tid, c: Cid)
    requires i <= |events| && i < |states|
    ensures |Passed(states, events, i, t, c)| <= |Decided(states, events, i, t, c)|
  {
    hide LastVerdict, DecidedAt;
    if i > 0 {
      NoMorePassed(states, events, i - 1, t, c);
    }
  }

  lemma {:induction false} NothingBegun(events: seq<Event>, i: nat, t: Tid, c: Cid, p: Tid)
    requires i <= |events| && Refine.OneProducer(events, c, p) && t != p
    ensures Begun(events, i, t, c) == []
  {
    if i > 0 {
      NothingBegun(events, i - 1, t, c, p);
      assert Refine.StartsPush(events[i - 1], c) ==> events[i - 1].t == p;
    }
  }

  /** Where only `p` pushes, only `p` brings frames to the ring. */
  lemma OnlyProducer(states: seq<State>, events: seq<Event>, i: nat, t: Tid, c: Cid, p: Tid)
    requires IsRun(states, events) && i < |states| && c in states[0].chans && t in states[0].threads
    requires Refine.OneProducer(events, c, p) && t != p
    ensures t in states[i].threads && InFlight(states[i].threads[t], c) == []
  {
    EveryPush(states, events, i, t, c);
    NothingBegun(events, i, t, c, p);
    NoMorePassed(states, events, i, t, c);
    hide InFlight, UnderCheck, Passed, Offered, Decided;
  }

  lemma {:induction false} SameThreads(states: seq<State>, events: seq<Event>, i: nat)
    requires IsRun(states, events) && i < |states|
    ensures states[i].threads.Keys == states[0].threads.Keys && states[i].chans.Keys == states[0].chans.Keys
  {
    if i > 0 {
      SameThreads(states, events, i - 1);
      KeepsKeys(states[i - 1], events[i - 1], states[i]);
    }
  }

  lemma KeepsKeys(s: State, e: Event, s': State)
    requires Apply(s, e) == Some(s')
    ensures s'.threads.Keys == s.threads.Keys && s'.chans.Keys == s.chans.Keys && e.t in s.threads
  {
    hide Local, Bits.And;
  }

  lemma ProducerOp(states: seq<State>, events: seq<Event>, i: nat, c: Cid, p: Tid)
    requires IsRun(states, events) && i < |events| && c in states[0].chans
    requires Refine.OneProducer(events, c, p)
    ensures OfferedAt(states[i], events[i], p, c) == Ring.Admitted(Refine.OpOf(states[i], events[i], c))
    ensures |Refine.OpOf(states[i], events[i], c)| <= 1
  {
    hide Apply, Ring.Admitted, Refine.OpOf, OfferedAt, InFlight;
    var s, e := states[i], events[i];
    SameThreads(states, events, i);
    assert Apply(s, e) == Some(states[i + 1]);
    KeepsKeys(s, e, states[i + 1]);
    OffersAreOps(s, e, c);
    if e.t != p {
      OnlyProducer(states, events, i, e.t, c, p);
    }
    OffersOf(s, e, c, p);
  }

  /** With one producer, as on every connection, the frames the ring is offered are those
      of that producer, in order. */
  lemma {:induction false} ProducerOffers(states: seq<State>, events: seq<Event>, i: nat, c: Cid, p: Tid)
    requires IsRun(states, events) && i < |states| && c in states[0].chans
    requires Refine.OneProducer(events, c, p)
    ensures Ring.Admitted(Refine.OpsOf(states, events, i, c)) == Offered(states, events, i, p, c)
  {
    hide IsRun, Refine.OneProducer, Ring.Admitted, Refine.OpOf, Offered, OfferedAt;
    if i == 0 {
      NothingOffered(states, events, p, c);
    } else {
      RunLength(states, events);
      ProducerOffers(states, events, i - 1, c, p);
      ProducerOp(states, events, i - 1, c, p);
      Next(states, events, i - 1, p, c);
      AdmittedMore(Refine.OpsOf(states, events, i - 1, c), Refine.OpOf(states[i - 1], events[i - 1], c));
    }
  }

  lemma RunLength(states: seq<State>, events: seq<Event>)
    requires IsRun(states, events)
    ensures |states| == |events| + 1
  {}

  lemma NothingOffered(states: seq<State>, events: seq<Event>, p: Tid, c: Cid)
    requires |states| > 0
    ensures Ring.Admitted([]) == [] == Offered(states, events, 0, p, c)
  {}

  lemma OffersOf(s: State, e: Event, c: Cid, p: Tid)
    requires e.t in s.threads && (e.t != p ==> InFlight(s.threads[e.t], c) == [])
    ensures OfferedAt(s, e, e.t, c) == OfferedAt(s, e, p, c)
  {}

  /** The whole path of a channel with one producer, in every interleaving: the pushes
      that passed their check, stamped, are the frames the ring was offered and one on its
      way there; and of those offered, each is delivered, queued, flushed or dropped. */
  lemma PushesAccountedFor(states: seq<State>, events: seq<Event>, i: nat, c: Cid, p: Tid)
    requires IsRun(states, events) && i < |states| && c in states[0].chans && p in states[0].threads
    requires Refine.OneProducer(events, c, p)
    ensures var ops := Refine.OpsOf(states, events, i, c);
      && c in states[i].chans && p in states[i].threads
      && Passed(states, events, i, p, c) == Ring.Admitted(ops) + InFlight(states[i].threads[p], c)
      && multiset(Ring.Admitted(ops)) == multiset(Ring.Chosen(Ring.Exits(ops), true)) + multiset(states[i].chans[c].q)
           + multiset(Ring.Chosen(Ring.Exits(ops), false)) + multiset(Ring.Dropped(ops))
  {
    EveryPush(states, events, i, p, c);
    ProducerOffers(states, events, i, c, p);
    Refine.ReceiverRefinesRing(states, events, i, c);
    hide Ring.Admitted, Ring.Chosen, Ring.Exits, Ring.Dropped, Ring.After, Refine.OpsOf, Passed, Offered;
    Ring.Conservation(Refine.OpsOf(states, events, i, c));
  }
}
