/** No call on a connection gets stuck: not on the tx lock, and not in the join of
    `close`, even when callbacks of the receive thread write or close themselves; and
    every call can be brought to its end without a new one and without the peer. */
module Progress {
  import opened Wire
  import opened Conn
  import opened Sums
  import Tunnel

  /** A step of an API thread of its own, or its socket reporting an error. */
  predicate Own(e: Event) { e.Act? || e.Fail? || (e.Send? && !e.taken) }

  ghost predicate CanAct(s: State) {
    exists e :: Own(e) && Apply(s, e).Some?
  }

  /** Once `running` is cleared the receive loop goes to its end: its reads fail on a
      socket that was shut, or time out over UDP. */
  predicate Winds(s: State, e: Event) {
    !s.fl.running && (e.RxStep? || (e.RxError? && !s.udp && s.fl.shut) || (e.RxNeed? && s.udp))
  }

  /** Steps that only finish what is under way, whatever the peer does: no new call, no
      byte sent or received. */
  predicate Finishes(s: State, e: Event) { Own(e) || Winds(s, e) }

  /** A call neither waiting for the tx lock nor in a join has a step of its own. */
  lemma OwnStep(s: State, t: Tid)
    requires Tunnel.TunnelInv(s) && t in s.apis && !s.apis[t].Idle? && !s.apis[t].CJoin?
    requires s.apis[t].WLock? ==> s.tx.lock.None?
    ensures CanAct(s)
  {
    hide Encode, Sender.PacketOf;
    var e := if !s.apis[t].WWrite? then Act(t) else if s.udp then Send(t, false) else Fail(t);
    assert s.apis[t].WWrite? ==> Tunnel.Writing(s.apis[t]);
    assert Own(e) && Apply(s, e).Some?;
  }

  /** The holder of the tx lock can go on: an error, or its unlock. */
  lemma WriterSteps(s: State, t: Tid)
    requires Tunnel.TunnelInv(s) && t in s.apis && !s.apis[t].Idle? && !s.apis[t].CJoin?
    ensures CanAct(s)
  {
    if s.apis[t].WLock? && s.tx.lock.Some? {
      var u := s.tx.lock.value;
      assert Tunnel.Writing(s.apis[u]);
      OwnStep(s, u);
    } else {
      OwnStep(s, t);
    }
  }

  /** Waiting for the receive loop alone: the loop is told to stop, its thread is another
      and in no call of its own, and it has not exited. */
  predicate AwaitsLoop(s: State, t: Tid) {
    && t in s.apis && s.apis[t].CJoin? && t != RX && RX in s.apis && s.apis[RX].Idle?
    && !s.fl.running && (s.udp || s.fl.shut) && !s.rx.Exited?
  }

  /** In every reachable state with a call under way, on any thread, some call can take a
      step of its own, or this one is in the join of a `close` and waits for a receive
      loop that was told to stop and is in no call. */
  lemma NeverStuck(states: seq<State>, events: seq<Event>, i: nat, t: Tid)
    requires IsRun(states, events) && i < |states|
    requires t in states[i].apis && !states[i].apis[t].Idle?
    ensures CanAct(states[i]) || AwaitsLoop(states[i], t)
  {
    var s := states[i];
    TeardownFlags(states, events, i);
    JoinInvariant(states, events, i);
    Tunnel.TunnelInvariant(states, events, i);
    assert CloneAt(s.tab, t, s.apis[t]) && CloneAt(s.tab, RX, s.apis[RX]) && FlagsAt(s.udp, s.fl, s.apis[t]);
    hide Apply, Tunnel.TunnelInv, FlagsOk;
    if !s.apis[t].CJoin? {
      WriterSteps(s, t);
    } else if !s.apis[RX].Idle? {
      WriterSteps(s, RX);
    } else if s.rx.Exited? {
      JoinReturns(s, t);
    }
  }

  lemma JoinReturns(s: State, t: Tid)
    requires t in s.apis && s.apis[t].CJoin? && s.rx.Exited?
    ensures CanAct(s)
  {
    assert Own(Act(t)) && Apply(s, Act(t)).Some?;
  }

  // ------------------------------------------------------- every call can end

  /** Steps a call has left, its clone's drop included. */
  function Rank(pc: Pc): nat {
    match pc
    case Idle => 0
    case WCheck(_) => 16 case WLock(_) => 15 case WWrite(_, _) => 14
    case WFailNeg => 13 case WFailRun => 12 case WFailShut => 11 case WUnlock(_, _) => 10
    case Using => 10
    case CRun(d) => CloseRank(7, d) case CNeg(d) => CloseRank(6, d) case CStore(d) => CloseRank(5, d)
    case CNotify(d) => CloseRank(4, d) case CShut(d) => CloseRank(3, d) case CTake(d) => CloseRank(2, d)
    case CJoin(d) => CloseRank(1, d)
    case Dropping => 8
  }

  function CloseRank(n: nat, d: bool): nat { if d then n else n + 9 }

  /** Steps the receive loop has left once it was told to stop. */
  function RxRank(rx: RxPc): nat {
    match rx
    case Pushing => 8 case Reading => 7 case Top => 6 case Swap => 5
    case LNeg => 4 case LLost => 3 case LStore => 2 case LNotify => 1 case Exited => 0
  }

  function Ranks(s: State): map<nat, nat> { map t | t in s.apis :: Rank(s.apis[t]) }

  ghost function Left(s: State): nat { RxRank(s.rx) + Sum(Ranks(s)) }

  lemma WriteFalls(t: Tid, pc: Pc, fl: Flags, tx: Tx)
    requires WritePc(pc) && WriteStep(t, pc, fl, tx).Some?
    ensures Rank(WriteStep(t, pc, fl, tx).value.0) < Rank(pc)
  {}

  lemma CloseFalls(udp: bool, t: Tid, pc: Pc, fl: Flags, tab: Table, rx: RxPc)
    requires ClosePc(pc) && CloseStep(udp, t, pc, fl, tab, rx).Some?
    ensures Rank(CloseStep(udp, t, pc, fl, tab, rx).value.0) < Rank(pc)
  {}

  lemma OtherFalls(s: State, e: Event, s': State)
    requires Apply(s, e) == Some(s') && Own(e)
    requires e.Act? ==> !WritePc(s.apis[e.t]) && !ClosePc(s.apis[e.t])
    ensures e.t in s.apis && e.t in s'.apis && Rank(s'.apis[e.t]) < Rank(s.apis[e.t])
  {
    hide Encode, Sender.PacketOf, WriteStep, CloseStep;
  }

  lemma OwnFalls(s: State, e: Event, s': State)
    requires Apply(s, e) == Some(s') && Own(e)
    ensures s'.rx == s.rx && e.t in s.apis && e.t in s'.apis && Rank(s'.apis[e.t]) < Rank(s.apis[e.t])
  {
    hide Encode, Sender.PacketOf, WriteStep, CloseStep, Rank;
    if e.Act? && WritePc(s.apis[e.t]) {
      WriteFalls(e.t, s.apis[e.t], s.fl, s.tx);
    } else if e.Act? && ClosePc(s.apis[e.t]) {
      CloseFalls(s.udp, e.t, s.apis[e.t], s.fl, s.tab, s.rx);
    } else {
      OtherFalls(s, e, s');
    }
  }

  lemma StepFalls(s: State, e: Event, s': State)
    requires Apply(s, e) == Some(s') && Finishes(s, e)
    ensures Left(s') < Left(s)
  {
    OneThreadMoves(s, e, s');
    if Own(e) {
      OwnFalls(s, e, s');
      hide Apply, Rank;
      SumFalls(Ranks(s), Ranks(s'), e.t, 0);
    } else {
      hide Rank;
      assert Ranks(s') == Ranks(s);
    }
  }

  lemma LoopWinds(s: State, t: Tid) returns (e: Event)
    requires AwaitsLoop(s, t)
    requires s.udp ==> s.rx.Top? || s.rx.Reading? || s.rx.Pushing?
    ensures Finishes(s, e) && Apply(s, e).Some?
  {
    e := if !s.rx.Reading? then RxStep else if s.udp then RxNeed else RxError;
  }

  lemma FinishingStep(states: seq<State>, events: seq<Event>, t: Tid) returns (e: Event)
    requires IsRun(states, events) && t in states[|events|].apis && !states[|events|].apis[t].Idle?
    ensures Finishes(states[|events|], e) && Apply(states[|events|], e).Some?
  {
    var s := states[|events|];
    NeverStuck(states, events, |events|, t);
    TeardownFlags(states, events, |events|);
    hide Apply;
    if AwaitsLoop(s, t) {
      e := LoopWinds(s, t);
    } else {
      e :| Own(e) && Apply(s, e).Some?;
    }
  }

  /** `events` from `i` on only finish calls. */
  ghost predicate OnlyFinishes(states: seq<State>, events: seq<Event>, i: nat) {
    |states| == |events| + 1 && forall j :: i <= j < |events| ==> Finishes(states[j], events[j])
  }

  /** Every call comes to its end: any run can be continued, by steps that only finish
      what is under way and need nothing of the peer, to a state where thread `t` has
      returned. Each such step leaves less to do, so no choice of them puts it off. */
  lemma {:induction false} CallsEnd(states: seq<State>, events: seq<Event>, t: Tid)
    returns (all: seq<State>, acts: seq<Event>)
    requires IsRun(states, events) && t in states[|events|].apis
    ensures IsRun(all, acts) && states <= all && events <= acts && OnlyFinishes(all, acts, |events|)
    ensures t in all[|acts|].apis && all[|acts|].apis[t].Idle?
    decreases Left(states[|events|])
  {
    hide Apply, Finishes, Left;
    all, acts := states, events;
    var s := states[|events|];
    if !s.apis[t].Idle? {
      var e := FinishingStep(states, events, t);
      var s' := Apply(s, e).value;
      StepFalls(s, e, s');
      OneThreadMoves(s, e, s');
      all, acts := CallsEnd(states + [s'], events + [e], t);
      assert all[|events|] == s && acts[|events|] == e;
    }
  }
}
