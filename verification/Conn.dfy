/** One `Conn` of src/transport.rs, over TCP or UDP, and its entry in the handle table of
    src/lib.rs as a step system: writers under the tx lock, `canClose` and drops running
    `close`, and the receive loop with its teardown, each atomic store, lock operation,
    socket call and join a step of its own. */
module Conn {
  import opened Wire
  import opened Sender

  type Tid = nat

  /** The receive thread's id. It makes API calls too, from inside its callbacks. */
  const RX: Tid := 0

  /** Where an API thread is. `d` tells the `close` of a drop from that of `canClose`. */
  datatype Pc =
    | Idle
    | Using
    | WCheck(f: Frame) | WLock(f: Frame) | WWrite(f: Frame, done: nat)
    | WFailNeg | WFailRun | WFailShut | WUnlock(f: Frame, ok: bool)
    | CRun(d: bool) | CNeg(d: bool) | CStore(d: bool) | CNotify(d: bool) | CShut(d: bool)
    | CTake(d: bool) | CJoin(d: bool)
    | Dropping

  datatype RxPc = Top | Reading | Pushing | Swap | LNeg | LLost | LStore | LNotify | Exited

  /** Who first cleared `running`. */
  datatype Clearer = ByClose | ByWrite | BySwap

  /** The atomic flags and the socket's shutdown, with their history: whether a `close`
      has begun and who first cleared `running`. */
  datatype Flags = Flags(running: bool, negotiated: bool, closed: bool, linkLost: bool, shut: bool,
                         closeBegun: bool, firstClear: Option<Clearer>)

  /** The join handle, the table entry, the threads holding a clone, and the history of
      joins and of the removal. */
  datatype Table = Table(handle: bool, inTable: bool, refs: set<Tid>, joined: seq<Tid>, remover: Option<Tid>)

  /** The tx lock, every byte a stream socket took, the sequence number and datagrams of
      a UDP socket with the history of its sends, and the writes that returned Ok in the
      order they held the lock. */
  datatype Tx = Tx(lock: Option<Tid>, sent: Bytes, seqNo: byte, packets: seq<Bytes>, tries: seq<Try>,
                   oks: seq<Frame>)

  datatype State = State(udp: bool, fl: Flags, tab: Table, tx: Tx, rx: RxPc, apis: map<Tid, Pc>)

  datatype Event =
    | Clone(t: Tid, call: Pc)      // look the handle up and start a call on a clone
    | Remove(t: Tid)               // canClose takes the entry out of the table
    | Act(t: Tid)
    | Take(t: Tid, k: nat)         // the stream takes k bytes of a write
    | Fail(t: Tid)                 // or reports an error
    | Send(t: Tid, taken: bool)    // the UDP socket takes the datagram of a write, or not
    | RxStep                       // the receive loop's own next step
    | RxNeed | RxFrame | RxError   // what a read and decode brought it: nothing to push, a
                                   // frame (the next of a datagram, if pushing), an error

  const FRESH_TX := Tx(None, [], 0, [], [], [])

  ghost predicate Init(s: State) {
    && s.fl == Flags(true, true, false, false, false, false, None)
    && s.tab == Table(true, true, {}, [], None)
    && s.tx == (if s.udp then FRESH_TX else FRESH_TX.(sent := CONNECT_V1))
    && s.rx == Top && RX in s.apis && (forall t <- s.apis :: s.apis[t] == Idle)
  }

  function Clear(fl: Flags, who: Clearer): Flags {
    fl.(running := false, firstClear := if fl.running then Some(who) else fl.firstClear)
  }

  predicate WritePc(pc: Pc) {
    pc.WCheck? || pc.WLock? || pc.WWrite? || pc.WFailNeg? || pc.WFailRun? || pc.WFailShut? || pc.WUnlock?
  }

  predicate ClosePc(pc: Pc) {
    pc.CRun? || pc.CNeg? || pc.CStore? || pc.CNotify? || pc.CShut? || pc.CTake? || pc.CJoin?
  }

  /** `Conn::write` outside the socket call itself. */
  function WriteStep(t: Tid, pc: Pc, fl: Flags, tx: Tx): Option<(Pc, Flags, Tx)>
    requires WritePc(pc)
  {
    match pc
    case WCheck(f) => Some((if fl.negotiated then WLock(f) else Dropping, fl, tx))
    case WLock(f) => if tx.lock.None? then Some((WWrite(f, 0), fl, tx.(lock := Some(t)))) else None
    case WWrite(_, _) => None
    case WFailNeg => Some((WFailRun, fl.(negotiated := false), tx))
    case WFailRun => Some((WFailShut, Clear(fl, ByWrite), tx))
    case WFailShut => Some((WUnlock(DEFAULT_FRAME, false), fl.(shut := true), tx))
    case WUnlock(f, ok) => Some((Dropping, fl, tx.(lock := None, oks := if ok then tx.oks + [f] else tx.oks)))
  }

  /** `Conn::close`; `canClose` goes on to drop its clone, a drop is over. Over UDP nothing
      is shut down: the loop's read time-out lets it exit. */
  function CloseStep(udp: bool, t: Tid, pc: Pc, fl: Flags, tab: Table, rx: RxPc): Option<(Pc, Flags, Table)>
    requires ClosePc(pc)
  {
    var done := if pc.d then Idle else Dropping;
    match pc
    case CRun(d) => Some((CNeg(d), Clear(fl, ByClose).(closeBegun := true), tab))
    case CNeg(d) => Some((CStore(d), fl.(negotiated := false), tab))
    case CStore(d) => Some((CNotify(d), fl.(closed := true), tab))
    case CNotify(d) => Some((CShut(d), fl, tab))
    case CShut(d) => Some((CTake(d), if udp then fl else fl.(shut := true), tab))
    case CTake(d) => Some((if tab.handle && t != RX then CJoin(d) else done, fl, tab.(handle := false)))
    case CJoin(d) => if rx.Exited? then Some((done, fl, tab.(joined := tab.joined + [t]))) else None
  }

  /** The last clone to go, with the table entry gone too, drops the connection. */
  function DropClone(t: Tid, tab: Table): (Pc, Table) {
    var refs := tab.refs - {t};
    (if refs == {} && !tab.inTable then CRun(true) else Idle, tab.(refs := refs))
  }

  /** The next step of an API thread, where it has just one. */
  function ActStep(s: State, t: Tid): Option<State>
    requires t in s.apis
  {
    var pc := s.apis[t];
    if WritePc(pc) then
      match WriteStep(t, pc, s.fl, s.tx)
      case None => None
      case Some(r) => Some(s.(fl := r.1, tx := r.2, apis := s.apis[t := r.0]))
    else if ClosePc(pc) then
      match CloseStep(s.udp, t, pc, s.fl, s.tab, s.rx)
      case None => None
      case Some(r) => Some(s.(fl := r.1, tab := r.2, apis := s.apis[t := r.0]))
    else if pc.Using? then Some(s.(apis := s.apis[t := Dropping]))
    else if pc.Dropping? then
      var r := DropClone(t, s.tab);
      Some(s.(tab := r.1, apis := s.apis[t := r.0]))
    else None
  }

  /** The receive loop outside its reads: the loop test, the return from a push, and the
      teardown, which `udp_rx_loop` does not have. */
  function RxOwn(udp: bool, rx: RxPc, fl: Flags): Option<(RxPc, Flags)> {
    match rx
    case Top => Some((if fl.running then Reading else if udp then Exited else Swap, fl))
    case Pushing => Some((Top, fl))
    case Swap => Some(if fl.running then (LNeg, Clear(fl, BySwap)) else (Exited, fl))
    case LNeg => Some((LLost, fl.(negotiated := false)))
    case LLost => Some((LStore, fl.(linkLost := true)))
    case LStore => Some((LNotify, fl.(closed := true)))
    case LNotify => Some((Exited, fl))
    case _ => None
  }

  /** A thread may call; the receive thread only from inside a callback. */
  predicate MayCall(s: State, t: Tid) {
    t in s.apis && s.apis[t].Idle? && (t == RX ==> s.rx.Pushing?)
  }

  function TakeStep(s: State, t: Tid, k: nat): Option<State>
    requires t in s.apis
  {
    if s.udp || !s.apis[t].WWrite? || !InClass(s.apis[t].f) || s.fl.shut then None else
    var WWrite(f, done) := s.apis[t];
    var enc := Encode(f);
    if k == 0 || done + k > |enc| then None else
    Some(s.(tx := s.tx.(sent := s.tx.sent + enc[done..done + k]),
            apis := s.apis[t := if done + k == |enc| then WUnlock(f, true) else WWrite(f, done + k)]))
  }

  /** `send_to`: the sequence number advances whether the datagram is taken or not, and a
      failure touches no flag. */
  function SendStep(s: State, t: Tid, taken: bool): Option<State>
    requires t in s.apis
  {
    if !s.udp || !s.apis[t].WWrite? || !InClass(s.apis[t].f) then None else
    var f := s.apis[t].f;
    var packets := if taken then s.tx.packets + [PacketOf(f, s.tx.seqNo)] else s.tx.packets;
    Some(s.(tx := s.tx.(seqNo := Next(s.tx.seqNo), packets := packets, tries := s.tx.tries + [Try(f, taken)]),
            apis := s.apis[t := WUnlock(f, taken)]))
  }

  function FailStep(s: State, t: Tid): Option<State>
    requires t in s.apis
  {
    if !s.udp && s.apis[t].WWrite? then Some(s.(apis := s.apis[t := WFailNeg])) else None
  }

  function CallStep(s: State, e: Event): Option<State>
    requires (e.Clone? || e.Remove?)
  {
    if !MayCall(s, e.t) || !s.tab.inTable then None else
    match e
    case Clone(t, call) =>
      if call.Using? || (call.WCheck? && InClass(call.f))
      then Some(s.(tab := s.tab.(refs := s.tab.refs + {t}), apis := s.apis[t := call])) else None
    case Remove(t) =>
      Some(s.(tab := s.tab.(inTable := false, refs := s.tab.refs + {t}, remover := Some(t)),
              apis := s.apis[t := CRun(false)]))
  }

  function RxEvent(s: State, e: Event): Option<State>
    requires e.RxStep? || e.RxNeed? || e.RxFrame? || e.RxError?
  {
    if e.RxStep? then
      if s.rx.Pushing? && !(RX in s.apis && s.apis[RX].Idle?) then None else
      match RxOwn(s.udp, s.rx, s.fl)
      case None => None
      case Some(r) => Some(s.(rx := r.0, fl := r.1))
    else if s.udp && s.rx.Pushing? && e.RxFrame? then
      if RX in s.apis && s.apis[RX].Idle? then Some(s) else None
    else if !s.rx.Reading? then None
    else Some(s.(rx := if e.RxNeed? then Top else if e.RxFrame? then Pushing else if s.udp then Exited else Swap))
  }

  predicate ByRx(e: Event) { e.RxStep? || e.RxNeed? || e.RxFrame? || e.RxError? }

  function Apply(s: State, e: Event): Option<State> {
    if ByRx(e) then RxEvent(s, e)
    else if e.t !in s.apis then None
    else match e
      case Act(t) => ActStep(s, t)
      case Take(t, k) => TakeStep(s, t, k)
      case Fail(t) => FailStep(s, t)
      case Send(t, taken) => SendStep(s, t, taken)
      case _ => CallStep(s, e)
  }

  ghost predicate IsRun(states: seq<State>, events: seq<Event>) {
    && |states| == |events| + 1 && Init(states[0])
    && forall i :: 0 <= i < |events| ==> Apply(states[i], events[i]) == Some(states[i + 1])
  }

  /** A step of an API thread changes nobody else's program point. */
  lemma OneThreadMoves(s: State, e: Event, s': State)
    requires Apply(s, e) == Some(s')
    ensures s'.apis.Keys == s.apis.Keys && s'.udp == s.udp
    ensures forall u <- s.apis :: (ByRx(e) || u != e.t) ==> s'.apis[u] == s.apis[u]
  {
    hide Encode, PacketOf, WriteStep, CloseStep, RxOwn;
  }

  // ---------------------------------------------------------- teardown flags

  /** What a thread's progress says about the flags. */
  predicate FlagsAt(udp: bool, fl: Flags, pc: Pc) {
    && (ClosePc(pc) && !pc.CRun? ==> !fl.running && fl.closeBegun)
    && (ClosePc(pc) && !pc.CRun? && !pc.CNeg? ==> !fl.negotiated)
    && (pc.CNotify? || pc.CShut? || pc.CTake? || pc.CJoin? ==> fl.closed)
    && (pc.CTake? || pc.CJoin? ==> udp || fl.shut)
    && (pc.WFailNeg? || pc.WFailRun? || pc.WFailShut? ==> !udp)
    && (pc.WFailRun? ==> !fl.negotiated)
    && (pc.WFailShut? ==> !fl.negotiated && !fl.running)
  }

  /** Over UDP nothing but a `close` ever tears the connection down. */
  predicate OnlyCloses(fl: Flags) {
    && !fl.linkLost && !fl.shut
    && (fl.firstClear.None? || fl.firstClear == Some(ByClose))
    && (!fl.running ==> fl.closeBegun) && (!fl.negotiated ==> fl.closeBegun)
  }

  predicate FlagsOk(udp: bool, fl: Flags, rx: RxPc) {
    && (udp ==> OnlyCloses(fl) && (rx.Top? || rx.Reading? || rx.Pushing? || rx.Exited?))
    && (!udp && rx.Exited? ==> !fl.running)
    && (fl.closed ==> !fl.running && !fl.negotiated)
    && (fl.closed ==> fl.closeBegun || fl.firstClear == Some(BySwap))
    && (fl.linkLost ==> !fl.negotiated && fl.firstClear == Some(BySwap))
    && (fl.running <==> fl.firstClear.None?)
    && match rx
       case Top => !fl.linkLost && fl.firstClear != Some(BySwap)
       case Reading => !fl.linkLost && fl.firstClear != Some(BySwap)
       case Pushing => !fl.linkLost && fl.firstClear != Some(BySwap)
       case Swap => !fl.linkLost && fl.firstClear != Some(BySwap)
       case LNeg => fl.firstClear == Some(BySwap)
       case LLost => fl.firstClear == Some(BySwap) && !fl.negotiated
       case LStore => fl.firstClear == Some(BySwap) && !fl.negotiated && fl.linkLost
       case LNotify => fl.firstClear == Some(BySwap) && fl.linkLost && fl.closed
       case Exited => (fl.linkLost <==> fl.firstClear == Some(BySwap)) && (fl.linkLost ==> fl.closed)
  }

  ghost predicate FlagInv(s: State) {
    FlagsOk(s.udp, s.fl, s.rx) && forall t <- s.apis :: FlagsAt(s.udp, s.fl, s.apis[t])
  }

  /** The flags only ever move one way. */
  predicate OneWay(fl: Flags, fl': Flags) {
    && (fl'.running ==> fl.running) && (fl'.negotiated ==> fl.negotiated)
    && (fl.closed ==> fl'.closed) && (fl.linkLost ==> fl'.linkLost)
    && (fl.shut ==> fl'.shut) && (fl.closeBegun ==> fl'.closeBegun)
  }

  lemma FlagsAtStable(udp: bool, fl: Flags, fl': Flags, pc: Pc)
    requires FlagsAt(udp, fl, pc) && OneWay(fl, fl')
    ensures FlagsAt(udp, fl', pc)
  {}

  lemma WriteKeepsFlags(udp: bool, t: Tid, pc: Pc, fl: Flags, tx: Tx, rx: RxPc)
    requires WritePc(pc) && FlagsOk(udp, fl, rx) && FlagsAt(udp, fl, pc) && WriteStep(t, pc, fl, tx).Some?
    ensures var (pc', fl', _) := WriteStep(t, pc, fl, tx).value;
      FlagsOk(udp, fl', rx) && FlagsAt(udp, fl', pc') && OneWay(fl, fl')
  {}

  lemma CloseKeepsFlags(udp: bool, t: Tid, pc: Pc, fl: Flags, tab: Table, rx: RxPc)
    requires ClosePc(pc) && FlagsOk(udp, fl, rx) && FlagsAt(udp, fl, pc) && CloseStep(udp, t, pc, fl, tab, rx).Some?
    ensures var (pc', fl', _) := CloseStep(udp, t, pc, fl, tab, rx).value;
      FlagsOk(udp, fl', rx) && FlagsAt(udp, fl', pc') && OneWay(fl, fl')
  {}

  lemma RxKeepsFlags(udp: bool, rx: RxPc, fl: Flags)
    requires FlagsOk(udp, fl, rx) && RxOwn(udp, rx, fl).Some?
    ensures var (rx', fl') := RxOwn(udp, rx, fl).value; FlagsOk(udp, fl', rx') && OneWay(fl, fl')
  {}

  /** Steps that touch no flag: of the receive loop's reads, of a socket, of a call's
      beginning and end. */
  lemma QuietStep(s: State, e: Event, s': State)
    requires FlagInv(s) && Apply(s, e) == Some(s') && !e.RxStep?
    requires e.Act? ==> !WritePc(s.apis[e.t]) && !ClosePc(s.apis[e.t])
    ensures s'.fl == s.fl && FlagsOk(s'.udp, s'.fl, s'.rx)
    ensures !ByRx(e) ==> FlagsAt(s.udp, s.fl, s'.apis[e.t])
  {
    hide WriteStep, CloseStep, RxOwn, Encode, PacketOf;
  }

  lemma StepKeepsFlags(s: State, e: Event, s': State)
    requires FlagInv(s) && Apply(s, e) == Some(s')
    ensures FlagInv(s') && OneWay(s.fl, s'.fl)
  {
    OneThreadMoves(s, e, s');
    hide WriteStep, CloseStep, RxOwn, CallStep, TakeStep, SendStep, FlagsOk, FlagsAt;
    if e.RxStep? {
      RxKeepsFlags(s.udp, s.rx, s.fl);
    } else if e.Act? && WritePc(s.apis[e.t]) {
      WriteKeepsFlags(s.udp, e.t, s.apis[e.t], s.fl, s.tx, s.rx);
    } else if e.Act? && ClosePc(s.apis[e.t]) {
      CloseKeepsFlags(s.udp, e.t, s.apis[e.t], s.fl, s.tab, s.rx);
    } else {
      QuietStep(s, e, s');
    }
    forall u <- s'.apis
      ensures FlagsAt(s'.udp, s'.fl, s'.apis[u])
    {
      FlagsAtStable(s.udp, s.fl, s'.fl, s.apis[u]);
    }
  }

  /** Teardown flags, in every interleaving: `closed` implies neither running nor
      negotiated, `link_lost` implies not negotiated; the receive loop latches
      `link_lost` only if its swap was the first clearing of `running`, and by its
      exit always if so. */
  lemma {:induction false} TeardownFlags(states: seq<State>, events: seq<Event>, i: nat)
    requires IsRun(states, events) && i < |states|
    ensures FlagInv(states[i])
  {
    if i > 0 {
      TeardownFlags(states, events, i - 1);
      StepKeepsFlags(states[i - 1], events[i - 1], states[i]);
    }
  }

  /** `running` and `negotiated` never come back; `closed` and `link_lost` never clear. */
  lemma FlagsNeverReturn(states: seq<State>, events: seq<Event>, i: nat, j: nat)
    requires IsRun(states, events) && i <= j < |states|
    ensures OneWay(states[i].fl, states[j].fl)
    decreases j
  {
    if i < j {
      FlagsNeverReturn(states, events, i, j - 1);
      TeardownFlags(states, events, j - 1);
      StepKeepsFlags(states[j - 1], events[j - 1], states[j]);
    }
  }

  /** A `close` has begun but its `mark_closed` has not stored yet. */
  predicate ShortOfStore(pc: Pc) { pc.CNeg? || pc.CStore? }

  ghost predicate CloseInv(s: State) {
    s.fl.closeBegun && !s.fl.closed ==> exists t <- s.apis :: ShortOfStore(s.apis[t])
  }

  lemma CloseStores(udp: bool, t: Tid, pc: Pc, fl: Flags, tab: Table, rx: RxPc)
    requires ClosePc(pc) && CloseStep(udp, t, pc, fl, tab, rx).Some?
    ensures var (pc', fl', _) := CloseStep(udp, t, pc, fl, tab, rx).value;
      fl'.closeBegun && !fl'.closed && (!fl.closeBegun || ShortOfStore(pc)) ==> ShortOfStore(pc')
  {}

  lemma OthersDoNotClose(s: State, e: Event, s': State)
    requires Apply(s, e) == Some(s') && !(e.Act? && ClosePc(s.apis[e.t]))
    ensures s'.fl.closeBegun == s.fl.closeBegun && (s.fl.closed ==> s'.fl.closed)
    ensures !ByRx(e) ==> e.t in s.apis && !ShortOfStore(s.apis[e.t])
  {
    hide Encode, PacketOf, CloseStep, WriteStep, RxOwn;
    if e.RxStep? {
      RxDoesNotClose(s.udp, s.rx, s.fl);
    } else if e.Act? && WritePc(s.apis[e.t]) {
      WriteDoesNotClose(e.t, s.apis[e.t], s.fl, s.tx);
    }
  }

  lemma RxDoesNotClose(udp: bool, rx: RxPc, fl: Flags)
    requires RxOwn(udp, rx, fl).Some?
    ensures var fl' := RxOwn(udp, rx, fl).value.1; fl'.closeBegun == fl.closeBegun && (fl.closed ==> fl'.closed)
  {}

  lemma WriteDoesNotClose(t: Tid, pc: Pc, fl: Flags, tx: Tx)
    requires WritePc(pc) && WriteStep(t, pc, fl, tx).Some?
    ensures var fl' := WriteStep(t, pc, fl, tx).value.1; fl'.closeBegun == fl.closeBegun && (fl.closed ==> fl'.closed)
  {}

  lemma StepKeepsClosing(s: State, e: Event, s': State)
    requires FlagInv(s) && CloseInv(s) && Apply(s, e) == Some(s')
    ensures CloseInv(s')
  {
    OneThreadMoves(s, e, s');
    StepKeepsFlags(s, e, s');
    if s'.fl.closeBegun && !s'.fl.closed {
      if e.Act? && ClosePc(s.apis[e.t]) {
        CloseStores(s.udp, e.t, s.apis[e.t], s.fl, s.tab, s.rx);
        hide CloseStep, WriteStep;
        if s.fl.closeBegun && !ShortOfStore(s.apis[e.t]) {
          var t :| t in s.apis && ShortOfStore(s.apis[t]);
          assert ShortOfStore(s'.apis[t]);
        } else {
          assert ShortOfStore(s'.apis[e.t]);
        }
      } else {
        OthersDoNotClose(s, e, s');
        var t :| t in s.apis && ShortOfStore(s.apis[t]);
        assert ShortOfStore(s'.apis[t]);
      }
    }
  }

  lemma {:induction false} CloseInvariant(states: seq<State>, events: seq<Event>, i: nat)
    requires IsRun(states, events) && i < |states|
    ensures CloseInv(states[i])
  {
    if i > 0 {
      CloseInvariant(states, events, i - 1);
      TeardownFlags(states, events, i - 1);
      StepKeepsClosing(states[i - 1], events[i - 1], states[i]);
    }
  }

  /** What a teardown reports, exactly. In every reachable state where the receive loop
      has exited and no `close` is short of its `mark_closed`: bus-off is reported if and
      only if the loop's swap was the first clearing of `running`, and readers have been
      told to wake if and only if that or some `close`. So a teardown begun by a failed
      write stays silent until a `close`. */
  lemma TeardownReports(states: seq<State>, events: seq<Event>, i: nat)
    requires IsRun(states, events) && i < |states| && states[i].rx.Exited?
    requires forall t <- states[i].apis :: !ShortOfStore(states[i].apis[t])
    ensures var fl := states[i].fl;
      && (fl.linkLost <==> fl.firstClear == Some(BySwap))
      && (fl.closed <==> fl.firstClear == Some(BySwap) || fl.closeBegun)
  {
    TeardownFlags(states, events, i);
    CloseInvariant(states, events, i);
  }

  /** A teardown begun by a failed write alone is silent at every moment, too. */
  lemma WriteTeardownIsSilent(states: seq<State>, events: seq<Event>, i: nat)
    requires IsRun(states, events) && i < |states|
    requires states[i].fl.firstClear == Some(ByWrite) && !states[i].fl.closeBegun
    ensures !states[i].fl.closed && !states[i].fl.linkLost
  {
    TeardownFlags(states, events, i);
  }

  lemma {:induction false} SameTransport(states: seq<State>, events: seq<Event>, i: nat)
    requires IsRun(states, events) && i < |states|
    ensures states[i].udp == states[0].udp
  {
    hide Apply;
    if i > 0 {
      SameTransport(states, events, i - 1);
      OneThreadMoves(states[i - 1], events[i - 1], states[i]);
    }
  }

  /** Over UDP, in every interleaving, bus-off is never reported, only a `close` clears
      `running` and `negotiated`, and readers are told only by one: a failed send or a
      receive loop that dies of a socket error changes no flag at all. */
  lemma UdpReportsNothing(states: seq<State>, events: seq<Event>, i: nat)
    requires IsRun(states, events) && i < |states| && states[0].udp
    ensures var fl := states[i].fl;
      && !fl.linkLost && (fl.closed ==> fl.closeBegun)
      && (!fl.closeBegun ==> fl.running && fl.negotiated)
  {
    SameTransport(states, events, i);
    TeardownFlags(states, events, i);
  }

  /** Reachable over UDP: the receive loop is gone, and the connection looks alive. */
  lemma UdpDiesSilently() returns (states: seq<State>, events: seq<Event>)
    ensures IsRun(states, events) && states[0].udp
    ensures states[|events|].rx.Exited? && states[|events|].fl == UP
  {
    var s := State(true, UP, Table(true, true, {}, [], None), FRESH_TX, Top, map[RX := Idle]);
    states := [s, s.(rx := Reading), s.(rx := Exited)];
    events := [RxStep, RxError];
  }

  // A run to a silent TCP teardown: a write fails, its caller returns, and the loop exits.

  const WRITER: Tid := 1

  function TxAt(lock: Option<Tid>): Tx { FRESH_TX.(lock := lock, sent := CONNECT_V1) }

  function At(pc: Pc, fl: Flags, refs: set<Tid>, lock: Option<Tid>, rx: RxPc): State {
    State(false, fl, Table(true, true, refs, [], None), TxAt(lock), rx, map[RX := Idle, WRITER := pc])
  }

  const UP := Flags(true, true, false, false, false, false, None)
  const DOWN := Flags(false, false, false, false, true, false, Some(ByWrite))

  lemma WriteFails() returns (states: seq<State>, events: seq<Event>)
    ensures IsRun(states, events) && |events| == 6
    ensures states[6] == At(WFailShut, DOWN.(shut := false), {WRITER}, Some(WRITER), Top)
  {
    hide Encode;
    var f := DEFAULT_FRAME;
    var me := {WRITER};
    var half := UP.(negotiated := false);
    states := [At(Idle, UP, {}, None, Top), At(WCheck(f), UP, me, None, Top), At(WLock(f), UP, me, None, Top),
               At(WWrite(f, 0), UP, me, Some(WRITER), Top), At(WFailNeg, UP, me, Some(WRITER), Top),
               At(WFailRun, half, me, Some(WRITER), Top),
               At(WFailShut, DOWN.(shut := false), me, Some(WRITER), Top)];
    events := [Clone(WRITER, WCheck(f)), Act(WRITER), Act(WRITER), Fail(WRITER), Act(WRITER), Act(WRITER)];
    Starts(f);
    Goes(WCheck(f), UP, None, WLock(f), UP, None);
    Goes(WLock(f), UP, None, WWrite(f, 0), UP, Some(WRITER));
    Fails(f);
    Goes(WFailNeg, UP, Some(WRITER), WFailRun, half, Some(WRITER));
    Goes(WFailRun, half, Some(WRITER), WFailShut, DOWN.(shut := false), Some(WRITER));
    hide Apply, At;
    StartsThere(states[0]);
  }

  lemma StartsThere(s: State)
    requires s == At(Idle, UP, {}, None, Top)
    ensures Init(s)
  {}

  lemma Starts(f: Frame)
    requires InClass(f)
    ensures Apply(At(Idle, UP, {}, None, Top), Clone(WRITER, WCheck(f))) == Some(At(WCheck(f), UP, {WRITER}, None, Top))
  {
    var s, s' := At(Idle, UP, {}, None, Top), At(WCheck(f), UP, {WRITER}, None, Top);
    assert s.apis[WRITER := WCheck(f)] == s'.apis && s.tab.refs + {WRITER} == s'.tab.refs;
  }

  lemma Fails(f: Frame)
    ensures Apply(At(WWrite(f, 0), UP, {WRITER}, Some(WRITER), Top), Fail(WRITER))
         == Some(At(WFailNeg, UP, {WRITER}, Some(WRITER), Top))
  {
    var s, s' := At(WWrite(f, 0), UP, {WRITER}, Some(WRITER), Top), At(WFailNeg, UP, {WRITER}, Some(WRITER), Top);
    assert s.apis[WRITER := WFailNeg] == s'.apis;
  }

  lemma Goes(pc: Pc, fl: Flags, lock: Option<Tid>, pc': Pc, fl': Flags, lock': Option<Tid>)
    requires WritePc(pc)
    requires WriteStep(WRITER, pc, fl, TxAt(lock)) == Some((pc', fl', TxAt(lock')))
    ensures Apply(At(pc, fl, {WRITER}, lock, Top), Act(WRITER)) == Some(At(pc', fl', {WRITER}, lock', Top))
  {
    hide WriteStep;
    var s, s' := At(pc, fl, {WRITER}, lock, Top), At(pc', fl', {WRITER}, lock', Top);
    assert s.apis[WRITER := pc'] == s'.apis;
  }

  /** Reachable: the link is down, the loop has exited, every call has returned, and
      nothing was reported. */
  lemma SilentlyDown() returns (states: seq<State>, events: seq<Event>)
    ensures IsRun(states, events)
    ensures states[|events|] == At(Idle, DOWN, {}, None, Exited)
  {
    states, events := WriteFails();
    Goes(WFailShut, DOWN.(shut := false), Some(WRITER), WUnlock(DEFAULT_FRAME, false), DOWN, Some(WRITER));
    Goes(WUnlock(DEFAULT_FRAME, false), DOWN, Some(WRITER), Dropping, DOWN, None);
    Drops();
    Exits();
    hide Apply, At;
    var more := [At(WUnlock(DEFAULT_FRAME, false), DOWN, {WRITER}, Some(WRITER), Top), At(Dropping, DOWN, {WRITER}, None, Top),
                 At(Idle, DOWN, {}, None, Top), At(Idle, DOWN, {}, None, Swap), At(Idle, DOWN, {}, None, Exited)];
    Continue(states, events, more, [Act(WRITER), Act(WRITER), Act(WRITER), RxStep, RxStep]);
    states, events := states + more, events + [Act(WRITER), Act(WRITER), Act(WRITER), RxStep, RxStep];
  }

  lemma Continue(states: seq<State>, events: seq<Event>, more: seq<State>, acts: seq<Event>)
    requires IsRun(states, events) && |more| == |acts| > 0
    requires Apply(states[|events|], acts[0]) == Some(more[0])
    requires forall i :: 0 < i < |acts| ==> Apply(more[i - 1], acts[i]) == Some(more[i])
    ensures IsRun(states + more, events + acts)
  {
    hide Apply;
  }

  lemma Drops()
    ensures Apply(At(Dropping, DOWN, {WRITER}, None, Top), Act(WRITER)) == Some(At(Idle, DOWN, {}, None, Top))
  {
    var s, s' := At(Dropping, DOWN, {WRITER}, None, Top), At(Idle, DOWN, {}, None, Top);
    assert s.apis[WRITER := Idle] == s'.apis;
    assert {WRITER} - {WRITER} == {};
  }

  lemma Exits()
    ensures Apply(At(Idle, DOWN, {}, None, Top), RxStep) == Some(At(Idle, DOWN, {}, None, Swap))
    ensures Apply(At(Idle, DOWN, {}, None, Swap), RxStep) == Some(At(Idle, DOWN, {}, None, Exited))
  {}

  // ------------------------------------------------------------ join protocol

  /** In the `close` of a drop: the one kind of call that holds no clone. */
  predicate InDrop(pc: Pc) { ClosePc(pc) && pc.d }

  /** In a `canClose`, before or after it takes the join handle. */
  predicate InCanClose(pc: Pc) { ClosePc(pc) && !pc.d }
  predicate BeforeTake(pc: Pc) { InCanClose(pc) && !pc.CJoin? }

  /** What a thread's progress says about the clones and the table entry. */
  predicate CloneAt(tab: Table, t: Tid, pc: Pc) {
    && (t in tab.refs <==> !pc.Idle? && !InDrop(pc))
    && (InCanClose(pc) ==> tab.remover == Some(t))
    && (InDrop(pc) ==> tab.refs == {} && !tab.inTable)
    && (pc.CJoin? ==> t != RX && !pc.d)
  }

  /** The canClose that removed the entry, on a thread other than the receive thread,
      has returned or is past its join. */
  predicate RemoverDone(s: State) {
    && s.tab.remover.Some? && s.tab.remover.value != RX
    && s.tab.remover.value in s.apis && !InCanClose(s.apis[s.tab.remover.value])
  }

  predicate TableOk(s: State) {
    && RX in s.apis
    && (s.tab.inTable <==> s.tab.remover.None?)
    && (s.tab.remover.Some? ==> s.tab.remover.value in s.apis)
    // the join handle is there exactly until the canClose that removed the entry takes it
    && (s.tab.handle <==> s.tab.inTable || BeforeTake(s.apis[s.tab.remover.value]))
    && (!s.rx.Pushing? ==> s.apis[RX].Idle?)
    && s.tab.joined == (if RemoverDone(s) then [s.tab.remover.value] else [])
    && (RemoverDone(s) ==> s.rx.Exited?)
  }

  ghost predicate JoinInv(s: State) {
    TableOk(s) && forall t <- s.apis :: CloneAt(s.tab, t, s.apis[t])
  }

  /** How the table may change in a step of thread `t` (or of the receive loop). */
  ghost predicate TabStep(tab: Table, tab': Table, t: Tid) {
    && (forall u :: u != t ==> (u in tab'.refs <==> u in tab.refs))
    && (tab'.remover == tab.remover || (tab.remover.None? && tab.inTable && tab'.remover == Some(t)))
    && (tab'.inTable ==> tab.inTable)
    && (!tab.inTable ==> tab'.refs <= tab.refs)
  }

  lemma CloneAtStable(tab: Table, tab': Table, t: Tid, u: Tid, pc: Pc)
    requires CloneAt(tab, u, pc) && TabStep(tab, tab', t) && u != t
    requires tab.inTable <==> tab.remover.None?
    ensures CloneAt(tab', u, pc)
  {}

  lemma WriteKeepsTable(s: State, t: Tid, s': State)
    requires JoinInv(s) && t in s.apis && WritePc(s.apis[t]) && ActStep(s, t) == Some(s')
    ensures TableOk(s') && CloneAt(s'.tab, t, s'.apis[t]) && TabStep(s.tab, s'.tab, t)
  {
    assert CloneAt(s.tab, t, s.apis[t]);
  }

  lemma CloseKeepsTable(s: State, t: Tid, s': State)
    requires JoinInv(s) && t in s.apis && ClosePc(s.apis[t]) && ActStep(s, t) == Some(s')
    ensures TableOk(s') && CloneAt(s'.tab, t, s'.apis[t]) && TabStep(s.tab, s'.tab, t)
  {
    assert CloneAt(s.tab, t, s.apis[t]);
    assert s.tab.remover.Some? && CloneAt(s.tab, s.tab.remover.value, s.apis[s.tab.remover.value]);
  }

  lemma OtherActKeepsTable(s: State, t: Tid, s': State)
    requires JoinInv(s) && t in s.apis && !WritePc(s.apis[t]) && !ClosePc(s.apis[t]) && ActStep(s, t) == Some(s')
    ensures TableOk(s') && CloneAt(s'.tab, t, s'.apis[t]) && TabStep(s.tab, s'.tab, t)
  {
    hide WriteStep, CloseStep;
    assert CloneAt(s.tab, t, s.apis[t]);
  }

  lemma CallKeepsTable(s: State, e: Event, s': State)
    requires JoinInv(s) && !ByRx(e) && !e.Act? && Apply(s, e) == Some(s')
    ensures TableOk(s') && CloneAt(s'.tab, e.t, s'.apis[e.t]) && TabStep(s.tab, s'.tab, e.t)
  {
    hide WriteStep, CloseStep, Encode, PacketOf;
    assert CloneAt(s.tab, e.t, s.apis[e.t]);
  }

  lemma RxKeepsTable(s: State, e: Event, s': State)
    requires JoinInv(s) && ByRx(e) && Apply(s, e) == Some(s')
    ensures TableOk(s') && s'.tab == s.tab
  {}

  lemma StepKeepsJoin(s: State, e: Event, s': State)
    requires JoinInv(s) && Apply(s, e) == Some(s')
    ensures JoinInv(s')
  {
    OneThreadMoves(s, e, s');
    if ByRx(e) {
      RxKeepsTable(s, e, s');
    } else if !e.Act? {
      CallKeepsTable(s, e, s');
    } else if WritePc(s.apis[e.t]) {
      WriteKeepsTable(s, e.t, s');
    } else if ClosePc(s.apis[e.t]) {
      CloseKeepsTable(s, e.t, s');
    } else {
      OtherActKeepsTable(s, e.t, s');
    }
    assert s.tab.inTable <==> s.tab.remover.None?;
    hide Apply, TableOk, CloneAt, TabStep;
    forall u <- s'.apis
      ensures CloneAt(s'.tab, u, s'.apis[u])
    {
      if !ByRx(e) && u != e.t {
        CloneAtStable(s.tab, s'.tab, e.t, u, s.apis[u]);
      }
    }
  }

  lemma {:induction false} JoinInvariant(states: seq<State>, events: seq<Event>, i: nat)
    requires IsRun(states, events) && i < |states|
    ensures JoinInv(states[i])
  {
    if i > 0 {
      JoinInvariant(states, events, i - 1);
      StepKeepsJoin(states[i - 1], events[i - 1], states[i]);
    }
  }

  lemma ExitIsFinal(s: State, e: Event, s': State)
    requires Apply(s, e) == Some(s') && s.rx.Exited?
    ensures s'.rx.Exited?
  {
    hide Encode, PacketOf, WriteStep, CloseStep;
  }

  /** Join protocol: over every run of canClose calls and drops, the receive thread is
      joined at most once, by the thread that removed the table entry and never by
      itself; and when that canClose, on another thread, is past its close, the receive
      loop has exited for good, so no push and no callback of this channel follows. */
  lemma {:induction false} JoinProtocol(states: seq<State>, events: seq<Event>, i: nat, j: nat)
    requires IsRun(states, events) && i <= j < |states|
    ensures |states[j].tab.joined| <= 1 && RX !in states[j].tab.joined
    ensures RemoverDone(states[j]) ==> states[j].tab.joined == [states[j].tab.remover.value]
    ensures RX in states[j].apis
    ensures RemoverDone(states[i]) ==> states[j].rx.Exited? && states[j].apis[RX].Idle?
    decreases j
  {
    JoinInvariant(states, events, i);
    JoinInvariant(states, events, j);
    if i < j {
      JoinProtocol(states, events, i, j - 1);
      if RemoverDone(states[i]) {
        ExitIsFinal(states[j - 1], events[j - 1], states[j]);
      }
    }
  }

  // ------------------------------------------------- what the calls accomplish

  /** The connection is torn down for good. */
  predicate Down(udp: bool, fl: Flags) {
    fl.closed && !fl.running && !fl.negotiated && (udp || fl.shut)
  }

  ghost predicate DownInv(s: State) {
    s.tab.remover.Some? && s.tab.remover.value in s.apis && !InCanClose(s.apis[s.tab.remover.value])
    ==> Down(s.udp, s.fl)
  }

  lemma CloseLeavesDown(udp: bool, t: Tid, pc: Pc, fl: Flags, tab: Table, rx: RxPc)
    requires InCanClose(pc) && FlagsAt(udp, fl, pc) && CloseStep(udp, t, pc, fl, tab, rx).Some?
    ensures var (pc', fl', _) := CloseStep(udp, t, pc, fl, tab, rx).value; InCanClose(pc') || Down(udp, fl')
  {}

  /** A `canClose` under way leaves it only by the end of its `close`. */
  lemma RemoverSteps(s: State, e: Event, s': State)
    requires FlagInv(s) && JoinInv(s) && Apply(s, e) == Some(s') && s.tab.remover.Some?
    requires InCanClose(s.apis[s.tab.remover.value])
    ensures s'.tab.remover == s.tab.remover
    ensures InCanClose(s'.apis[s.tab.remover.value]) || Down(s.udp, s'.fl)
  {
    OneThreadMoves(s, e, s');
    var t := s.tab.remover.value;
    assert FlagsAt(s.udp, s.fl, s.apis[t]) && !s.tab.inTable;
    hide WriteStep, CloseStep, Encode, PacketOf, FlagsAt, FlagsOk;
    if e == Act(t) {
      CloseLeavesDown(s.udp, t, s.apis[t], s.fl, s.tab, s.rx);
      CloseKeepsRemover(s.udp, t, s.apis[t], s.fl, s.tab, s.rx);
    } else {
      RemoverStays(s, e, s');
    }
  }

  lemma CloseKeepsRemover(udp: bool, t: Tid, pc: Pc, fl: Flags, tab: Table, rx: RxPc)
    requires ClosePc(pc) && CloseStep(udp, t, pc, fl, tab, rx).Some?
    ensures CloseStep(udp, t, pc, fl, tab, rx).value.2.remover == tab.remover
  {}

  lemma RemoverStays(s: State, e: Event, s': State)
    requires Apply(s, e) == Some(s') && !s.tab.inTable
    ensures s'.tab.remover == s.tab.remover
    ensures e.Act? || ByRx(e) || e.Take? || e.Fail? || e.Send?
    ensures e.Take? || e.Fail? || e.Send? ==> s.apis[e.t].WWrite?
  {
    hide WriteStep, CloseStep, Encode, PacketOf;
    if e.Act? && ClosePc(s.apis[e.t]) {
      CloseKeepsRemover(s.udp, e.t, s.apis[e.t], s.fl, s.tab, s.rx);
    }
  }

  lemma NewRemover(s: State, e: Event, s': State)
    requires JoinInv(s) && Apply(s, e) == Some(s') && s.tab.remover.None?
    ensures s'.tab.remover.Some? ==> InCanClose(s'.apis[s'.tab.remover.value])
  {
    hide WriteStep, CloseStep, Encode, PacketOf;
    assert !ByRx(e) ==> CloneAt(s.tab, e.t, s.apis[e.t]);
  }

  lemma StepKeepsDown(s: State, e: Event, s': State)
    requires FlagInv(s) && JoinInv(s) && DownInv(s) && Apply(s, e) == Some(s')
    ensures DownInv(s')
  {
    OneThreadMoves(s, e, s');
    StepKeepsFlags(s, e, s');
    if s.tab.remover.None? {
      NewRemover(s, e, s');
    } else if InCanClose(s.apis[s.tab.remover.value]) {
      RemoverSteps(s, e, s');
    } else {
      assert Down(s.udp, s.fl) && Down(s'.udp, s'.fl);
    }
  }

  /** What `canClose` accomplishes: once the one that took the entry is past its close,
      on any thread, the connection is closed, neither running nor negotiated, and over
      TCP shut down. */
  lemma {:induction false} CloseCompletes(states: seq<State>, events: seq<Event>, i: nat)
    requires IsRun(states, events) && i < |states|
    ensures DownInv(states[i])
  {
    hide DownInv, Apply;
    if i == 0 {
      NoRemoverYet(states[0]);
    } else {
      CloseCompletes(states, events, i - 1);
      TeardownFlags(states, events, i - 1);
      JoinInvariant(states, events, i - 1);
      StepKeepsDown(states[i - 1], events[i - 1], states[i]);
    }
  }

  lemma NoRemoverYet(s: State)
    requires Init(s)
    ensures DownInv(s)
  {}

  /** The receive loop does not stop by itself: it is past its reads only if a read failed
      or brought a corrupt stream, or it was told to stop; and a frame read is pushed. */
  lemma {:induction false} LoopStays(states: seq<State>, events: seq<Event>, i: nat)
    requires IsRun(states, events) && i < |states|
    requires forall k :: 0 <= k < i ==> !events[k].RxError? && states[k].fl.running
    ensures states[i].rx.Top? || states[i].rx.Reading? || states[i].rx.Pushing?
    ensures i > 0 && events[i - 1].RxFrame? ==> states[i].rx.Pushing?
  {
    if i > 0 {
      LoopStays(states, events, i - 1);
      assert Apply(states[i - 1], events[i - 1]) == Some(states[i]);
      LoopStep(states[i - 1], events[i - 1], states[i]);
    }
  }

  lemma LoopStep(s: State, e: Event, s': State)
    requires Apply(s, e) == Some(s') && !e.RxError? && s.fl.running
    requires s.rx.Top? || s.rx.Reading? || s.rx.Pushing?
    ensures s'.rx.Top? || s'.rx.Reading? || s'.rx.Pushing?
    ensures e.RxFrame? ==> s'.rx.Pushing?
  {
    hide WriteStep, CloseStep, Encode, PacketOf;
  }

  /** A read error, a corrupt stream or the end of the stream ends the loop: from then on
      it never reads or pushes again. */
  lemma {:induction false} ErrorStops(states: seq<State>, events: seq<Event>, i: nat, j: nat)
    requires IsRun(states, events) && i < j < |states| && events[i].RxError?
    ensures !states[j].rx.Top? && !states[j].rx.Reading? && !states[j].rx.Pushing?
    decreases j
  {
    assert Apply(states[j - 1], events[j - 1]) == Some(states[j]);
    if i < j - 1 {
      ErrorStops(states, events, i, j - 1);
      StaysStopped(states[j - 1], events[j - 1], states[j]);
    } else {
      ErrorStep(states[i], states[j]);
    }
  }

  lemma ErrorStep(s: State, s': State)
    requires Apply(s, RxError) == Some(s')
    ensures s'.rx.Exited? || s'.rx.Swap?
  {}

  lemma StaysStopped(s: State, e: Event, s': State)
    requires Apply(s, e) == Some(s') && !s.rx.Top? && !s.rx.Reading? && !s.rx.Pushing?
    ensures !s'.rx.Top? && !s'.rx.Reading? && !s'.rx.Pushing?
  {
    hide WriteStep, CloseStep, Encode, PacketOf;
  }

  /** The steps a loop past its reads has left: five if the teardown is its to do. */
  function LoopLeft(s: State): nat {
    match s.rx
    case Exited => 0
    case LNotify => 1
    case LStore => 2
    case LLost => 3
    case LNeg => 4
    case _ => if s.fl.running then 5 else 1
  }

  function Alone(n: nat): seq<Event> { if n == 0 then [] else [RxStep] + Alone(n - 1) }

  /** And once past its reads it is gone after those steps, which nothing can hold up. */
  lemma {:induction false} LoopEnds(s: State)
    requires !s.rx.Top? && !s.rx.Reading? && !s.rx.Pushing?
    ensures Then(s, Alone(LoopLeft(s))).Some? && Then(s, Alone(LoopLeft(s))).value.rx.Exited?
    decreases LoopLeft(s)
  {
    if !s.rx.Exited? {
      var s' := LoopAdvances(s);
      LoopEnds(s');
      var n := LoopLeft(s);
      assert Alone(n)[0] == RxStep && Alone(n)[1..] == Alone(n - 1);
      hide Apply;
    }
  }

  lemma LoopAdvances(s: State) returns (s': State)
    requires !s.rx.Top? && !s.rx.Reading? && !s.rx.Pushing? && !s.rx.Exited?
    ensures Apply(s, RxStep) == Some(s') && LoopLeft(s') == LoopLeft(s) - 1
    ensures !s'.rx.Top? && !s'.rx.Reading? && !s'.rx.Pushing?
  {
    s' := Apply(s, RxStep).value;
  }

  // ----------------------------------------------------- the last clone to go

  const DROPPED := CRun(true)

  /** No clone and no table entry is left. */
  predicate Gone(tab: Table) { !tab.inTable && tab.refs == {} }

  /** How often the `close` of a drop has begun. */
  function DropCloses(states: seq<State>, events: seq<Event>, i: nat): nat
    requires i <= |events| && i < |states|
  {
    if i == 0 then 0 else
    var s, e := states[i - 1], events[i - 1];
    DropCloses(states, events, i - 1) + BeginsDrop(s, e)
  }

  ghost predicate AboutToClose(s: State) { exists t <- s.apis :: s.apis[t] == DROPPED }

  /** `n` closes of a drop have begun. */
  ghost predicate DropInv(s: State, n: nat) {
    && (AboutToClose(s) ==> Gone(s.tab) && n == 0)
    && (!AboutToClose(s) ==> n == if Gone(s.tab) then 1 else 0)
    && (forall t <- s.apis, u <- s.apis :: s.apis[t] == DROPPED && s.apis[u] == DROPPED ==> t == u)
  }

  /** What a step does to its thread's program point and to the clones. */
  lemma DropSteps(s: State, e: Event, s': State)
    requires JoinInv(s) && Apply(s, e) == Some(s')
    ensures Gone(s.tab) ==> Gone(s'.tab)
    ensures ByRx(e) ==> s'.tab == s.tab
    ensures !ByRx(e) && s'.apis[e.t] == DROPPED ==> Gone(s'.tab) && !Gone(s.tab)
    ensures !ByRx(e) && Gone(s'.tab) && !Gone(s.tab) ==> s'.apis[e.t] == DROPPED
  {
    hide Encode, PacketOf, WriteStep, RxOwn;
    if !ByRx(e) {
      assert CloneAt(s.tab, e.t, s.apis[e.t]);
      assert e.t in s.tab.refs <==> !s.apis[e.t].Idle? && !InDrop(s.apis[e.t]);
      if e.Act? && WritePc(s.apis[e.t]) {
        WriteLeavesDrops(e.t, s.apis[e.t], s.fl, s.tx);
      }
    }
  }

  lemma WriteLeavesDrops(t: Tid, pc: Pc, fl: Flags, tx: Tx)
    requires WritePc(pc) && WriteStep(t, pc, fl, tx).Some?
    ensures !ClosePc(WriteStep(t, pc, fl, tx).value.0)
  {}

  function BeginsDrop(s: State, e: Event): nat { if e.Act? && e.t in s.apis && s.apis[e.t] == DROPPED then 1 else 0 }

  lemma StepKeepsDrop(s: State, e: Event, s': State, n: nat)
    requires JoinInv(s) && DropInv(s, n) && Apply(s, e) == Some(s')
    ensures DropInv(s', n + BeginsDrop(s, e))
  {
    hide Apply, JoinInv, Gone, DropInv;
    OneThreadMoves(s, e, s');
    DropSteps(s, e, s');
    if ByRx(e) {
      assert s'.apis == s.apis;
      SameDrop(s, s', n);
    } else {
      OneOfThem(s, e, s');
      DropMoves(s, e.t, s', n);
      if !e.Act? && s.apis[e.t] == DROPPED {
        OnlyActs(s, e);
      }
    }
  }

  lemma SameDrop(s: State, s': State, n: nat)
    requires DropInv(s, n) && s'.apis == s.apis && s'.tab == s.tab
    ensures DropInv(s', n)
  {
    hide Gone;
  }

  lemma OneOfThem(s: State, e: Event, s': State)
    requires Apply(s, e) == Some(s') && !ByRx(e)
    ensures e.t in s.apis && e.t in s'.apis && s'.apis == s.apis[e.t := s'.apis[e.t]]
  {
    OneThreadMoves(s, e, s');
    hide WriteStep, CloseStep, Encode, PacketOf;
  }

  lemma OnlyActs(s: State, e: Event)
    requires Apply(s, e).Some? && !ByRx(e) && e.t in s.apis && s.apis[e.t] == DROPPED
    ensures e.Act?
  {
    hide WriteStep, CloseStep, Encode, PacketOf;
  }

  lemma DropMoves(s: State, t: Tid, s': State, n: nat)
    requires DropInv(s, n) && t in s.apis && t in s'.apis && s'.apis == s.apis[t := s'.apis[t]]
    requires Gone(s.tab) ==> Gone(s'.tab)
    requires s'.apis[t] == DROPPED <==> Gone(s'.tab) && !Gone(s.tab)
    ensures DropInv(s', n + if s.apis[t] == DROPPED then 1 else 0)
  {
    hide Gone;
    if AboutToClose(s) {
      var u :| u in s.apis && s.apis[u] == DROPPED;
      assert u != t ==> s'.apis[u] == DROPPED;
    }
  }

  /** The connection's own `close`, of `Drop`: it begins exactly once, by the thread whose
      clone is the last to go, as soon as the table entry and every clone are gone, and
      never before. */
  lemma {:induction false} LastDropCloses(states: seq<State>, events: seq<Event>, i: nat)
    requires IsRun(states, events) && i < |states|
    ensures DropInv(states[i], DropCloses(states, events, i))
  {
    hide DropInv, JoinInv, Apply, BeginsDrop;
    if i == 0 {
      NothingDropped(states[0]);
    } else {
      LastDropCloses(states, events, i - 1);
      JoinInvariant(states, events, i - 1);
      StepKeepsDrop(states[i - 1], events[i - 1], states[i], DropCloses(states, events, i - 1));
    }
  }

  lemma NothingDropped(s: State)
    requires Init(s)
    ensures DropInv(s, 0)
  {}

  // ---------------------------------------------------------------- the writes

  /** Past the `is_ready` test of a write that may still send or return Ok. */
  predicate MaySend(pc: Pc) { pc.WLock? || pc.WWrite? || (pc.WUnlock? && pc.ok) }

  ghost predicate NoWrites(s: State) {
    !s.fl.negotiated && forall t <- s.apis :: !MaySend(s.apis[t])
  }

  /** What the socket was given, and what was returned for it. */
  predicate SameSent(tx: Tx, tx': Tx) {
    tx'.sent == tx.sent && tx'.packets == tx.packets && tx'.tries == tx.tries && tx'.oks == tx.oks
  }

  lemma StepRefuses(s: State, e: Event, s': State)
    requires FlagInv(s) && NoWrites(s) && Apply(s, e) == Some(s')
    ensures NoWrites(s') && SameSent(s.tx, s'.tx)
  {
    OneThreadMoves(s, e, s');
    StepKeepsFlags(s, e, s');
    hide WriteStep, CloseStep, RxOwn, Encode, PacketOf, FlagInv;
    if e.Act? && WritePc(s.apis[e.t]) {
      WriteRefused(e.t, s.apis[e.t], s.fl, s.tx);
    } else if e.Act? && ClosePc(s.apis[e.t]) {
      CloseStaysOut(s.udp, e.t, s.apis[e.t], s.fl, s.tab, s.rx);
    }
  }

  lemma WriteRefused(t: Tid, pc: Pc, fl: Flags, tx: Tx)
    requires WritePc(pc) && !MaySend(pc) && !fl.negotiated && WriteStep(t, pc, fl, tx).Some?
    ensures var (pc', _, tx') := WriteStep(t, pc, fl, tx).value; !MaySend(pc') && SameSent(tx, tx')
  {}

  lemma CloseStaysOut(udp: bool, t: Tid, pc: Pc, fl: Flags, tab: Table, rx: RxPc)
    requires ClosePc(pc) && CloseStep(udp, t, pc, fl, tab, rx).Some?
    ensures !WritePc(CloseStep(udp, t, pc, fl, tab, rx).value.0)
  {}

  /** A write on a link that is down is refused. From a state with `negotiated` clear and
      no write past its test that may still send, nothing more is ever put on the socket
      and no write returns Ok, over TCP and UDP. */
  lemma {:induction false} DownRefusesWrites(states: seq<State>, events: seq<Event>, i: nat, j: nat)
    requires IsRun(states, events) && i <= j < |states| && !states[i].fl.negotiated
    requires forall t <- states[i].apis :: !MaySend(states[i].apis[t])
    ensures NoWrites(states[j])
    ensures states[j].tx.sent == states[i].tx.sent && states[j].tx.packets == states[i].tx.packets
    ensures states[j].tx.tries == states[i].tx.tries && states[j].tx.oks == states[i].tx.oks
    decreases j
  {
    if i < j {
      DownRefusesWrites(states, events, i, j - 1);
      TeardownFlags(states, events, j - 1);
      StepRefuses(states[j - 1], events[j - 1], states[j]);
    }
  }

  function Then(s: State, es: seq<Event>): Option<State>
    decreases es
  {
    if es == [] then Some(s)
    else match Apply(s, es[0])
      case None => None
      case Some(s') => Then(s', es[1..])
  }

  lemma WriteActs(s: State, t: Tid, pc: Pc, fl: Flags, tx: Tx)
    requires t in s.apis && WritePc(s.apis[t]) && WriteStep(t, s.apis[t], s.fl, s.tx) == Some((pc, fl, tx))
    ensures Apply(s, Act(t)) == Some(s.(fl := fl, tx := tx, apis := s.apis[t := pc]))
  {
    hide WriteStep;
  }

  lemma TakesAll(s: State, t: Tid, f: Frame)
    requires !s.udp && t in s.apis && s.apis[t] == WWrite(f, 0) && InClass(f) && !s.fl.shut
    ensures Apply(s, Take(t, |Encode(f)|))
         == Some(s.(tx := s.tx.(sent := s.tx.sent + Encode(f)), apis := s.apis[t := WUnlock(f, true)]))
  {
    var n := |Encode(f)|;
    assert n > 0;
    hide Encode;
    assert Encode(f)[0..n] == Encode(f);
  }

  lemma Sends(s: State, t: Tid, f: Frame)
    requires s.udp && t in s.apis && s.apis[t] == WWrite(f, 0) && InClass(f)
    ensures Apply(s, Send(t, true)) == Some(
      s.(tx := s.tx.(seqNo := Next(s.tx.seqNo), packets := s.tx.packets + [PacketOf(f, s.tx.seqNo)],
                     tries := s.tx.tries + [Try(f, true)]),
         apis := s.apis[t := WUnlock(f, true)]))
  {
    hide PacketOf;
  }

  /** The first two steps of a write on a link that is up, with the tx lock free. */
  lemma GoesToSocket(s: State, t: Tid, f: Frame) returns (s1: State, s2: State)
    requires t in s.apis && s.apis[t] == WCheck(f) && s.fl.negotiated && s.tx.lock.None?
    ensures Apply(s, Act(t)) == Some(s1) && Apply(s1, Act(t)) == Some(s2)
    ensures s2 == s.(tx := s.tx.(lock := Some(t)), apis := s.apis[t := WWrite(f, 0)])
  {
    hide Apply;
    s1 := s.(apis := s.apis[t := WLock(f)]);
    WriteActs(s, t, WLock(f), s.fl, s.tx);
    WriteActs(s1, t, WWrite(f, 0), s.fl, s.tx.(lock := Some(t)));
    s2 := s1.(tx := s.tx.(lock := Some(t)), apis := s1.apis[t := WWrite(f, 0)]);
    assert s1.apis[t := WWrite(f, 0)] == s.apis[t := WWrite(f, 0)];
  }

  lemma Returns(s: State, t: Tid, f: Frame)
    requires t in s.apis && s.apis[t] == WUnlock(f, true)
    ensures Apply(s, Act(t))
         == Some(s.(tx := s.tx.(lock := None, oks := s.tx.oks + [f]), apis := s.apis[t := Dropping]))
  {
    hide Apply;
    WriteActs(s, t, Dropping, s.fl, s.tx.(lock := None, oks := s.tx.oks + [f]));
  }

  /** A write on a link that is up, with the tx lock free and a willing socket, sends the
      whole frame and returns Ok, over TCP... */
  lemma UpWritesStream(s: State, t: Tid, f: Frame)
    requires !s.udp && t in s.apis && s.apis[t] == WCheck(f) && InClass(f)
    requires s.fl.negotiated && !s.fl.shut && s.tx.lock.None?
    ensures Then(s, [Act(t), Act(t), Take(t, |Encode(f)|), Act(t)]) == Some(
      s.(tx := s.tx.(sent := s.tx.sent + Encode(f), oks := s.tx.oks + [f]), apis := s.apis[t := Dropping]))
  {
    hide Encode, Apply;
    var s1, s2 := GoesToSocket(s, t, f);
    TakesAll(s2, t, f);
    var s3 := s2.(tx := s2.tx.(sent := s.tx.sent + Encode(f)), apis := s2.apis[t := WUnlock(f, true)]);
    Returns(s3, t, f);
    var s4 := s.(tx := s.tx.(sent := s.tx.sent + Encode(f), oks := s.tx.oks + [f]), apis := s.apis[t := Dropping]);
    assert s3.apis[t := Dropping] == s4.apis;
    FourSteps(s, Act(t), s1, Act(t), s2, Take(t, |Encode(f)|), s3, Act(t), s4);
  }

  /** ... and UDP. */
  lemma UpWritesDatagram(s: State, t: Tid, f: Frame)
    requires s.udp && t in s.apis && s.apis[t] == WCheck(f) && InClass(f)
    requires s.fl.negotiated && s.tx.lock.None?
    ensures Then(s, [Act(t), Act(t), Send(t, true), Act(t)]) == Some(
      s.(tx := s.tx.(seqNo := Next(s.tx.seqNo), packets := s.tx.packets + [PacketOf(f, s.tx.seqNo)],
                     tries := s.tx.tries + [Try(f, true)], oks := s.tx.oks + [f]),
         apis := s.apis[t := Dropping]))
  {
    hide PacketOf, Apply, Next;
    var s1, s2 := GoesToSocket(s, t, f);
    Sends(s2, t, f);
    var tx := s2.tx.(seqNo := Next(s.tx.seqNo), packets := s.tx.packets + [PacketOf(f, s.tx.seqNo)],
                     tries := s.tx.tries + [Try(f, true)]);
    var s3 := s2.(tx := tx, apis := s2.apis[t := WUnlock(f, true)]);
    Returns(s3, t, f);
    var s4 := s.(tx := tx.(lock := None, oks := s.tx.oks + [f]), apis := s.apis[t := Dropping]);
    assert s3.apis[t := Dropping] == s4.apis;
    FourSteps(s, Act(t), s1, Act(t), s2, Send(t, true), s3, Act(t), s4);
  }

  lemma FourSteps(s: State, a: Event, s1: State, b: Event, s2: State, c: Event, s3: State, d: Event, s4: State)
    requires Apply(s, a) == Some(s1) && Apply(s1, b) == Some(s2)
    requires Apply(s2, c) == Some(s3) && Apply(s3, d) == Some(s4)
    ensures Then(s, [a, b, c, d]) == Some(s4)
  {
    hide Apply;
    assert [a, b, c, d][1..] == [b, c, d] && [b, c, d][1..] == [c, d] && [c, d][1..] == [d];
    assert Then(s3, [d]) == Some(s4);
    assert Then(s2, [c, d]) == Some(s4);
    assert Then(s1, [b, c, d]) == Some(s4);
  }
}
