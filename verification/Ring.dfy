/** The bounded receive ring of src/transport.rs: the `Shared` object with its calls
    taken as atomic, the accounting of every frame over a whole run, and the UDP loop
    that feeds it. */
module Ring {
  import opened Wire
  import opened Translate
  import Receiver
  import Decoders

  const RING_CAP := Receiver.RING_CAP

  datatype Ring = Ring(q: seq<Frame>, overflow: bool)

  const EMPTY := Ring([], false)

  /** The lock-atomic effects on the ring. `clear` is two of them, `Flush` and `Unlatch`. */
  datatype Op = Enqueue(f: Frame) | Pop | Flush | Unlatch

  function Do(r: Ring, op: Op): Ring {
    match op
    case Enqueue(f) => if |r.q| >= RING_CAP then r.(overflow := true) else r.(q := r.q + [f])
    case Pop => if r.q == [] then r else r.(q := r.q[1..])
    case Flush => r.(q := [])
    case Unlatch => r.(overflow := false)
  }

  function After(ops: seq<Op>): Ring {
    if ops == [] then EMPTY else Do(After(ops[..|ops| - 1]), ops[|ops| - 1])
  }

  /** A full ring holds 8192 frames: it drops the one that comes, and latches; a ring with
      room takes it at the end and leaves the latch. */
  lemma Capacity(r: Ring, f: Frame)
    ensures |r.q| < 8192 ==> Do(r, Enqueue(f)) == Ring(r.q + [f], r.overflow)
    ensures |r.q| >= 8192 ==> Do(r, Enqueue(f)) == Ring(r.q, true)
  {}

  // ------------------------------------------------------- the fate of frames

  predicate Drops(ops: seq<Op>, i: nat)
    requires i < |ops|
  {
    ops[i].Enqueue? && |After(ops[..i]).q| >= RING_CAP
  }

  /** The frames offered to the ring, and which of them it took, dropped, handed to a
      reader or threw away in a flush, each in order of happening. */
  function Admitted(ops: seq<Op>): seq<Frame> {
    if ops == [] then [] else
    var (front, last) := (ops[..|ops| - 1], ops[|ops| - 1]);
    Admitted(front) + if last.Enqueue? then [last.f] else []
  }

  function Dropped(ops: seq<Op>): seq<Frame> {
    if ops == [] then [] else
    var (front, last) := (ops[..|ops| - 1], ops[|ops| - 1]);
    Dropped(front) + if Drops(ops, |ops| - 1) then [last.f] else []
  }

  function Taken(ops: seq<Op>): seq<Frame> {
    if ops == [] then [] else
    var (front, last) := (ops[..|ops| - 1], ops[|ops| - 1]);
    Taken(front) + TakenBy(After(front).q, last)
  }

  function TakenBy(q: seq<Frame>, op: Op): seq<Frame> {
    if op.Enqueue? && |q| < RING_CAP then [op.f] else []
  }

  /** Frames that left the ring, and whether to a reader. */
  datatype Exit = Exit(f: Frame, delivered: bool)

  function Exits(ops: seq<Op>): seq<Exit> {
    if ops == [] then [] else
    var (front, last) := (ops[..|ops| - 1], ops[|ops| - 1]);
    Exits(front) + ExitsBy(After(front).q, last)
  }

  function ExitsBy(q: seq<Frame>, op: Op): seq<Exit> {
    match op
    case Pop => if q == [] then [] else [Exit(q[0], true)]
    case Flush => seq(|q|, i requires 0 <= i < |q| => Exit(q[i], false))
    case _ => []
  }

  function Frames(xs: seq<Exit>): (fs: seq<Frame>)
    ensures |fs| == |xs|
    ensures forall i :: 0 <= i < |xs| ==> fs[i] == xs[i].f
  {
    if xs == [] then [] else Frames(xs[..|xs| - 1]) + [xs[|xs| - 1].f]
  }

  /** Delivered (or flushed) frames, in order. */
  function Chosen(xs: seq<Exit>, delivered: bool): seq<Frame> {
    if xs == [] then [] else
    Chosen(xs[..|xs| - 1], delivered) + if xs[|xs| - 1].delivered == delivered then [xs[|xs| - 1].f] else []
  }

  lemma OneOp(r: Ring, op: Op)
    requires |r.q| <= RING_CAP
    ensures r.q + TakenBy(r.q, op) == Frames(ExitsBy(r.q, op)) + Do(r, op).q
    ensures |Do(r, op).q| <= RING_CAP
  {}

  lemma FramesAppend(xs: seq<Exit>, ys: seq<Exit>)
    ensures Frames(xs + ys) == Frames(xs) + Frames(ys)
  {}

  /** Arrival order: the frames taken are those that left, in that order, then those
      still queued. So delivery keeps arrival order, nothing is delivered twice, and
      the level never exceeds the capacity. */
  lemma {:induction false} ArrivalOrder(ops: seq<Op>)
    ensures Taken(ops) == Frames(Exits(ops)) + After(ops).q
    ensures |After(ops).q| <= 8192
  {
    if ops != [] {
      var (front, last) := (ops[..|ops| - 1], ops[|ops| - 1]);
      ArrivalOrder(front);
      var r := After(front);
      OneOp(r, last);
      FramesAppend(Exits(front), ExitsBy(r.q, last));
      Shuffle(Frames(Exits(front)), r.q, TakenBy(r.q, last), Frames(ExitsBy(r.q, last)), Do(r, last).q);
      hide Do, TakenBy, ExitsBy, Frames;
    }
  }

  lemma Shuffle(gone: seq<Frame>, q: seq<Frame>, take: seq<Frame>, go: seq<Frame>, q': seq<Frame>)
    requires q + take == go + q'
    ensures (gone + q) + take == (gone + go) + q'
  {
    assert (gone + q) + take == gone + (q + take);
    assert (gone + go) + q' == gone + (go + q');
  }

  lemma {:induction false} ChosenCounts(xs: seq<Exit>)
    ensures multiset(Frames(xs)) == multiset(Chosen(xs, true)) + multiset(Chosen(xs, false))
  {
    if xs != [] {
      ChosenCounts(xs[..|xs| - 1]);
    }
  }

  lemma {:induction false} AdmittedCounts(ops: seq<Op>)
    ensures multiset(Admitted(ops)) == multiset(Taken(ops)) + multiset(Dropped(ops))
  {
    if ops != [] {
      var front := ops[..|ops| - 1];
      AdmittedCounts(front);
      assert ops[..|ops| - 1] == front;
    }
  }

  /** Conservation: every admitted frame is delivered, queued, flushed or dropped, once. */
  lemma Conservation(ops: seq<Op>)
    ensures multiset(Admitted(ops)) == multiset(Chosen(Exits(ops), true)) + multiset(After(ops).q)
         + multiset(Chosen(Exits(ops), false)) + multiset(Dropped(ops))
  {
    AdmittedCounts(ops);
    ArrivalOrder(ops);
    ChosenCounts(Exits(ops));
  }

  /** The op at `i` dropped a frame and no latch reset came after it. */
  ghost predicate DropStands(ops: seq<Op>, i: nat) {
    && i < |ops| && Drops(ops, i)
    && forall j :: i < j < |ops| ==> ops[j] != Unlatch
  }

  lemma DropStandsFront(ops: seq<Op>, i: nat)
    requires i + 1 < |ops|
    ensures DropStands(ops, i) <==> DropStands(ops[..|ops| - 1], i) && ops[|ops| - 1] != Unlatch
  {
    hide Do;
    var front := ops[..|ops| - 1];
    assert front[..i] == ops[..i];
  }

  /** The overrun latch is set exactly when a frame was dropped since the last reset. */
  lemma {:induction false} LatchMeansDrop(ops: seq<Op>)
    ensures After(ops).overflow <==> exists i: nat :: DropStands(ops, i)
  {
    if ops != [] {
      var n := |ops| - 1;
      var front := ops[..n];
      LatchMeansDrop(front);
      if i: nat :| DropStands(front, i) {
        DropStandsFront(ops, i);
      }
      if i: nat :| DropStands(ops, i) && i < n {
        DropStandsFront(ops, i);
      }
      assert DropStands(ops, n) <==> Drops(ops, n);
      hide DropStands;
      if After(ops).overflow && !Drops(ops, n) {
        assert After(front).overflow && ops[n] != Unlatch;
        var i: nat :| DropStands(front, i);
        FrontBound(front, i);
        DropStandsFront(ops, i);
      }
    }
  }

  lemma FrontBound(ops: seq<Op>, i: nat)
    requires DropStands(ops, i)
    ensures i < |ops|
  {}

  // --------------------------------------------------------- the Shared object

  /** A call another thread makes, with one lock-atomic effect. */
  datatype Call = Read | FlushQueue | ResetLatch | Direct(d: Directive)

  /** The ring's history and the filter. */
  datatype View = View(log: seq<Op>, filters: Accept)

  const START := View([], ACCEPT_ALL)

  function Called(v: View, c: Call): View {
    match c
    case Read => v.(log := v.log + [Pop])
    case FlushQueue => v.(log := v.log + [Flush])
    case ResetLatch => v.(log := v.log + [Unlatch])
    case Direct(d) => v.(filters := SetAccept(v.filters, d))
  }

  function CalledAll(v: View, cs: seq<Call>): View {
    if cs == [] then v else Called(CalledAll(v, cs[..|cs| - 1]), cs[|cs| - 1])
  }

  function Offered(v: View, f: Frame, now: nat): View {
    if Accepts(v.filters, f.canId) then v.(log := v.log + [Enqueue(f.(rxTime := now))]) else v
  }

  lemma AfterOne(log: seq<Op>, op: Op)
    ensures After(log + [op]) == Do(After(log), op)
  {
    assert (log + [op])[..|log|] == log;
  }

  /** `Shared` with each call taken whole. Its history is kept in `log`. */
  class Shared {
    var q: seq<Frame>
    var overflow: bool
    var filters: Accept
    ghost var log: seq<Op>

    constructor ()
      ensures Valid() && Now() == START
    {
      q, overflow, filters, log := [], false, ACCEPT_ALL, [];
    }

    function Contents(): Ring
      reads this
    {
      Ring(q, overflow)
    }

    /** The contents are what the history leaves. */
    ghost predicate Valid()
      reads this
    {
      Contents() == After(log)
    }

    ghost function Now(): View
      reads this
    {
      View(log, filters)
    }

    /** `push`: filtered out, dropped with the latch set, or queued with its receive
        stamp; in the last case the id and time the notify callback is shown. */
    method Push(f: Frame, now: nat) returns (event: Option<(i32, nat)>)
      requires Valid()
      modifies this
      ensures Valid() && Now() == Offered(old(Now()), f, now)
      ensures Contents() == if Accepts(filters, f.canId) then Do(old(Contents()), Enqueue(f.(rxTime := now)))
                            else old(Contents())
      ensures event == if q == old(q) then None else Some((CanIdToKvaser(f.canId, f.fd).0, now))
    {
      hide CanIdToKvaser, Accepts, After;
      if !Accepts(filters, f.canId) {
        return None;
      }
      var g := f.(rxTime := now);
      AfterOne(log, Enqueue(g));
      log := log + [Enqueue(g)];
      var notifyId := CanIdToKvaser(g.canId, g.fd).0;
      if |q| >= RING_CAP {
        overflow := true;
        return None;
      }
      q := q + [g];
      assert |q| != |old(q)|;
      return Some((notifyId, now));
    }

    method TryPop() returns (f: Option<Frame>)
      requires Valid()
      modifies this
      ensures Valid() && Now() == Called(old(Now()), Read)
      ensures Contents() == Do(old(Contents()), Pop)
      ensures f == if old(q) == [] then None else Some(old(q)[0])
    {
      hide After;
      AfterOne(log, Pop);
      log := log + [Pop];
      if q == [] {
        return None;
      }
      f := Some(q[0]);
      q := q[1..];
    }

    /** The first step of `clear`. */
    method Empty()
      requires Valid()
      modifies this
      ensures Valid() && Now() == Called(old(Now()), FlushQueue)
      ensures Contents() == Do(old(Contents()), Flush)
    {
      hide After;
      AfterOne(log, Flush);
      log := log + [Flush];
      q := [];
    }

    /** Its second step, which a push may get in before. */
    method Unset()
      requires Valid()
      modifies this
      ensures Valid() && Now() == Called(old(Now()), ResetLatch)
      ensures Contents() == Do(old(Contents()), Unlatch)
    {
      hide After;
      AfterOne(log, Unlatch);
      log := log + [Unlatch];
      overflow := false;
    }

    method SetFilter(d: Directive)
      requires Valid()
      modifies this
      ensures Valid() && Now() == Called(old(Now()), Direct(d)) && Contents() == old(Contents())
      ensures filters == SetAccept(old(filters), d)
    {
      match d.flag
      case 3 => filters := filters.(codeStd := d.envelope);
      case 4 => filters := filters.(maskStd := d.envelope);
      case 5 => filters := filters.(codeExt := d.envelope);
      case 6 => filters := filters.(maskExt := d.envelope);
      case _ =>
    }

    /** The calls other threads complete between two pushes. */
    method Interfere(cs: seq<Call>)
      requires Valid()
      modifies this
      ensures Valid() && Now() == CalledAll(old(Now()), cs)
    {
      for i := 0 to |cs|
        invariant Valid() && Now() == CalledAll(old(Now()), cs[..i])
      {
        assert cs[..i + 1][..i] == cs[..i];
        match cs[i]
        case Read => var _ := TryPop();
        case FlushQueue => Empty();
        case ResetLatch => Unset();
        case Direct(d) => SetFilter(d);
      }
      assert cs[..|cs|] == cs;
    }
  }

  // --------------------------------------------------------- the UDP loop

  type Ip = nat

  /** What one `recv_from` brings. */
  datatype Arrival = Packet(from: Ip, buf: Bytes) | TimedOut | SocketError

  /** The receive buffer; a longer datagram loses its tail. */
  const RX_BUFFER := 2048

  function Kept(buf: Bytes): Bytes { if |buf| > RX_BUFFER then buf[..RX_BUFFER] else buf }

  predicate PeerAllowed(from: Ip, allow: seq<Ip>, check: bool) { !check || from in allow }

  /** The explicit allow list, or just the configured peer. */
  function EffectiveAllow(allow: seq<Ip>, peer: Ip): seq<Ip> { if allow == [] then [peer] else allow }

  /** Who may send, whatever the settings: with the check off anybody; else those on the
      list, or the configured peer if there is no list. */
  predicate Trusted(from: Ip, allow: seq<Ip>, peer: Ip, check: bool) {
    check ==> from in allow || (allow == [] && from == peer)
  }

  lemma PeerRule(from: Ip, allow: seq<Ip>, peer: Ip, check: bool)
    ensures PeerAllowed(from, EffectiveAllow(allow, peer), check) <==> Trusted(from, allow, peer, check)
  {}

  /** A datagram over 2048 bytes loses its tail, and no other loses anything. */
  lemma KeptIs(buf: Bytes)
    ensures |buf| <= 2048 ==> Kept(buf) == buf
    ensures |buf| > 2048 ==> Kept(buf) == buf[..2048]
  {}

  function FramesIn(buf: Bytes): seq<Frame> {
    if Decoders.Datagram(buf).Some? then Decoders.Datagram(buf).value else []
  }

  /** The frames of one arrival: those of an allowed, wholly well-formed datagram. */
  function FramesOf(a: Arrival, allow: seq<Ip>, check: bool): seq<Frame> {
    if a.Packet? && PeerAllowed(a.from, allow, check) then FramesIn(Kept(a.buf)) else []
  }

  function Ingested(arrivals: seq<Arrival>, allow: seq<Ip>, check: bool): seq<Frame> {
    if arrivals == [] || arrivals[0].SocketError? then []
    else FramesOf(arrivals[0], allow, check) + Ingested(arrivals[1..], allow, check)
  }

  predicate NoError(arrivals: seq<Arrival>) {
    forall i :: 0 <= i < |arrivals| ==> !arrivals[i].SocketError?
  }

  /** What is ingested of two stretches of arrivals, without a socket error in the first,
      is what is ingested of each. */
  lemma {:induction false} IngestedAppend(a: seq<Arrival>, b: seq<Arrival>, allow: seq<Ip>, check: bool)
    requires NoError(a)
    ensures Ingested(a + b, allow, check) == Ingested(a, allow, check) + Ingested(b, allow, check)
  {
    hide FramesOf;
    if a == [] {
      assert a + b == b;
    } else {
      assert (a + b)[1..] == a[1..] + b;
      IngestedAppend(a[1..], b, allow, check);
      Joins(FramesOf(a[0], allow, check), Ingested(a[1..], allow, check), Ingested(b, allow, check));
    }
  }

  lemma Joins(x: seq<Frame>, y: seq<Frame>, z: seq<Frame>)
    ensures x + (y + z) == (x + y) + z
  {}

  /** A read time-out, or half a second of idle bus, changes nothing, wherever it comes. */
  lemma {:induction false} QuietPast(a: seq<Arrival>, b: seq<Arrival>, allow: seq<Ip>, check: bool)
    ensures Ingested(a + [TimedOut] + b, allow, check) == Ingested(a + b, allow, check)
  {
    if a == [] {
      assert a + [TimedOut] + b == [TimedOut] + b && a + b == b && ([TimedOut] + b)[1..] == b;
      assert [] + Ingested(b, allow, check) == Ingested(b, allow, check);
    } else {
      hide FramesOf;
      QuietPast(a[1..], b, allow, check);
      assert (a + [TimedOut] + b)[1..] == a[1..] + [TimedOut] + b;
      assert (a + b)[1..] == a[1..] + b;
    }
  }

  /** After a socket error nothing more is ingested. */
  lemma {:induction false} ErrorEnds(a: seq<Arrival>, b: seq<Arrival>, allow: seq<Ip>, check: bool)
    ensures Ingested(a + [SocketError] + b, allow, check) == Ingested(a, allow, check)
  {
    hide FramesOf;
    if a == [] {
      assert a + [SocketError] + b == [SocketError] + b;
    } else {
      ErrorEnds(a[1..], b, allow, check);
      assert (a + [SocketError] + b)[1..] == a[1..] + [SocketError] + b;
    }
  }

  /** One datagram counts, whole, exactly if its sender is trusted. */
  lemma IngestedOne(from: Ip, buf: Bytes, allow: seq<Ip>, peer: Ip, check: bool)
    ensures Ingested([Packet(from, buf)], EffectiveAllow(allow, peer), check)
         == if Trusted(from, allow, peer, check) then FramesIn(Kept(buf)) else []
  {
    hide FramesIn, Kept;
    PeerRule(from, allow, peer, check);
    assert [Packet(from, buf)][1..] == [];
    assert FramesOf(Packet(from, buf), EffectiveAllow(allow, peer), check) + []
        == FramesOf(Packet(from, buf), EffectiveAllow(allow, peer), check);
  }

  /** What the rest of the program does around the k-th push: the calls completed before
      it, and the clock it reads. */
  datatype World = World(calls: nat -> seq<Call>, clock: nat -> nat)

  /** Pushing `fs` as pushes number `k` and on. */
  function Fed(v: View, fs: seq<Frame>, k: nat, w: World): View
    decreases fs
  {
    if fs == [] then v
    else Fed(Offered(CalledAll(v, w.calls(k)), fs[0], w.clock(k)), fs[1..], k + 1, w)
  }

  lemma {:induction false} FedAppend(v: View, fs: seq<Frame>, gs: seq<Frame>, k: nat, w: World)
    ensures Fed(v, fs + gs, k, w) == Fed(Fed(v, fs, k, w), gs, k + |fs|, w)
    decreases fs
  {
    hide Offered, CalledAll;
    if fs == [] {
      assert fs + gs == gs;
    } else {
      assert (fs + gs)[1..] == fs[1..] + gs;
      FedAppend(Offered(CalledAll(v, w.calls(k)), fs[0], w.clock(k)), fs[1..], gs, k + 1, w);
    }
  }

  /** `guarded_udp_ingest`: push the frames of a datagram, if it parses. */
  method GuardedIngest(rx: Shared, buf: Bytes, k: nat, w: World) returns (next: nat)
    requires rx.Valid()
    modifies rx
    ensures rx.Valid() && next == k + |FramesIn(buf)|
    ensures rx.Now() == Fed(old(rx.Now()), FramesIn(buf), k, w)
  {
    hide Decoders.Datagram, After, Offered, CalledAll;
    var parsed := Decoders.ParseUdp(buf);
    next := k;
    if parsed.Some? {
      var fs := parsed.value;
      for i := 0 to |fs|
        invariant rx.Valid() && next == k + i
        invariant rx.Now() == Fed(old(rx.Now()), fs[..i], k, w)
      {
        assert fs[..i + 1] == fs[..i] + [fs[i]];
        FedAppend(old(rx.Now()), fs[..i], [fs[i]], k, w);
        rx.Interfere(w.calls(next));
        var _ := rx.Push(fs[i], w.clock(next));
        next := next + 1;
      }
      assert fs[..|fs|] == fs;
    }
  }

  /** `udp_rx_loop` over the arrivals seen while `running` was found set, with other
      threads reading, flushing and filtering in between: it pushes the frames of the
      allowed datagrams that fully parse, in order, up to a socket error; a malformed
      datagram contributes nothing. */
  method UdpRxLoop(rx: Shared, arrivals: seq<Arrival>, allow: seq<Ip>, check: bool, w: World)
    requires rx.Valid()
    modifies rx
    ensures rx.Valid() && rx.Now() == Fed(old(rx.Now()), Ingested(arrivals, allow, check), 0, w)
  {
    hide FramesIn, After, Kept, Fed;
    var k, i := 0, 0;
    ghost var before := rx.Now();
    assert arrivals[0..] == arrivals;
    while i < |arrivals|
      invariant 0 <= i <= |arrivals| && rx.Valid()
      invariant Fed(before, Ingested(arrivals, allow, check), 0, w)
             == Fed(rx.Now(), Ingested(arrivals[i..], allow, check), k, w)
    {
      var a := arrivals[i];
      assert arrivals[i..][1..] == arrivals[i + 1..];
      if a.SocketError? {
        break;
      }
      i := i + 1;
      FedAppend(rx.Now(), FramesOf(a, allow, check), Ingested(arrivals[i..], allow, check), k, w);
      NothingFed(rx.Now(), k, w);
      match a {
        case Packet(from, buf) =>
          if PeerAllowed(from, allow, check) {
            k := GuardedIngest(rx, Kept(buf), k, w);
          }
        case TimedOut =>
      }
    }
    NothingFed(rx.Now(), k, w);
  }

  lemma NothingFed(v: View, k: nat, w: World)
    ensures Fed(v, [], k, w) == v
  {}

  // ----------------------------------------------- a whole run, frame by frame

  function Directed(a: Accept, cs: seq<Call>): Accept {
    if cs == [] then a else
    var front := Directed(a, cs[..|cs| - 1]);
    if cs[|cs| - 1].Direct? then SetAccept(front, cs[|cs| - 1].d) else front
  }

  /** The frames, of those pushed, that the filter of the moment lets through, stamped. */
  function Passed(a: Accept, fs: seq<Frame>, k: nat, w: World): seq<Frame>
    decreases fs
  {
    if fs == [] then [] else
    var now := Directed(a, w.calls(k));
    (if Accepts(now, fs[0].canId) then [fs[0].(rxTime := w.clock(k))] else []) + Passed(now, fs[1..], k + 1, w)
  }

  lemma AdmittedOne(log: seq<Op>, op: Op)
    ensures Admitted(log + [op]) == Admitted(log) + if op.Enqueue? then [op.f] else []
  {
    assert (log + [op])[..|log|] == log;
  }

  lemma CallAdmitsNothing(v: View, c: Call)
    ensures Admitted(Called(v, c).log) == Admitted(v.log)
    ensures Called(v, c).filters == if c.Direct? then SetAccept(v.filters, c.d) else v.filters
  {
    AdmittedOne(v.log, Pop);
    AdmittedOne(v.log, Flush);
    AdmittedOne(v.log, Unlatch);
    hide Admitted, SetAccept;
  }

  lemma {:induction false} CallsAdmitNothing(v: View, cs: seq<Call>)
    ensures Admitted(CalledAll(v, cs).log) == Admitted(v.log)
    ensures CalledAll(v, cs).filters == Directed(v.filters, cs)
  {
    if cs != [] {
      hide Admitted, SetAccept, Called;
      CallsAdmitNothing(v, cs[..|cs| - 1]);
      CallAdmitsNothing(CalledAll(v, cs[..|cs| - 1]), cs[|cs| - 1]);
    }
  }

  lemma {:induction false} FedAdmits(v: View, fs: seq<Frame>, k: nat, w: World)
    ensures Admitted(Fed(v, fs, k, w).log) == Admitted(v.log) + Passed(v.filters, fs, k, w)
    decreases fs
  {
    hide Admitted, CalledAll, Directed, Accepts;
    if fs != [] {
      var u := CalledAll(v, w.calls(k));
      CallsAdmitNothing(v, w.calls(k));
      AdmittedOne(u.log, Enqueue(fs[0].(rxTime := w.clock(k))));
      FedAdmits(Offered(u, fs[0], w.clock(k)), fs[1..], k + 1, w);
    }
  }

  /** Ring accounting over a whole UDP run: with the loop fed any arrivals and any calls
      in between and after, the frames of the allowed, fully parsing datagrams that pass
      the filter of the moment are, each once, delivered, queued, flushed or dropped on
      a full ring; those taken leave in order of arrival. */
  lemma UdpRun(arrivals: seq<Arrival>, allow: seq<Ip>, peer: Ip, check: bool, w: World, later: seq<Call>)
    ensures var fs := Ingested(arrivals, EffectiveAllow(allow, peer), check);
      var log := CalledAll(Fed(START, fs, 0, w), later).log;
      && multiset(Passed(ACCEPT_ALL, fs, 0, w)) == multiset(Chosen(Exits(log), true)) + multiset(After(log).q)
           + multiset(Chosen(Exits(log), false)) + multiset(Dropped(log))
      && Taken(log) == Frames(Exits(log)) + After(log).q && |After(log).q| <= 8192
      && AllIn(Taken(log), Passed(ACCEPT_ALL, fs, 0, w))
  {
    hide *;
    var fs := Ingested(arrivals, EffectiveAllow(allow, peer), check);
    var log := CalledAll(Fed(START, fs, 0, w), later).log;
    RunAdmits(fs, w, later);
    Conservation(log);
    ArrivalOrder(log);
    TakenInOrder(log);
  }

  lemma RunAdmits(fs: seq<Frame>, w: World, later: seq<Call>)
    ensures Admitted(CalledAll(Fed(START, fs, 0, w), later).log) == Passed(ACCEPT_ALL, fs, 0, w)
  {
    FedAdmits(START, fs, 0, w);
    CallsAdmitNothing(Fed(START, fs, 0, w), later);
    assert Admitted([]) == [];
    hide Admitted, Fed, Passed, CalledAll;
    assert [] + Passed(ACCEPT_ALL, fs, 0, w) == Passed(ACCEPT_ALL, fs, 0, w);
  }

  /** `sub` is what is left of `all` when some elements are struck out. */
  predicate AllIn(sub: seq<Frame>, all: seq<Frame>) {
    sub == [] || (all != [] &&
      ((sub[|sub| - 1] == all[|all| - 1] && AllIn(sub[..|sub| - 1], all[..|all| - 1])) || AllIn(sub, all[..|all| - 1])))
  }

  lemma AllInGrows(sub: seq<Frame>, all: seq<Frame>, f: Frame)
    requires AllIn(sub, all)
    ensures AllIn(sub, all + [f]) && AllIn(sub + [f], all + [f])
  {
    assert (all + [f])[..|all|] == all && (sub + [f])[..|sub|] == sub;
  }

  lemma {:induction false} TakenInOrder(ops: seq<Op>)
    ensures AllIn(Taken(ops), Admitted(ops))
  {
    if ops != [] {
      var front, last := ops[..|ops| - 1], ops[|ops| - 1];
      TakenInOrder(front);
      assert Taken(front) + [] == Taken(front) && Admitted(front) + [] == Admitted(front);
      if last.Enqueue? {
        AllInGrows(Taken(front), Admitted(front), last.f);
      }
      hide AllIn, After;
    }
  }

  /** Where nobody sets a filter, every frame pushed passes, stamped as it is pushed. */
  lemma {:induction false} Unfiltered(fs: seq<Frame>, k: nat, w: World)
    requires forall j, c :: c in w.calls(j) ==> !c.Direct?
    ensures |Passed(ACCEPT_ALL, fs, k, w)| == |fs|
    ensures forall i :: 0 <= i < |fs| ==> Passed(ACCEPT_ALL, fs, k, w)[i] == fs[i].(rxTime := w.clock(k + i))
    decreases fs
  {
    if fs != [] {
      NoDirectives(w.calls(k));
      Unfiltered(fs[1..], k + 1, w);
      assert Accepts(ACCEPT_ALL, fs[0].canId);
      hide Directed, Accepts;
      var rest := Passed(ACCEPT_ALL, fs[1..], k + 1, w);
      assert Passed(ACCEPT_ALL, fs, k, w) == [fs[0].(rxTime := w.clock(k))] + rest;
      forall i | 0 <= i < |fs|
        ensures Passed(ACCEPT_ALL, fs, k, w)[i] == fs[i].(rxTime := w.clock(k + i))
      {
        if i > 0 {
          assert rest[i - 1] == fs[1..][i - 1].(rxTime := w.clock(k + 1 + (i - 1)));
        }
      }
    }
  }

  lemma {:induction false} NoDirectives(cs: seq<Call>)
    requires forall c :: c in cs ==> !c.Direct?
    ensures Directed(ACCEPT_ALL, cs) == ACCEPT_ALL
  {
    if cs != [] {
      NoDirectives(cs[..|cs| - 1]);
    }
  }
}
