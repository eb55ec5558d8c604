/** The whole tunnel: what concurrent writers put on the socket, and what the peer's
    receive loop makes of any prefix of the stream, or of any of the datagrams. */
module Tunnel {
  import opened Wire
  import opened Sender
  import opened Conn
  import UdpTunnel
  import Ring

  /** Inside the tx lock. */
  predicate Writing(pc: Pc) {
    pc.WWrite? || pc.WFailNeg? || pc.WFailRun? || pc.WFailShut? || pc.WUnlock?
  }

  ghost predicate LockInv(s: State) {
    && (forall t <- s.apis :: s.tx.lock == Some(t) <==> Writing(s.apis[t]))
    && (s.tx.lock.Some? ==> s.tx.lock.value in s.apis)
  }

  /** The banner and the full encodings of the writes that returned Ok. */
  function Committed(tx: Tx): Bytes
    requires AllInClass(tx.oks)
  {
    CONNECT_V1 + EncodeAll(tx.oks)
  }

  /** After the committed bytes comes a strict prefix of one frame (possibly empty). */
  ghost predicate Torn(tx: Tx) {
    && AllInClass(tx.oks)
    && exists f, k :: InClass(f) && 0 <= k < |Encode(f)| && tx.sent == Committed(tx) + Encode(f)[..k]
  }

  predicate Clean(tx: Tx) {
    AllInClass(tx.oks) && tx.sent == Committed(tx)
  }

  /** What the holder of the tx lock has put on the socket beyond the committed bytes.
      Once a write has been torn, the socket is shut down before the lock is free. */
  ghost predicate SentAt(tx: Tx, shut: bool, pc: Pc) {
    match pc
    case WWrite(f, done) =>
      && InClass(f) && AllInClass(tx.oks) && done < |Encode(f)|
      && (tx.sent == Committed(tx) + Encode(f)[..done] || (shut && Torn(tx)))
    case WUnlock(f, true) => InClass(f) && AllInClass(tx.oks) && tx.sent == Committed(tx) + Encode(f)
    case WUnlock(_, false) => shut && Torn(tx)
    case _ => Torn(tx)
  }

  ghost predicate SentInv(s: State) {
    && (forall t <- s.apis :: (s.apis[t].WCheck? || s.apis[t].WLock?) ==> InClass(s.apis[t].f))
    && (forall t <- s.apis :: Writing(s.apis[t]) ==> SentAt(s.tx, s.fl.shut, s.apis[t]))
    && (s.tx.lock.None? ==> Clean(s.tx) || (s.fl.shut && Torn(s.tx)))
  }

  /** Over UDP: the datagrams are those of the sends in tx-lock order, and the frames taken
      are those of the writes that returned Ok, and of one that is about to. */
  ghost predicate UdpInv(s: State) {
    && (forall t <- s.apis :: (s.apis[t].WCheck? || s.apis[t].WLock? || s.apis[t].WWrite?) ==> InClass(s.apis[t].f))
    && TriesOk(s.tx.tries) && s.tx.seqNo == NumberAt(0, |s.tx.tries|)
    && s.tx.packets == Sent(s.tx.tries, 0)
    && SentFrames(s.tx.tries) == s.tx.oks + Unreturned(s)
  }

  /** The frame of a write whose bytes are all out, and which has not returned. */
  function Unreturned(s: State): seq<Frame> {
    if s.tx.lock.Some? && s.tx.lock.value in s.apis && s.apis[s.tx.lock.value].WUnlock? && s.apis[s.tx.lock.value].ok
    then [s.apis[s.tx.lock.value].f] else []
  }

  ghost predicate TunnelInv(s: State) { LockInv(s) && if s.udp then UdpInv(s) else SentInv(s) }

  lemma EncodeNotEmpty(f: Frame)
    requires InClass(f)
    ensures 5 <= |Encode(f)| <= 70
  {}

  lemma CleanIsTorn(tx: Tx)
    requires Clean(tx)
    ensures Torn(tx)
  {
    hide Encode;
    EncodeNotEmpty(DEFAULT_FRAME);
    assert tx.sent == Committed(tx) + Encode(DEFAULT_FRAME)[..0];
  }

  lemma TakeKeepsTunnel(s: State, t: Tid, k: nat, s': State)
    requires !s.udp && TunnelInv(s) && Apply(s, Take(t, k)) == Some(s')
    ensures TunnelInv(s')
  {
    hide Encode, EncodeAll, Torn;
    var WWrite(f, done) := s.apis[t];
    var enc := Encode(f);
    assert Writing(s.apis[t]) && SentAt(s.tx, s.fl.shut, s.apis[t]);
    assert enc[..done] + enc[done..done + k] == enc[..done + k];
    assert s'.tx.sent == Committed(s.tx) + enc[..done + k];
    assert enc[..|enc|] == enc;
  }

  lemma WriteKeepsTunnel(s: State, t: Tid, s': State)
    requires !s.udp && TunnelInv(s) && t in s.apis && WritePc(s.apis[t]) && ActStep(s, t) == Some(s')
    ensures TunnelInv(s')
  {
    hide Encode, EncodeAll, PacketOf, Sent, SentFrames;
    var pc := s.apis[t];
    assert Writing(pc) ==> SentAt(s.tx, s.fl.shut, pc);
    match pc {
      case WLock(f) =>
        EncodeNotEmpty(f);
        assert Encode(f)[..0] == [];
      case WUnlock(f, ok) =>
        if ok {
          CommitAppends(s.tx, f);
        }
      case _ =>
    }
  }

  lemma CommitAppends(tx: Tx, f: Frame)
    requires AllInClass(tx.oks) && InClass(f) && tx.sent == Committed(tx) + Encode(f)
    ensures Clean(tx.(lock := None, oks := tx.oks + [f]))
  {
    hide Encode;
    EncodeAllAppend(tx.oks, [f]);
    assert [f][1..] == [];
    assert EncodeAll([f]) == Encode(f) + [];
  }

  lemma FailKeepsTunnel(s: State, t: Tid, s': State)
    requires !s.udp && TunnelInv(s) && Apply(s, Fail(t)) == Some(s')
    ensures TunnelInv(s')
  {
    hide Encode, EncodeAll;
    assert Writing(s.apis[t]) && SentAt(s.tx, s.fl.shut, s.apis[t]);
  }

  /** Every other step leaves the tx side alone, except that it may shut the socket. */
  lemma OtherKeepsTunnel(s: State, e: Event, s': State)
    requires !s.udp && TunnelInv(s) && Apply(s, e) == Some(s') && !e.Take? && !e.Fail?
    requires e.Act? ==> !WritePc(s.apis[e.t])
    ensures TunnelInv(s')
  {
    hide Encode, EncodeAll, Torn;
    OneThreadMoves(s, e, s');
    OtherTouches(s, e, s');
    hide Apply;
    forall u <- s'.apis
      ensures Writing(s'.apis[u]) ==> SentAt(s'.tx, s'.fl.shut, s'.apis[u])
      ensures (s'.apis[u].WCheck? || s'.apis[u].WLock?) ==> InClass(s'.apis[u].f)
    {
      assert Writing(s.apis[u]) ==> SentAt(s.tx, s.fl.shut, s.apis[u]);
    }
  }

  lemma OtherTouches(s: State, e: Event, s': State)
    requires Apply(s, e) == Some(s') && !e.Take? && !e.Fail? && !e.Send?
    requires e.Act? ==> !WritePc(s.apis[e.t])
    ensures s'.tx == s.tx && (s.fl.shut ==> s'.fl.shut)
    ensures !ByRx(e) ==> !Writing(s.apis[e.t]) && !Writing(s'.apis[e.t]) && !s'.apis[e.t].WLock?
    ensures !ByRx(e) && s'.apis[e.t].WCheck? ==> InClass(s'.apis[e.t].f)
  {
    hide Encode, PacketOf, RxOwn, CloseStep, WriteStep, TakeStep, SendStep, FailStep;
    if e.RxStep? {
      RxKeepsShut(s.udp, s.rx, s.fl);
    } else if e.Act? && ClosePc(s.apis[e.t]) {
      CloseKeepsShut(s.udp, e.t, s.apis[e.t], s.fl, s.tab, s.rx);
    }
  }

  lemma RxKeepsShut(udp: bool, rx: RxPc, fl: Flags)
    requires RxOwn(udp, rx, fl).Some?
    ensures RxOwn(udp, rx, fl).value.1.shut == fl.shut
  {}

  lemma CloseKeepsShut(udp: bool, t: Tid, pc: Pc, fl: Flags, tab: Table, rx: RxPc)
    requires ClosePc(pc) && CloseStep(udp, t, pc, fl, tab, rx).Some?
    ensures var (pc', fl', _) := CloseStep(udp, t, pc, fl, tab, rx).value;
      (fl.shut ==> fl'.shut) && !WritePc(pc')
  {}

  lemma StreamStepKeeps(s: State, e: Event, s': State)
    requires !s.udp && TunnelInv(s) && Apply(s, e) == Some(s')
    ensures TunnelInv(s')
  {
    hide TunnelInv;
    if e.Take? {
      TakeKeepsTunnel(s, e.t, e.k, s');
    } else if e.Fail? {
      FailKeepsTunnel(s, e.t, s');
    } else if e.Act? && WritePc(s.apis[e.t]) {
      WriteKeepsTunnel(s, e.t, s');
    } else {
      OtherKeepsTunnel(s, e, s');
    }
  }

  lemma SendKeepsUdp(s: State, t: Tid, taken: bool, s': State)
    requires s.udp && TunnelInv(s) && Apply(s, Send(t, taken)) == Some(s')
    ensures TunnelInv(s')
  {
    hide PacketOf, Sent, SentFrames, NumberAt, Next;
    var f := s.apis[t].f;
    assert Writing(s.apis[t]);
    SentMore(s.tx.tries, 0, Try(f, taken));
    NextNumber(0, |s.tx.tries|);
    assert s.tx.oks + [] == s.tx.oks;
  }

  lemma WriteKeepsUdp(s: State, t: Tid, s': State)
    requires s.udp && TunnelInv(s) && t in s.apis && WritePc(s.apis[t]) && ActStep(s, t) == Some(s')
    ensures TunnelInv(s')
  {
    hide Sent, SentFrames, NumberAt;
    assert Writing(s.apis[t]) ==> s.tx.lock == Some(t);
    assert s.tx.oks + [] == s.tx.oks;
  }

  lemma OtherKeepsUdp(s: State, e: Event, s': State)
    requires s.udp && TunnelInv(s) && Apply(s, e) == Some(s') && !e.Take? && !e.Fail? && !e.Send?
    requires e.Act? ==> !WritePc(s.apis[e.t])
    ensures TunnelInv(s')
  {
    hide Sent, SentFrames, NumberAt;
    OneThreadMoves(s, e, s');
    OtherTouches(s, e, s');
    hide Apply;
    assert !ByRx(e) ==> (s.tx.lock == Some(e.t) <==> Writing(s.apis[e.t]));
  }

  lemma DatagramStepKeeps(s: State, e: Event, s': State)
    requires s.udp && TunnelInv(s) && Apply(s, e) == Some(s')
    ensures TunnelInv(s')
  {
    NoStreamEvents(s, e);
    hide TunnelInv;
    if e.Send? {
      SendKeepsUdp(s, e.t, e.taken, s');
    } else if e.Act? && WritePc(s.apis[e.t]) {
      WriteKeepsUdp(s, e.t, s');
    } else {
      OtherKeepsUdp(s, e, s');
    }
  }

  lemma NoStreamEvents(s: State, e: Event)
    requires s.udp && Apply(s, e).Some?
    ensures !e.Take? && !e.Fail?
  {}

  lemma TunnelAtStart(s: State)
    requires Init(s)
    ensures TunnelInv(s)
  {
    assert s.tx.oks == [];
  }

  lemma {:induction false} TunnelInvariant(states: seq<State>, events: seq<Event>, i: nat)
    requires IsRun(states, events) && i < |states|
    ensures TunnelInv(states[i])
  {
    hide TunnelInv, Apply, Init;
    if i == 0 {
      TunnelAtStart(states[0]);
    } else {
      TunnelInvariant(states, events, i - 1);
      var s, e, s' := states[i - 1], events[i - 1], states[i];
      if s.udp {
        DatagramStepKeeps(s, e, s');
      } else {
        StreamStepKeeps(s, e, s');
      }
    }
  }

  /** The write under way whose bytes are all out: it can only return Ok. */
  predicate AboutToReturnOk(s: State, f: Frame) {
    s.tx.lock.Some? && s.tx.lock.value in s.apis && s.apis[s.tx.lock.value] == WUnlock(f, true)
  }

  /** The writes whose full encodings are on the socket. */
  ghost predicate OnTheWire(s: State, fs: seq<Frame>) {
    fs == s.tx.oks || exists f :: AboutToReturnOk(s, f) && fs == s.tx.oks + [f]
  }

  /** What was sent, in every reachable state: the banner, the full encodings of exactly
      the writes that returned Ok (or are past their last byte and about to) in the
      order they held the tx lock, then at most one strict prefix of a frame. */
  lemma SentBytes(states: seq<State>, events: seq<Event>, i: nat) returns (fs: seq<Frame>, g: Frame, k: nat)
    requires IsRun(states, events) && i < |states| && !states[i].udp
    ensures OnTheWire(states[i], fs) && AllInClass(fs) && InClass(g) && k < |Encode(g)|
    ensures states[i].tx.sent == CONNECT_V1 + EncodeAll(fs) + Encode(g)[..k]
  {
    TunnelInvariant(states, events, i);
    hide Encode, EncodeAll;
    var s := states[i];
    fs := s.tx.oks;
    if s.tx.lock.Some? && s.apis[s.tx.lock.value].WUnlock? && s.apis[s.tx.lock.value].ok {
      var t := s.tx.lock.value;
      var f := s.apis[t].f;
      assert SentAt(s.tx, s.fl.shut, s.apis[t]);
      fs := s.tx.oks + [f];
      assert AboutToReturnOk(s, f);
      CommitAppends(s.tx, f);
      g, k := DEFAULT_FRAME, 0;
      EncodeNotEmpty(g);
      assert Encode(g)[..0] == [];
    } else if s.tx.lock.Some? && s.apis[s.tx.lock.value].WWrite? && !(s.fl.shut && Torn(s.tx)) {
      var t := s.tx.lock.value;
      assert SentAt(s.tx, s.fl.shut, s.apis[t]);
      g, k := s.apis[t].f, s.apis[t].done;
    } else {
      if s.tx.lock.Some? {
        assert SentAt(s.tx, s.fl.shut, s.apis[s.tx.lock.value]);
      } else if Clean(s.tx) {
        CleanIsTorn(s.tx);
      }
      assert Torn(s.tx);
      g, k :| InClass(g) && 0 <= k < |Encode(g)| && s.tx.sent == Committed(s.tx) + Encode(g)[..k];
    }
  }

  // -------------------------------------------------------------- the far end

  /** The peer: it checks the banner (`handshake`), then runs its receive loop. */
  function Received(b: Bytes): Run {
    if |b| >= 12 && b[..12] == CONNECT_V1 then DecodeAll(b[12..]) else Run([], Starved)
  }

  /** Nothing is pushed before the banner, or after any other twelve bytes. */
  lemma BannerFirst(b: Bytes)
    requires |b| < 12 || exists i :: 0 <= i < 12 && b[i] != "CANNELLONIv1"[i] as int
    ensures Received(b).frames == []
  {
    BannerText();
    hide DecodeAll;
    if |b| >= 12 {
      var i :| 0 <= i < 12 && b[i] != "CANNELLONIv1"[i] as int;
      assert b[..12][i] != CONNECT_V1[i];
    }
  }

  /** Any prefix of whole frames and a torn one decodes to the first of those frames. */
  lemma {:induction false} PrefixDecodes(fs: seq<Frame>, g: Frame, k: nat, p: Bytes)
    requires AllInClass(fs) && InClass(g) && k < |Encode(g)|
    requires p <= EncodeAll(fs) + Encode(g)[..k]
    ensures DecodeAll(p).frames <= NormalizeAll(fs) && DecodeAll(p).stop.Starved?
    ensures p == EncodeAll(fs) + Encode(g)[..k] ==> DecodeAll(p).frames == NormalizeAll(fs)
  {
    hide Encode, Parse, Normalize;
    if fs == [] {
      assert p <= Encode(g) && p != Encode(g);
      StrictPrefixShort(g, p);
    } else {
      var e := Encode(fs[0]);
      var rest := EncodeAll(fs[1..]) + Encode(g)[..k];
      Reassociate(e, EncodeAll(fs[1..]), Encode(g)[..k]);
      assert NormalizeAll(fs) == [Normalize(fs[0])] + NormalizeAll(fs[1..]);
      PrefixSplits(p, e, rest);
      if |p| < |e| {
        StrictPrefixShort(fs[0], p);
      } else {
        var q := p[|e|..];
        ParseEncode(fs[0], q);
        PrefixDecodes(fs[1..], g, k, q);
      }
    }
  }

  /** A prefix of two pieces ends in the first, or is the first and a prefix of the
      second. */
  lemma PrefixSplits(p: Bytes, e: Bytes, rest: Bytes)
    requires p <= e + rest
    ensures if |p| < |e| then p < e else p == e + p[|e|..] && p[|e|..] <= rest
  {
    if |p| < |e| {
      assert p == (e + rest)[..|p|] == e[..|p|];
    } else {
      assert p[..|e|] == (e + rest)[..|e|] == e;
      assert p[|e|..] == (e + rest)[|e|..|p|] == rest[..|p| - |e|];
    }
  }

  /** Whole TCP tunnel: in every run of concurrent writers, with failures and closes at
      any point, whatever prefix of the sent bytes reaches the peer, its receive loop
      pushes a prefix of the frames on the wire, normalised, and meets no error: no
      torn, invented or rejected frame. Everything sent gives exactly those frames. */
  lemma WholeTunnel(states: seq<State>, events: seq<Event>, i: nat, b: Bytes) returns (fs: seq<Frame>)
    requires IsRun(states, events) && i < |states| && !states[i].udp && b <= states[i].tx.sent
    ensures OnTheWire(states[i], fs) && AllInClass(fs)
    ensures Received(b).frames <= NormalizeAll(fs) && Received(b).stop.Starved?
    ensures b == states[i].tx.sent ==> Received(b).frames == NormalizeAll(fs)
  {
    var g, k;
    fs, g, k := SentBytes(states, events, i);
    hide Encode, EncodeAll, DecodeAll, NormalizeAll;
    var sent := states[i].tx.sent;
    var tail := EncodeAll(fs) + Encode(g)[..k];
    Reassociate(CONNECT_V1, EncodeAll(fs), Encode(g)[..k]);
    if |b| >= 12 {
      var p := b[12..];
      assert b[..12] == (CONNECT_V1 + tail)[..12] == CONNECT_V1;
      assert p == (CONNECT_V1 + tail)[12..|b|] == tail[..|p|];
      PrefixDecodes(fs, g, k, p);
    }
  }

  /** Whole UDP tunnel: in every run of concurrent writers over UDP, with failed sends and
      closes at any point, the datagrams on the network are one each for exactly the
      writes that returned Ok (or are about to), in tx-lock order, numbered by the sends;
      so whichever arrive, in whatever order, however often, whole or cut short, amid idle
      time and strangers' datagrams, the peer's loop pushes exactly the frames of those
      that arrive whole, normalised. */
  lemma WholeUdpTunnel(states: seq<State>, events: seq<Event>, i: nat, pieces: seq<UdpTunnel.Piece>,
                       from: Ring.Ip, p: UdpTunnel.Peering) returns (fs: seq<Frame>)
    requires IsRun(states, events) && i < |states| && states[i].udp
    requires UdpTunnel.FromSent(states[i].tx.packets, pieces, p)
    requires Ring.Trusted(from, p.allow, p.peer, p.check)
    ensures OnTheWire(states[i], fs) && AllInClass(fs)
    ensures |states[i].tx.packets| == |fs|
    ensures forall k :: 0 <= k < |fs| ==> Carries(states[i].tx.packets[k], fs[k])
    ensures Ring.Ingested(UdpTunnel.Delivered(states[i].tx.packets, pieces, from, p),
                          Ring.EffectiveAllow(p.allow, p.peer), p.check)
         == UdpTunnel.Whole(fs, states[i].tx.packets, pieces, p)
  {
    TunnelInvariant(states, events, i);
    var s := states[i];
    fs := SentFrames(s.tx.tries);
    hide PacketOf, Sent, SentFrames, NumberAt, Ring.Ingested, UdpTunnel.Whole, UdpTunnel.Delivered;
    UdpTunnel.WholeUdp(s.tx.tries, 0, pieces, from, p);
    forall k | 0 <= k < |fs|
      ensures Carries(s.tx.packets[k], fs[k])
    {
      var n := SentAre(s.tx.tries, 0, k);
    }
    assert s.tx.oks + [] == s.tx.oks;
    if Unreturned(s) != [] {
      var f := s.apis[s.tx.lock.value].f;
      assert Unreturned(s) == [f] && AboutToReturnOk(s, f);
      assert fs == s.tx.oks + [f];
    }
  }
}
