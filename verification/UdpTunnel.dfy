/** The UDP path from the sender's datagrams to the peer's ring: the network may lose,
    repeat, reorder and cut them short. */
module UdpTunnel {
  import opened Wire
  import opened Decoders
  import opened Ring
  import opened Sender

  lemma PacketMeans(f: Frame, seqNo: byte)
    requires InClass(f)
    ensures FramesIn(Kept(PacketOf(f, seqNo))) == [Normalize(f)]
  {
    hide Encode, Datagram, Normalize, UdpHeader;
    PacketSize(f, seqNo);
    OneFrame(f);
    UdpRoundTrip([f], seqNo, 1, []);
  }

  lemma OneFrame(f: Frame)
    requires InClass(f)
    ensures AllInClass([f]) && EncodeAll([f]) + [] == Encode(f) && NormalizeAll([f]) == [Normalize(f)]
  {
    hide Encode, Normalize;
    assert [f][1..] == [];
    assert EncodeAll([f]) == Encode(f) + [] == Encode(f);
  }

  /** A datagram cut short means nothing. */
  lemma TornMeansNothing(f: Frame, seqNo: byte, n: nat)
    requires InClass(f) && n < |PacketOf(f, seqNo)|
    ensures FramesIn(Kept(PacketOf(f, seqNo)[..n])) == []
  {
    PacketSize(f, seqNo);
    var head := UdpHeader(seqNo, 1);
    var buf := PacketOf(f, seqNo)[..n];
    if n >= 5 {
      assert buf == head + Encode(f)[..n - 5];
      assert buf[5..] == Encode(f)[..n - 5];
      StrictPrefixShort(f, buf[5..]);
      assert FrameCount(buf) == FrameCount(head);
    }
  }

  /** What the peer's socket brings: all of one of the datagrams sent, or a piece of it;
      nothing for a while; or a datagram from somebody else. */
  datatype Piece = Part(k: nat, n: nat) | Quiet | Foreign(ip: Ip, buf: Bytes)

  /** The settings of the receiving side. */
  datatype Peering = Peering(allow: seq<Ip>, peer: Ip, check: bool)

  predicate FromSent(ps: seq<Bytes>, pieces: seq<Piece>, p: Peering) {
    forall j :: 0 <= j < |pieces| ==>
      match pieces[j]
      case Part(k, n) => k < |ps| && n <= |ps[k]|
      case Quiet => true
      case Foreign(ip, _) => !Trusted(ip, p.allow, p.peer, p.check)
  }

  function ArrivalOf(ps: seq<Bytes>, piece: Piece, from: Ip): Arrival
    requires piece.Part? ==> piece.k < |ps| && piece.n <= |ps[piece.k]|
  {
    match piece
    case Part(k, n) => Packet(from, ps[k][..n])
    case Quiet => TimedOut
    case Foreign(ip, buf) => Packet(ip, buf)
  }

  function Delivered(ps: seq<Bytes>, pieces: seq<Piece>, from: Ip, p: Peering): (arrivals: seq<Arrival>)
    requires FromSent(ps, pieces, p)
  {
    if pieces == [] then [] else
    [ArrivalOf(ps, pieces[0], from)] + Delivered(ps, pieces[1..], from, p)
  }

  /** The frames of the datagrams that arrive whole. */
  function Whole(fs: seq<Frame>, ps: seq<Bytes>, pieces: seq<Piece>, p: Peering): seq<Frame>
    requires AllInClass(fs) && |fs| == |ps| && FromSent(ps, pieces, p)
  {
    if pieces == [] then [] else
    var first := pieces[0];
    (if first.Part? && first.n == |ps[first.k]| then [Normalize(fs[first.k])] else []) + Whole(fs, ps, pieces[1..], p)
  }

  lemma OnePiece(ts: seq<Try>, first: byte, piece: Piece, from: Ip, p: Peering)
    requires TriesOk(ts) && FromSent(Sent(ts, first), [piece], p) && Trusted(from, p.allow, p.peer, p.check)
    requires |SentFrames(ts)| == |Sent(ts, first)| && AllInClass(SentFrames(ts))
    ensures var ps := Sent(ts, first);
      && (piece.Part? ==> piece.k < |ps| && piece.n <= |ps[piece.k]|)
      && Ingested([ArrivalOf(ps, piece, from)], EffectiveAllow(p.allow, p.peer), p.check)
         == if piece.Part? && piece.n == |ps[piece.k]| then [Normalize(SentFrames(ts)[piece.k])] else []
  {
    hide FramesIn, Kept, Normalize, PacketOf, Sent, SentFrames, Trusted;
    assert [piece][0] == piece;
    match piece {
      case Part(k, n) =>
        var packet := Sent(ts, first)[k];
        var i := SentAre(ts, first, k);
        IngestedOne(from, packet[..n], p.allow, p.peer, p.check);
        if n == |packet| {
          assert packet[..n] == packet;
          PacketMeans(ts[i].f, NumberAt(first, i));
        } else {
          TornMeansNothing(ts[i].f, NumberAt(first, i), n);
        }
      case Quiet => QuietPast([], [], EffectiveAllow(p.allow, p.peer), p.check);
        var none: seq<Arrival> := [];
        assert none + [TimedOut] + none == [TimedOut] && none + none == none;
      case Foreign(ip, buf) => IngestedOne(ip, buf, p.allow, p.peer, p.check);
    }
  }

  /** Whole UDP path: whichever of the datagrams arrive from a trusted peer, in whatever
      order, however often and whole or not, with idle time and strangers' datagrams in
      between, the receive loop pushes exactly the frames of those that arrive whole,
      normalised, one each: never a torn, merged or invented one. */
  lemma {:induction false} WholeUdp(ts: seq<Try>, first: byte, pieces: seq<Piece>, from: Ip, p: Peering)
    requires TriesOk(ts) && FromSent(Sent(ts, first), pieces, p) && Trusted(from, p.allow, p.peer, p.check)
    ensures |SentFrames(ts)| == |Sent(ts, first)| && AllInClass(SentFrames(ts))
    ensures Ingested(Delivered(Sent(ts, first), pieces, from, p), EffectiveAllow(p.allow, p.peer), p.check)
         == Whole(SentFrames(ts), Sent(ts, first), pieces, p)
    decreases |pieces|
  {
    hide Normalize, Sent, SentFrames, Trusted, Ingested, EffectiveAllow;
    SameLength(ts, first);
    var allow := EffectiveAllow(p.allow, p.peer);
    if pieces == [] {
      NothingIngested(allow, p.check);
    } else {
      var ps := Sent(ts, first);
      OnePiece(ts, first, pieces[0], from, p);
      WholeUdp(ts, first, pieces[1..], from, p);
      IngestedAppend([ArrivalOf(ps, pieces[0], from)], Delivered(ps, pieces[1..], from, p), allow, p.check);
    }
  }

  lemma NothingIngested(allow: seq<Ip>, check: bool)
    ensures Ingested([], allow, check) == []
  {}
}
