/** The UDP arm of `Conn::write`: one datagram a write, under a wrapping sequence number
    that a failed send uses up as well. */
module Sender {
  import opened Wire
  import opened Decoders

  function PacketOf(f: Frame, seqNo: byte): Bytes
    requires InClass(f)
  {
    UdpHeader(seqNo, 1) + Encode(f)
  }

  /** Datagram `p` is frame `f` under some number. */
  ghost predicate Carries(p: Bytes, f: Frame) {
    InClass(f) && exists q: byte :: p == PacketOf(f, q)
  }

  /** One send, and whether the socket took the whole datagram. */
  datatype Try = Try(f: Frame, taken: bool)

  predicate TriesOk(ts: seq<Try>) { forall i :: 0 <= i < |ts| ==> InClass(ts[i].f) }

  /** The datagrams of some sends, the first of them numbered `first`; a send that failed
      puts none on the network, but takes its number. */
  function Sent(ts: seq<Try>, first: byte): seq<Bytes>
    requires TriesOk(ts)
  {
    if ts == [] then [] else
    var n := |ts| - 1;
    Sent(ts[..n], first) + if ts[n].taken then [PacketOf(ts[n].f, NumberAt(first, n))] else []
  }

  /** The number of the `n`-th send after number `first`. */
  function NumberAt(first: byte, n: nat): byte { (first + n) % 0x100 }

  lemma NextNumber(first: byte, n: nat)
    ensures NumberAt(first, 0) == first && Next(NumberAt(first, n)) == NumberAt(first, n + 1)
  {}

  function SentFrames(ts: seq<Try>): seq<Frame> {
    if ts == [] then [] else
    SentFrames(ts[..|ts| - 1]) + if ts[|ts| - 1].taken then [ts[|ts| - 1].f] else []
  }

  /** Each datagram sent carries the frame of its own send, under that send's number. */
  lemma {:induction false} SentAre(ts: seq<Try>, first: byte, k: nat) returns (i: nat)
    requires TriesOk(ts) && k < |Sent(ts, first)|
    ensures |SentFrames(ts)| == |Sent(ts, first)|
    ensures i < |ts| && ts[i].taken && SentFrames(ts)[k] == ts[i].f
    ensures Sent(ts, first)[k] == PacketOf(ts[i].f, NumberAt(first, i))
  {
    hide PacketOf;
    var n := |ts| - 1;
    SameLength(ts[..n], first);
    if k < |Sent(ts[..n], first)| {
      i := SentAre(ts[..n], first, k);
    } else {
      i := n;
    }
  }

  lemma {:induction false} SameLength(ts: seq<Try>, first: byte)
    requires TriesOk(ts)
    ensures |SentFrames(ts)| == |Sent(ts, first)| && AllInClass(SentFrames(ts))
  {
    hide PacketOf;
    if ts != [] {
      SameLength(ts[..|ts| - 1], first);
    }
  }

  lemma SentMore(ts: seq<Try>, first: byte, t: Try)
    requires TriesOk(ts) && InClass(t.f)
    ensures Sent(ts + [t], first) == Sent(ts, first) + if t.taken then [PacketOf(t.f, NumberAt(first, |ts|))] else []
    ensures SentFrames(ts + [t]) == SentFrames(ts) + if t.taken then [t.f] else []
  {
    assert (ts + [t])[..|ts|] == ts;
  }

  /** The next sequence number. */
  function Next(seqNo: byte): byte { (seqNo + 1) % 0x100 }

  class UdpSender {
    var seqNo: byte

    constructor ()
      ensures seqNo == 0
    {
      seqNo := 0;
    }

    /** One write. `taken` is what the socket reports: the bytes it took, or an error.
        The sequence number advances whether the send succeeds or not. */
    method Write(f: Frame, taken: Option<nat>) returns (pkt: Bytes, ok: bool)
      requires InClass(f)
      modifies this
      ensures pkt == PacketOf(f, old(seqNo)) && seqNo == Next(old(seqNo))
      ensures ok <==> taken == Some(|pkt|)
    {
      pkt := BuildUdp(f, seqNo);
      seqNo := if seqNo == 0xFF then 0 else seqNo + 1;
      if taken.None? {
        return pkt, false;
      }
      ok := taken.value == |pkt|;
    }

    /** A write whose send goes as `t` says, and what it puts on the network. */
    method Attempt(t: Try) returns (pkts: seq<Bytes>)
      requires InClass(t.f)
      modifies this
      ensures pkts == (if t.taken then [PacketOf(t.f, old(seqNo))] else [])
      ensures seqNo == Next(old(seqNo))
    {
      PacketSize(t.f, seqNo);
      hide PacketOf, Encode;
      var pkt, ok := Write(t.f, if t.taken then Some(5 + |Encode(t.f)|) else None);
      pkts := if ok then [pkt] else [];
    }

    /** Writes one after another: `ts` says which of them the socket takes, and the
        datagrams it takes are those of the sends, each under its own number. */
    method WriteAll(ts: seq<Try>) returns (pkts: seq<Bytes>)
      requires TriesOk(ts)
      modifies this
      ensures pkts == Sent(ts, old(seqNo)) && seqNo == NumberAt(old(seqNo), |ts|)
    {
      hide PacketOf, Sent, NumberAt, Next;
      NothingSent(seqNo);
      NextNumber(seqNo, 0);
      pkts := [];
      for i := 0 to |ts|
        invariant pkts == Sent(ts[..i], old(seqNo)) && seqNo == NumberAt(old(seqNo), i)
      {
        SentMore(ts[..i], old(seqNo), ts[i]);
        NextNumber(old(seqNo), i);
        assert ts[..i + 1] == ts[..i] + [ts[i]];
        var more := Attempt(ts[i]);
        pkts := pkts + more;
      }
      assert ts[..|ts|] == ts;
    }
  }

  lemma NothingSent(first: byte)
    ensures Sent([], first) == []
  {}

  lemma PacketSize(f: Frame, seqNo: byte)
    requires InClass(f)
    ensures |PacketOf(f, seqNo)| == 5 + |Encode(f)| && |Encode(f)| <= 70
  {}
}
