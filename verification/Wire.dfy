/** The cannelloni wire codec of src/wire.rs.

    `Parse` is the reference reading of one frame from a byte string. The printer
    (`Encode`), the streaming TCP decoder (`StreamStep`) and the UDP offset loop
    (`ParseUdp`) are each related to it, and through it to one another. */
module Wire {
  import opened Bits

  // ---------------------------------------------------------------- constants

  const FRAME_VERSION: byte := 2
  const OP_DATA: byte := 0
  const MAX_FRAME_LEN := 64
  const CLASSIC_FRAME_MAX_LEN := 8
  const CANFD_FRAME: byte := 0x80

  /** ASCII "CANNELLONIv1". */
  const CONNECT_V1: Bytes := [67, 65, 78, 78, 69, 76, 76, 79, 78, 73, 118, 49]

  const CAN_EFF_FLAG: u32 := 0x8000_0000
  const CAN_RTR_FLAG: u32 := 0x4000_0000
  const CAN_EFF_MASK: u32 := 0x1FFF_FFFF
  const CAN_SFF_MASK: u32 := 0x0000_07FF

  const CAN_MSG_RTR: u32 := 0x0001
  const CAN_MSG_STD: u32 := 0x0002
  const CAN_MSG_EXT: u32 := 0x0004
  const CAN_MSG_FDF: u32 := 0x0001_0000
  const CAN_MSG_BRS: u32 := 0x0002_0000
  const CAN_MSG_ESI: u32 := 0x0004_0000

  const CANFD_BRS: byte := 0x01
  const CANFD_ESI: byte := 0x02

  // ------------------------------------------------------------------- frames

  datatype Option<+T> = None | Some(value: T)

  type byte = n: nat | n < 0x100
  type u16 = n: nat | n < 0x1_0000
  type u32 = n: nat | n < 0x1_0000_0000
  type Bytes = seq<byte>
  type Payload = d: Bytes | |d| == MAX_FRAME_LEN witness Zeros(MAX_FRAME_LEN)

  function Zeros(n: nat): (z: Bytes)
    ensures |z| == n
    ensures forall i :: 0 <= i < n ==> z[i] == 0
  {
    if n == 0 then [] else Zeros(n - 1) + [0]
  }

  const ZERO_PAYLOAD: Payload := Zeros(MAX_FRAME_LEN)

  datatype Frame = Frame(canId: u32, len: byte, fd: bool, fdFlags: byte, data: Payload, rxTime: nat)

  const DEFAULT_FRAME := Frame(0, 0, false, 0, ZERO_PAYLOAD, 0)

  predicate RtrBit(canId: u32) { And(canId, CAN_RTR_FLAG) != 0 }

  predicate IsRtr(f: Frame) { RtrBit(f.canId) }

  /** The length class both decoders enforce. */
  predicate InClass(f: Frame) {
    f.len <= if f.fd then MAX_FRAME_LEN else CLASSIC_FRAME_MAX_LEN
  }

  predicate AllInClass(fs: seq<Frame>) {
    forall i :: 0 <= i < |fs| ==> InClass(fs[i])
  }

  /** The first `n` bytes of `d`, zero-padded to a full payload. */
  function Padded(d: Bytes): (r: Payload)
    requires |d| <= MAX_FRAME_LEN
  {
    d + ZERO_PAYLOAD[|d|..]
  }

  /** Data bytes a frame puts on the wire. */
  function WireLen(f: Frame): nat { if IsRtr(f) then 0 else f.len }

  /** What survives the wire: no receive stamp, no FD flags on a classic frame, and
      no data beyond the bytes sent. */
  function Normalize(f: Frame): Frame
    requires InClass(f)
  {
    f.(fdFlags := if f.fd then f.fdFlags else 0, data := Padded(f.data[..WireLen(f)]), rxTime := 0)
  }

  function NormalizeAll(fs: seq<Frame>): (r: seq<Frame>)
    requires AllInClass(fs)
    ensures |r| == |fs|
    ensures forall i :: 0 <= i < |fs| ==> r[i] == Normalize(fs[i])
  {
    if fs == [] then [] else [Normalize(fs[0])] + NormalizeAll(fs[1..])
  }

  // --------------------------------------------------------------- byte order

  /** Four bytes, most significant first. */
  function ToBE(x: u32): (b: Bytes)
    ensures |b| == 4
  {
    [x / 0x100 / 0x100 / 0x100, x / 0x100 / 0x100 % 0x100, x / 0x100 % 0x100, x % 0x100]
  }

  function FromBE(b: Bytes): u32
    requires |b| == 4
  {
    0x100 * (0x100 * (0x100 * (b[0] as nat) + b[1]) + b[2]) + b[3]
  }

  lemma FromToBE(x: u32)
    ensures FromBE(ToBE(x)) == x
  {}

  lemma ToFromBE(b: Bytes)
    requires |b| == 4
    ensures ToBE(FromBE(b)) == b
  {
    var x: nat := FromBE(b);
    assert x / 0x100 == 0x100 * (0x100 * (b[0] as nat) + b[1]) + b[2];
    assert x / 0x100 / 0x100 == 0x100 * (b[0] as nat) + b[1];
  }

  // --------------------------------------------------------- the length byte

  /** The on-wire length byte: seven bits of length, the top bit for CAN FD. */
  function LenByte(len: byte, fd: bool): byte {
    len % 0x80 + if fd then CANFD_FRAME else 0
  }

  predicate FdBit(raw: byte) { raw >= CANFD_FRAME }

  /** The length a decoder reads: the byte without its top bit. */
  function LenOf(raw: byte): byte { raw % 0x80 }

  // ------------------------------------------------------------------ printer

  /** A frame with data must not claim more than its buffer holds: the source slices
      `data[..len & 0x7F]`. A remote frame may claim any length. */
  predicate Encodable(f: Frame) { IsRtr(f) || f.len % 128 <= MAX_FRAME_LEN }

  /** The bytes of one frame. */
  function Encode(f: Frame): (b: Bytes)
    requires Encodable(f)
  {
    ToBE(f.canId) + [LenByte(f.len, f.fd)] + (if f.fd then [f.fdFlags] else [])
    + (if IsRtr(f) then [] else f.data[..f.len % 128])
  }

  /** The documented layout, byte by byte: the identifier most significant byte first,
      the length with the FD bit on top, FD flags only for FD, data except for RTR. */
  lemma EncodeLayout(f: Frame)
    requires InClass(f)
    ensures var b := Encode(f);
      var head := if f.fd then 6 else 5;
      && |b| == head + (if IsRtr(f) then 0 else f.len)
      && f.canId == 0x100_0000 * (b[0] as int) + 0x1_0000 * (b[1] as int) + 0x100 * (b[2] as int) + b[3]
      && (IsRtr(f) <==> b[0] / 0x40 % 2 == 1)
      && (b[4] >= 0x80 <==> f.fd) && b[4] % 0x80 == f.len
      && (f.fd ==> b[5] == f.fdFlags)
      && (!IsRtr(f) ==> b[head..] == f.data[..f.len])
  {
    hide And;
    var b := Encode(f);
    FromToBE(f.canId);
    assert b[..4] == ToBE(f.canId);
    RtrByte(ToBE(f.canId));
  }

  /** The remote flag is the second bit of the first byte. */
  lemma RtrByte(b: Bytes)
    requires |b| == 4
    ensures RtrBit(FromBE(b)) <==> b[0] / 0x40 % 2 == 1
  {
    RtrPlace();
    BitIs(FromBE(b), 30);
    hide And;
    assert FromBE(b) / 0x4000_0000 == b[0] / 0x40;
  }

  lemma RtrPlace()
    ensures Shl(1, 30) == 0x4000_0000
  {
    assert Shl(1, 10) == 0x400 && Shl(0x400, 10) == 0x10_0000 && Shl(0x10_0000, 10) == 0x4000_0000;
    ShlAdd(1, 10, 10);
    ShlAdd(1, 20, 10);
  }

  /** The handshake banner, as text. */
  lemma BannerText()
    ensures |CONNECT_V1| == |"CANNELLONIv1"|
    ensures forall i :: 0 <= i < 12 ==> CONNECT_V1[i] == "CANNELLONIv1"[i] as int
  {}

  /** `encode_frame`: append the frame to a growing buffer. */
  method EncodeFrame(buf: Bytes, f: Frame) returns (out: Bytes)
    requires Encodable(f)
    ensures out == buf + Encode(f)
  {
    var len := f.len % 0x80;
    if f.fd {
      len := len + CANFD_FRAME;
    }
    out := buf + ToBE(f.canId);
    out := out + [len];
    if f.fd {
      out := out + [f.fdFlags];
    }
    if !IsRtr(f) {
      out := out + f.data[..f.len % 128];
    }
  }

  function EncodeAll(fs: seq<Frame>): Bytes
    requires AllInClass(fs)
  {
    if fs == [] then [] else Encode(fs[0]) + EncodeAll(fs[1..])
  }

  lemma Reassociate(a: Bytes, b: Bytes, c: Bytes)
    ensures a + (b + c) == (a + b) + c
  {}

  lemma {:induction false} EncodeAllAppend(fs: seq<Frame>, gs: seq<Frame>)
    requires AllInClass(fs)
    requires AllInClass(gs)
    ensures AllInClass(fs + gs)
    ensures EncodeAll(fs + gs) == EncodeAll(fs) + EncodeAll(gs)
  {
    if fs == [] {
      assert fs + gs == gs;
    } else {
      var e := Encode(fs[0]);
      EncodeAllAppend(fs[1..], gs);
      assert (fs + gs)[1..] == fs[1..] + gs;
      Reassociate(e, EncodeAll(fs[1..]), EncodeAll(gs));
    }
  }

  // --------------------------------------------------------- reference parser

  /** Reading one frame off the front of a byte string: not all there yet, not a
      frame, or a frame and the number of bytes it used. */
  datatype Parsed = Short | Bad | Got(f: Frame, used: nat)

  function Parse(b: Bytes): Parsed {
    if |b| < 5 then Short else
    var fd, len := FdBit(b[4]), LenOf(b[4]);
    if len > (if fd then MAX_FRAME_LEN else CLASSIC_FRAME_MAX_LEN) then Bad else
    var head := if fd then 6 else 5;
    if |b| < head then Short else
    var id := FromBE(b[..4]);
    var n := if RtrBit(id) then 0 else len;
    if |b| < head + n then Short else
    Got(Frame(id, len, fd, if fd then b[5] else 0, Padded(b[head..head + n]), 0), head + n)
  }

  /** The length byte taken apart and put together again. */
  lemma SevenBits(raw: byte)
    ensures LenByte(LenOf(raw), FdBit(raw)) == raw && LenOf(raw) % 128 == LenOf(raw)
    ensures !FdBit(raw) ==> LenOf(raw) == raw
  {}

  /** The verdict on any bytes, from the bytes alone: a classic length over 8 or an FD
      length over 64 is refused as soon as it is read, and nothing else is; otherwise the
      frame is there once its header and, unless remote, its data are. */
  lemma ParseVerdict(b: Bytes)
    ensures Parse(b).Bad? <==> |b| >= 5 && if b[4] >= 0x80 then b[4] - 0x80 > 64 else b[4] > 8
    ensures Parse(b).Got? <==>
      && |b| >= 5 && (if b[4] >= 0x80 then b[4] - 0x80 <= 64 else b[4] <= 8)
      && |b| >= (if b[4] >= 0x80 then 6 else 5) + if b[0] / 0x40 % 2 == 1 then 0 else b[4] % 0x80
  {
    if |b| >= 5 {
      RtrByte(b[..4]);
      assert b[..4][0] == b[0];
    }
    hide And, FromBE, RtrBit, Zeros;
  }

  /** A parsed frame is in class, uses 5 to 70 bytes, and re-encodes to exactly the
      bytes it was read from. */
  lemma ParseCanonical(b: Bytes)
    requires Parse(b).Got?
    ensures var Got(f, n) := Parse(b);
      && 5 <= n <= 70 && n <= |b|
      && InClass(f) && Normalize(f) == f
      && Encode(f) == b[..n]
  {
    hide And, FromBE, ToBE;
    var Got(f, n) := Parse(b);
    ToFromBE(b[..4]);
    SevenBits(b[4]);
    hide LenByte, LenOf, FdBit;
    var head := if f.fd then 6 else 5;
    assert f.data[..WireLen(f)] == b[head..n];
    assert b[..n] == b[..4] + [b[4]] + (if f.fd then [b[5]] else []) + b[head..n];
  }

  /** What is printed is read back, whatever follows it. */
  lemma ParseEncode(f: Frame, rest: Bytes)
    requires InClass(f)
    ensures Parse(Encode(f) + rest) == Got(Normalize(f), |Encode(f)|)
  {
    hide And;
    var b := Encode(f) + rest;
    FromToBE(f.canId);
    assert b[..4] == ToBE(f.canId);
    var head := if f.fd then 6 else 5;
    assert |Encode(f)| == head + WireLen(f);
    assert b[head..head + WireLen(f)] == f.data[..WireLen(f)];
  }

  /** A verdict other than `Short` never changes when more bytes arrive. */
  lemma ParseStable(b: Bytes, rest: Bytes)
    requires !Parse(b).Short?
    ensures Parse(b + rest) == Parse(b)
  {
    hide And;
    var c := b + rest;
    assert c[..4] == b[..4];
    if Parse(b).Got? {
      var Got(f, n) := Parse(b);
      var head := if f.fd then 6 else 5;
      assert c[head..n] == b[head..n];
    }
  }

  /** A strict prefix of an encoding is always `Short`, never an error. */
  lemma StrictPrefixShort(f: Frame, p: Bytes)
    requires InClass(f)
    requires p < Encode(f)
    ensures Parse(p).Short?
  {
    hide Parse, Encode, Normalize;
    var e := Encode(f);
    assert e == p + e[|p|..];
    ParseEncode(f, []);
    assert e + [] == e;
    if !Parse(p).Short? {
      ParseStable(p, e[|p|..]);
      if Parse(p).Got? {
        ParseCanonical(p);
      }
      assert false;
    }
  }

  /** No encoding is a proper prefix of another. */
  lemma PrefixFree(f: Frame, g: Frame)
    requires InClass(f) && InClass(g)
    requires Encode(f) <= Encode(g)
    ensures Encode(f) == Encode(g) && Normalize(f) == Normalize(g)
  {
    hide Parse, Encode, Normalize;
    var e := Encode(g);
    assert e == Encode(f) + e[|Encode(f)|..];
    ParseEncode(f, e[|Encode(f)|..]);
    ParseEncode(g, []);
    assert e + [] == e;
  }

  // ------------------------------------------------------- whole byte strings

  /** Why a decoding run ended: bytes ran out, or the bytes were not a frame. */
  datatype Stop = Starved | Corrupt

  datatype Run = Run(frames: seq<Frame>, stop: Stop)

  /** Every frame at the front of `b`, in order. */
  function DecodeAll(b: Bytes): Run
    decreases |b|
  {
    match Parse(b)
    case Short => Run([], Starved)
    case Bad => Run([], Corrupt)
    case Got(f, n) =>
      ParseCanonical(b);
      var r := DecodeAll(b[n..]);
      Run([f] + r.frames, r.stop)
  }

  /** Batch round trip: concatenated encodings followed by a tail decode to the
      normalised frames followed by whatever the tail decodes to. */
  lemma {:induction false} DecodeEncodeAll(fs: seq<Frame>, tail: Bytes)
    requires AllInClass(fs)
    ensures DecodeAll(EncodeAll(fs) + tail)
         == Run(NormalizeAll(fs) + DecodeAll(tail).frames, DecodeAll(tail).stop)
  {
    hide Parse, Encode, Normalize;
    if fs == [] {
      assert EncodeAll(fs) + tail == tail;
      assert NormalizeAll(fs) + DecodeAll(tail).frames == DecodeAll(tail).frames;
    } else {
      var rest := EncodeAll(fs[1..]) + tail;
      var b := EncodeAll(fs) + tail;
      assert b == Encode(fs[0]) + rest;
      ParseEncode(fs[0], rest);
      assert b[|Encode(fs[0])|..] == rest;
      DecodeEncodeAll(fs[1..], tail);
      assert NormalizeAll(fs) == [Normalize(fs[0])] + NormalizeAll(fs[1..]);
    }
  }

  lemma SplitPrefix(b: Bytes, n: nat, p: Bytes)
    requires n <= |b| && p <= b[n..]
    ensures b[..n] + p <= b && b[|b[..n] + p|..] == b[n..][|p|..]
  {
    assert b == b[..n] + b[n..];
  }

  /** Canonical form: re-encoding what was decoded gives back exactly the bytes
      consumed, and what is left over is what stopped the decoder. */
  lemma {:induction false} DecodeCanonical(b: Bytes)
    ensures AllInClass(DecodeAll(b).frames) && NormalizeAll(DecodeAll(b).frames) == DecodeAll(b).frames
    ensures EncodeAll(DecodeAll(b).frames) <= b
    ensures var left := b[|EncodeAll(DecodeAll(b).frames)|..];
      Parse(left) == if DecodeAll(b).stop.Starved? then Short else Bad
    decreases |b|
  {
    if Parse(b).Got? {
      var Got(f, n) := Parse(b);
      ParseCanonical(b);
      DecodeCanonical(b[n..]);
      var r := DecodeAll(b[n..]).frames;
      assert DecodeAll(b).frames[1..] == r;
      SplitPrefix(b, n, EncodeAll(r));
    } else {
      assert b[0..] == b;
    }
  }

  /** Concatenations of frames are uniquely decodable. */
  lemma UniquelyDecodable(fs: seq<Frame>, gs: seq<Frame>)
    requires AllInClass(fs)
    requires AllInClass(gs)
    requires EncodeAll(fs) == EncodeAll(gs)
    ensures NormalizeAll(fs) == NormalizeAll(gs)
  {
    DecodeEncodeAll(fs, []);
    DecodeEncodeAll(gs, []);
    assert EncodeAll(fs) + [] == EncodeAll(fs);
    assert NormalizeAll(fs) + [] == NormalizeAll(fs);
    assert NormalizeAll(gs) + [] == NormalizeAll(gs);
  }
}
