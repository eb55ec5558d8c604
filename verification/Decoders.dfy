/** The two decoders of src/wire.rs, and the TCP receive loop of src/transport.rs
    that drives the streaming one, each proved to compute the reference reading of
    `Wire`. */
module Decoders {
  import opened Wire
  import Bits

  // ------------------------------------------------ the streaming TCP decoder

  datatype DecodeState = Init | CanId | Len | Flags | Data

  datatype Decoded = Need(n: nat) | Complete | Error

  datatype Stepped = Stepped(f: Frame, st: DecodeState, r: Decoded)

  /** One call of `decode_stream`: the frame, state and answer it leaves. */
  function StreamStep(data: Bytes, f: Frame, st: DecodeState): Stepped {
    match st
    case Init => Stepped(DEFAULT_FRAME, CanId, Need(4))
    case CanId =>
      if |data| != 4 then Stepped(f, st, Error)
      else Stepped(f.(canId := FromBE(data)), Len, Need(1))
    case Len =>
      if |data| != 1 then Stepped(f, st, Error) else
      var g := f.(fd := FdBit(data[0]), len := LenOf(data[0]));
      if g.fd then
        if g.len > MAX_FRAME_LEN then Stepped(g, st, Error) else Stepped(g, Flags, Need(1))
      else if g.len > CLASSIC_FRAME_MAX_LEN then Stepped(g, st, Error)
      else AfterHeader(g)
    case Flags =>
      if |data| != 1 then Stepped(f, st, Error) else AfterHeader(f.(fdFlags := data[0]))
    case Data =>
      if |data| != f.len || f.len > MAX_FRAME_LEN then Stepped(f, st, Error)
      else Stepped(f.(data := data + f.data[f.len..]), Init, Complete)
  }

  /** A remote frame or an empty one has no data bytes to wait for. */
  function AfterHeader(f: Frame): Stepped {
    if IsRtr(f) || f.len == 0 then Stepped(f, Init, Complete) else Stepped(f, Data, Need(f.len))
  }

  class StreamDecoder {
    var f: Frame
    var st: DecodeState

    constructor ()
      ensures f == DEFAULT_FRAME && st == Init
    {
      f, st := DEFAULT_FRAME, Init;
    }

    /** `decode_stream` as written: it assigns the frame's fields one by one. */
    method Feed(data: Bytes) returns (r: Decoded)
      modifies this
      ensures Stepped(f, st, r) == StreamStep(data, old(f), old(st))
    {
      match st {
        case Init =>
          f := DEFAULT_FRAME;
          st := CanId;
          return Need(4);
        case CanId =>
          if |data| != 4 { return Error; }
          f := f.(canId := FromBE(data));
          st := Len;
          return Need(1);
        case Len =>
          if |data| != 1 { return Error; }
          var raw := data[0];
          if FdBit(raw) {
            f := f.(fd := true);
            f := f.(len := LenOf(raw));
            if f.len > MAX_FRAME_LEN { return Error; }
            st := Flags;
            return Need(1);
          }
          f := f.(fd := false);
          f := f.(len := raw);
          if f.len > CLASSIC_FRAME_MAX_LEN { return Error; }
          if IsRtr(f) {
            st := Init;
            return Complete;
          }
          if f.len == 0 {
            st := Init;
            return Complete;
          }
          st := Data;
          return Need(f.len);
        case Flags =>
          if |data| != 1 { return Error; }
          f := f.(fdFlags := data[0]);
          if IsRtr(f) || f.len == 0 {
            st := Init;
            return Complete;
          }
          st := Data;
          return Need(f.len);
        case Data =>
          var n := f.len;
          if |data| != n || n > |f.data| { return Error; }
          f := f.(data := data[..n] + f.data[n..]);
          st := Init;
          return Complete;
      }
    }
  }

  // --------------------------------------- exact feeding, one chunk at a time

  /** What the receive loop carries between reads. */
  datatype Cursor = Cursor(f: Frame, st: DecodeState, need: nat)

  const PRIMED := Cursor(DEFAULT_FRAME, CanId, 4)

  datatype Outcome = Continue(c: Cursor) | Emitted(f: Frame) | Failed

  function FeedCursor(c: Cursor, chunk: Bytes): Outcome {
    var s := StreamStep(chunk, c.f, c.st);
    match s.r
    case Need(n) => Continue(Cursor(s.f, s.st, n))
    case Complete => Emitted(s.f)
    case Error => Failed
  }

  /** `p` is the part of the current frame already read when the loop holds `c`. */
  predicate MidFrame(c: Cursor, p: Bytes) {
    && c.f.data == ZERO_PAYLOAD && c.f.rxTime == 0
    && match c.st
       case Init => false
       case CanId => c == PRIMED && p == []
       case Len =>
         && c.need == 1 && |p| == 4 && c.f == DEFAULT_FRAME.(canId := FromBE(p))
       case Flags =>
         && c.need == 1 && |p| == 5 && FdBit(p[4]) && LenOf(p[4]) <= MAX_FRAME_LEN
         && c.f == DEFAULT_FRAME.(canId := FromBE(p[..4]), fd := true, len := LenOf(p[4]))
       case Data =>
         && |p| == (if c.f.fd then 6 else 5)
         && c.f == DEFAULT_FRAME.(canId := FromBE(p[..4]), fd := FdBit(p[4]), len := LenOf(p[4]),
                                  fdFlags := if c.f.fd then p[5] else 0)
         && InClass(c.f) && !IsRtr(c.f) && c.need == c.f.len && c.need > 0
  }

  /** Feeding exactly the bytes asked for advances the reference reading: the loop
      continues, emits or fails just as the bytes so far say. */
  ghost predicate Refines(fed: Outcome, q: Bytes) {
    match fed
    case Continue(d) => MidFrame(d, q)
    case Emitted(f) => Parse(q) == Got(f, |q|)
    case Failed => Parse(q) == Bad
  }

  lemma FeedLen(c: Cursor, p: Bytes, chunk: Bytes)
    requires MidFrame(c, p) && c.st.Len? && |chunk| == c.need
    ensures Refines(FeedCursor(c, chunk), p + chunk)
  {
    var q := p + chunk;
    assert q[..4] == p && q[4] == chunk[0];
    assert Padded(q[5..5]) == ZERO_PAYLOAD;
  }

  lemma FeedFlags(c: Cursor, p: Bytes, chunk: Bytes)
    requires MidFrame(c, p) && c.st.Flags? && |chunk| == c.need
    ensures Refines(FeedCursor(c, chunk), p + chunk)
  {
    var q := p + chunk;
    assert q[..4] == p[..4] && q[4] == p[4] && q[5] == chunk[0];
    assert Padded(q[6..6]) == ZERO_PAYLOAD;
  }

  lemma FeedData(c: Cursor, p: Bytes, chunk: Bytes)
    requires MidFrame(c, p) && c.st.Data? && |chunk| == c.need
    ensures Refines(FeedCursor(c, chunk), p + chunk)
  {
    var q := p + chunk;
    assert q[..4] == p[..4] && q[4] == p[4] && q[|p|..] == chunk;
    assert q[|p|..|q|] == chunk;
  }

  lemma FeedRefines(c: Cursor, p: Bytes, chunk: Bytes)
    requires MidFrame(c, p) && |chunk| == c.need
    ensures Refines(FeedCursor(c, chunk), p + chunk)
  {
    match c.st {
      case CanId =>
        assert p + chunk == chunk;
      case Len => FeedLen(c, p, chunk);
      case Flags => FeedFlags(c, p, chunk);
      case Data => FeedData(c, p, chunk);
    }
  }

  /** Fewer bytes than asked for are never a whole frame nor an error. */
  lemma StarvedIsShort(c: Cursor, p: Bytes, rest: Bytes)
    requires MidFrame(c, p) && |rest| < c.need
    ensures Parse(p + rest).Short?
  {
    if c.st.Data? {
      var q := p + rest;
      assert q[..4] == p[..4];
    }
  }

  // ------------------------------------------------- reachable decoder states

  /** A run of the loop: each chunk has the size asked for and none fails. */
  ghost predicate ExactRun(cs: seq<Cursor>, chunks: seq<Bytes>) {
    && |cs| == |chunks| + 1 && cs[0] == PRIMED
    && forall i :: 0 <= i < |chunks| ==>
         && |chunks[i]| == cs[i].need
         && match FeedCursor(cs[i], chunks[i])
            case Continue(c) => cs[i + 1] == c
            case Emitted(_) => cs[i + 1] == PRIMED
            case Failed => false
  }

  /** The bytes of the current frame read before step `i`. */
  function ReadSoFar(cs: seq<Cursor>, chunks: seq<Bytes>, i: nat): Bytes
    requires i < |cs| && i <= |chunks|
  {
    if i == 0 || FeedCursor(cs[i - 1], chunks[i - 1]).Emitted? then []
    else ReadSoFar(cs, chunks, i - 1) + chunks[i - 1]
  }

  lemma {:induction false} ReachableMidFrame(cs: seq<Cursor>, chunks: seq<Bytes>, i: nat)
    requires ExactRun(cs, chunks) && i < |cs|
    ensures MidFrame(cs[i], ReadSoFar(cs, chunks, i))
  {
    hide StreamStep, Parse, AfterHeader;
    if i == 0 {
      Primes(DEFAULT_FRAME, PRIMED, []);
    } else {
      ReachableMidFrame(cs, chunks, i - 1);
      FeedRefines(cs[i - 1], ReadSoFar(cs, chunks, i - 1), chunks[i - 1]);
    }
  }

  /** In every reachable decoder state the request is between 1 and 64 bytes, so the
      loop's size guard never trips; the next chunk fails exactly when it is a length
      byte over its class limit; and an emitted frame is in class and is read from 5 to
      70 bytes, its own encoding. */
  lemma StreamInvariant(cs: seq<Cursor>, chunks: seq<Bytes>, i: nat, chunk: Bytes)
    requires ExactRun(cs, chunks) && i < |cs| && |chunk| == cs[i].need
    ensures 1 <= cs[i].need <= 64
    ensures FeedCursor(cs[i], chunk).Failed? <==>
      cs[i].st.Len? && LenOf(chunk[0]) > (if FdBit(chunk[0]) then MAX_FRAME_LEN else CLASSIC_FRAME_MAX_LEN)
    ensures FeedCursor(cs[i], chunk).Emitted? ==>
      var f, b := FeedCursor(cs[i], chunk).f, ReadSoFar(cs, chunks, i) + chunk;
      InClass(f) && Normalize(f) == f && f.rxTime == 0 && 5 <= |b| <= 70 && Encode(f) == b
  {
    var p := ReadSoFar(cs, chunks, i);
    ReachableMidFrame(cs, chunks, i);
    FeedRefines(cs[i], p, chunk);
    FailsOnLength(cs[i], p, chunk);
    if FeedCursor(cs[i], chunk).Emitted? {
      hide FeedCursor, MidFrame, Encode;
      ParseCanonical(p + chunk);
      assert (p + chunk)[..|p + chunk|] == p + chunk;
    }
  }

  lemma FailsOnLength(c: Cursor, p: Bytes, chunk: Bytes)
    requires MidFrame(c, p) && |chunk| == c.need
    ensures 1 <= c.need <= 64
    ensures FeedCursor(c, chunk).Failed? <==>
      c.st.Len? && LenOf(chunk[0]) > (if FdBit(chunk[0]) then MAX_FRAME_LEN else CLASSIC_FRAME_MAX_LEN)
    ensures FeedCursor(c, chunk).Emitted? ==> FeedCursor(c, chunk).f.rxTime == 0
  {}

  // ------------------------------------------------------ the TCP receive loop

  datatype Ended = Stopped | AtEnd(stop: Stop)

  /** `pushed` is exactly what the reference reading finds before `start`. */
  ghost predicate PushedUpTo(b: Bytes, pushed: seq<Frame>, start: nat) {
    && start <= |b|
    && DecodeAll(b) == Run(pushed + DecodeAll(b[start..]).frames, DecodeAll(b[start..]).stop)
  }

  lemma StarvedEnds(b: Bytes, pushed: seq<Frame>, start: nat, pos: nat, c: Cursor)
    requires start <= pos <= |b| && PushedUpTo(b, pushed, start)
    requires MidFrame(c, b[start..pos]) && |b| - pos < c.need
    ensures DecodeAll(b) == Run(pushed, Starved)
  {
    hide Parse, MidFrame;
    StarvedIsShort(c, b[start..pos], b[pos..]);
    assert b[start..] == b[start..pos] + b[pos..];
    assert pushed + [] == pushed;
  }

  lemma FrameAdvances(b: Bytes, pushed: seq<Frame>, start: nat, end: nat, f: Frame)
    requires start <= end <= |b| && PushedUpTo(b, pushed, start)
    requires Parse(b[start..end]) == Got(f, end - start)
    ensures PushedUpTo(b, pushed + [f], end)
  {
    hide Parse;
    assert b[start..] == b[start..end] + b[end..];
    ParseStable(b[start..end], b[end..]);
    assert b[start..][end - start..] == b[end..];
    var rest := DecodeAll(b[end..]).frames;
    assert pushed + ([f] + rest) == (pushed + [f]) + rest;
  }

  lemma CorruptEnds(b: Bytes, pushed: seq<Frame>, start: nat, end: nat)
    requires start <= end <= |b| && PushedUpTo(b, pushed, start)
    requires Parse(b[start..end]) == Bad
    ensures DecodeAll(b) == Run(pushed, Corrupt)
  {
    hide Parse;
    assert b[start..] == b[start..end] + b[end..];
    ParseStable(b[start..end], b[end..]);
    assert pushed + [] == pushed;
  }

  lemma ChunkAdvances(b: Bytes, pushed: seq<Frame>, start: nat, pos: nat, c: Cursor)
    requires start <= pos <= |b| && PushedUpTo(b, pushed, start)
    requires MidFrame(c, b[start..pos]) && pos + c.need <= |b|
    ensures var end := pos + c.need;
      match FeedCursor(c, b[pos..end])
      case Continue(d) => MidFrame(d, b[start..end])
      case Emitted(f) => PushedUpTo(b, pushed + [f], end)
      case Failed => DecodeAll(b) == Run(pushed, Corrupt)
  {
    hide MidFrame, Parse, FeedCursor, PushedUpTo;
    var end := pos + c.need;
    FeedRefines(c, b[start..pos], b[pos..end]);
    assert b[start..end] == b[start..pos] + b[pos..end];
    match FeedCursor(c, b[pos..end]) {
      case Continue(_) =>
      case Emitted(f) => FrameAdvances(b, pushed, start, end, f);
      case Failed => CorruptEnds(b, pushed, start, end);
    }
  }

  /** Priming asks for the four identifier bytes; a request is never 0 nor over 64. */
  lemma Primes(f: Frame, c: Cursor, p: Bytes)
    ensures StreamStep([], f, Init) == Stepped(PRIMED.f, PRIMED.st, Need(PRIMED.need))
    ensures MidFrame(PRIMED, [])
    ensures MidFrame(c, p) ==> 1 <= c.need <= 64
  {}

  /** The size the loop reads next; anything but a request stops it. */
  function Request(d: Decoded): nat { if d.Need? then d.n else 0 }

  /** Reads a frame takes: identifier, length, FD flags, data. */
  function Reads(f: Frame): nat { 2 + (if f.fd then 1 else 0) + if WireLen(f) > 0 then 1 else 0 }

  function AllReads(fs: seq<Frame>): nat {
    if fs == [] then 0 else AllReads(fs[..|fs| - 1]) + Reads(fs[|fs| - 1])
  }

  /** Reads made of the current frame. */
  function ReadsMade(c: Cursor): nat {
    match c.st
    case Init => 0 case CanId => 0 case Len => 1 case Flags => 2
    case Data => if c.f.fd then 3 else 2
  }

  lemma OneRead(c: Cursor, p: Bytes, chunk: Bytes)
    requires MidFrame(c, p) && |chunk| == c.need
    ensures match FeedCursor(c, chunk)
      case Continue(d) => ReadsMade(d) == ReadsMade(c) + 1
      case Emitted(f) => Reads(f) == ReadsMade(c) + 1
      case Failed => true
  {
    hide Bits.And;
  }

  /** A frame under way has reads left. */
  lemma ReadsLeft(c: Cursor, p: Bytes, rest: Bytes)
    requires MidFrame(c, p) && Parse(p + rest).Got?
    ensures ReadsMade(c) < Reads(Parse(p + rest).f)
  {
    hide Bits.And;
    var q := p + rest;
    assert |p| >= 4 ==> q[..4] == p[..4];
    assert |p| == 4 ==> p[..4] == p;
  }

  /** Frames fully read within `checks` reads, and not the next one. */
  ghost predicate JustWithin(b: Bytes, pushed: seq<Frame>, checks: nat) {
    && AllReads(pushed) <= checks
    && (|pushed| < |DecodeAll(b).frames| ==> checks < AllReads(pushed) + Reads(DecodeAll(b).frames[|pushed|]))
  }

  lemma StopsJustWithin(b: Bytes, pushed: seq<Frame>, start: nat, pos: nat, c: Cursor, checks: nat)
    requires start <= pos <= |b| && PushedUpTo(b, pushed, start)
    requires MidFrame(c, b[start..pos]) && checks == AllReads(pushed) + ReadsMade(c)
    ensures JustWithin(b, pushed, checks)
  {
    hide MidFrame, Parse, ReadsMade, Reads;
    assert b[start..] == b[start..pos] + b[pos..];
    var rest := DecodeAll(b[start..]).frames;
    if rest != [] {
      ReadsLeft(c, b[start..pos], b[pos..]);
    }
  }

  /** `tcp_rx_loop` on a socket that delivers `b` and then fails every read.
      `checks` is how many times the loop finds `running` still set. Whatever stops
      it, the frames pushed are the first ones of the reference reading; unless it
      was told to stop, they are all of them; and if it was, they are all that could be
      read before. */
  method TcpRxLoop(b: Bytes, checks: nat) returns (pushed: seq<Frame>, why: Ended)
    ensures pushed <= DecodeAll(b).frames
    ensures why.AtEnd? ==> Run(pushed, why.stop) == DecodeAll(b)
    ensures checks > |b| ==> why.AtEnd?
    ensures why.Stopped? ==> JustWithin(b, pushed, checks)
  {
    hide MidFrame, StreamStep, Parse, PushedUpTo, AllReads, Reads, JustWithin;
    Primes(DEFAULT_FRAME, PRIMED, []);
    NothingPushed(b);
    var dec := new StreamDecoder();
    var first := dec.Feed([]);
    var need := Request(first);
    pushed := [];
    var pos, left := 0, checks;
    ghost var start := 0;
    while left > 0
      invariant 0 <= start <= pos <= |b|
      invariant MidFrame(Cursor(dec.f, dec.st, need), b[start..pos])
      invariant PushedUpTo(b, pushed, start)
      invariant fresh(dec)
      invariant 0 <= left <= checks && checks - left <= pos
      invariant checks - left == AllReads(pushed) + ReadsMade(Cursor(dec.f, dec.st, need))
    {
      left := left - 1;
      ghost var c := Cursor(dec.f, dec.st, need);
      Primes(DEFAULT_FRAME, c, b[start..pos]);
      if need == 0 || need > 80 {
        break;
      }
      if |b| - pos < need {
        StarvedEnds(b, pushed, start, pos, c);
        return pushed, AtEnd(Starved);
      }
      ChunkAdvances(b, pushed, start, pos, c);
      OneRead(c, b[start..pos], b[pos..pos + need]);
      var decoded := dec.Feed(b[pos..pos + need]);
      pos := pos + need;
      match decoded {
        case Need(n) =>
          need := n;
        case Complete =>
          MoreReads(pushed, dec.f);
          pushed := pushed + [dec.f];
          start := pos;
          dec := new StreamDecoder();
          var again := dec.Feed([]);
          need := Request(again);
          assert b[start..pos] == [];
        case Error =>
          return pushed, AtEnd(Corrupt);
      }
    }
    IsPrefix(b, pushed, start);
    StopsJustWithin(b, pushed, start, pos, Cursor(dec.f, dec.st, need), checks);
    return pushed, Stopped;
  }

  lemma NothingPushed(b: Bytes)
    ensures PushedUpTo(b, [], 0) && b[0..0] == [] && AllReads([]) == 0
  {
    assert b[0..] == b && [] + DecodeAll(b).frames == DecodeAll(b).frames;
  }

  lemma MoreReads(fs: seq<Frame>, f: Frame)
    ensures AllReads(fs + [f]) == AllReads(fs) + Reads(f)
  {
    assert (fs + [f])[..|fs|] == fs;
  }

  lemma IsPrefix(b: Bytes, pushed: seq<Frame>, start: nat)
    requires PushedUpTo(b, pushed, start)
    ensures pushed <= DecodeAll(b).frames
  {}

  // ---------------------------------------------------- the UDP packet parser

  /** The first `n` frames of `b`, if it starts with that many. */
  function TakeFrames(n: nat, b: Bytes): Option<seq<Frame>> {
    if n == 0 then Some([]) else
    match Parse(b)
    case Short => None
    case Bad => None
    case Got(f, used) =>
      ParseCanonical(b);
      match TakeFrames(n - 1, b[used..])
      case None => None
      case Some(fs) => Some([f] + fs)
  }

  function FrameCount(buf: Bytes): nat
    requires |buf| >= 5
  {
    0x100 * (buf[3] as nat) + buf[4]
  }

  predicate ValidHeader(buf: Bytes) {
    |buf| >= 5 && buf[0] == FRAME_VERSION && buf[1] == OP_DATA
  }

  /** The reference meaning of a datagram. */
  function Datagram(buf: Bytes): Option<seq<Frame>> {
    if ValidHeader(buf) then TakeFrames(FrameCount(buf), buf[5..]) else None
  }

  /** Decoder equivalence: a datagram body yields `n` frames exactly when the stream
      reading of the same bytes yields at least `n`, and then they are its first `n`. */
  lemma {:induction false} DecodersAgree(n: nat, body: Bytes)
    ensures TakeFrames(n, body)
         == if |DecodeAll(body).frames| >= n then Some(DecodeAll(body).frames[..n]) else None
  {
    hide Parse;
    if n > 0 && Parse(body).Got? {
      var Got(f, used) := Parse(body);
      ParseCanonical(body);
      DecodersAgree(n - 1, body[used..]);
      var rest := DecodeAll(body[used..]).frames;
      if |rest| >= n - 1 {
        assert ([f] + rest)[..n] == [f] + rest[..n - 1];
      }
    }
  }

  function PreallocCap(count: nat, bufLen: nat): nat {
    var room := bufLen / 5 + 1;
    if count < room then count else room
  }

  /** `Parse` read in place at offset `p`. */
  lemma ParseAt(buf: Bytes, p: nat)
    requires p + 5 <= |buf|
    ensures
      var raw, id := buf[p + 4], FromBE(buf[p..p + 4]);
      var fd, len := FdBit(raw), LenOf(raw);
      var head := p + if fd then 6 else 5;
      var n := if RtrBit(id) then 0 else len;
      Parse(buf[p..]) ==
        if len > (if fd then MAX_FRAME_LEN else CLASSIC_FRAME_MAX_LEN) then Bad
        else if |buf| < head + n then Short
        else
          var data := if n == 0 then ZERO_PAYLOAD else buf[head..head + n] + ZERO_PAYLOAD[n..];
          Got(Frame(id, len, fd, if fd then buf[p + 5] else 0, data, 0), head + n - p)
  {
    SevenBits(buf[p + 4]);
    hide FromBE, RtrBit, Zeros, LenOf, FdBit;
    var b := buf[p..];
    assert b[..4] == buf[p..p + 4] && b[4] == buf[p + 4];
    var fd, len := FdBit(b[4]), LenOf(b[4]);
    var head := if fd then 6 else 5;
    var n := if RtrBit(FromBE(b[..4])) then 0 else len;
    if |b| >= head + n {
      Subslice(buf, p, head, head + n);
      assert n == 0 ==> b[head..head + n] == [];
    }
    assert Padded([]) == ZERO_PAYLOAD;
  }

  lemma Subslice(b: Bytes, p: nat, i: nat, j: nat)
    requires i <= j && p + j <= |b|
    ensures b[p..][i..j] == b[p + i..p + j]
  {}

  ghost predicate TakenUpTo(buf: Bytes, count: nat, frames: seq<Frame>, p: nat) {
    && p <= |buf| && |frames| <= count
    && Datagram(buf) == Prepend(frames, TakeFrames(count - |frames|, buf[p..]))
  }

  lemma TakeOne(buf: Bytes, count: nat, frames: seq<Frame>, p: nat)
    requires TakenUpTo(buf, count, frames, p) && |frames| < count
    ensures match Parse(buf[p..])
      case Got(f, used) => TakenUpTo(buf, count, frames + [f], p + used)
      case _ => Datagram(buf) == None
  {
    hide Parse, Datagram;
    var b := buf[p..];
    match Parse(b)
    case Got(f, used) =>
      ParseCanonical(b);
      assert b[used..] == buf[p + used..];
      var r := TakeFrames(count - |frames| - 1, b[used..]);
      if r.Some? {
        assert frames + ([f] + r.value) == (frames + [f]) + r.value;
      }
    case _ =>
  }

  /** One round of `parse_udp`'s loop: the frame at offset `start` and the offset
      after it. */
  method ReadFrameAt(buf: Bytes, start: nat) returns (r: Option<(Frame, nat)>)
    requires start <= |buf|
    ensures r == match Parse(buf[start..])
                 case Got(f, used) => Some((f, start + used))
                 case _ => None
  {
    hide Parse, FromBE, Zeros, RtrBit, LenOf, FdBit;
    var p := start;
    if p + 5 > |buf| {
      ShortBelowFive(buf[p..]);
      return None;
    }
    ParseAt(buf, p);
    SevenBits(buf[p + 4]);
    var f := DEFAULT_FRAME;
    f := f.(canId := FromBE(buf[p..p + 4]));
    p := p + 4;
    var raw := buf[p];
    p := p + 1;
    if FdBit(raw) {
      f := f.(fd := true);
      f := f.(len := LenOf(raw));
      if p + 1 > |buf| {
        return None;
      }
      f := f.(fdFlags := buf[p]);
      p := p + 1;
    } else {
      f := f.(len := raw);
    }
    var dlen := f.len % 128;
    var limit := if f.fd then MAX_FRAME_LEN else CLASSIC_FRAME_MAX_LEN;
    if dlen > limit {
      return None;
    }
    if !IsRtr(f) {
      if p + dlen > |buf| {
        return None;
      }
      assert dlen == 0 ==> buf[p..p + dlen] + f.data[dlen..] == ZERO_PAYLOAD;
      f := f.(data := buf[p..p + dlen] + f.data[dlen..]);
      p := p + dlen;
    }
    return Some((f, p));
  }

  /** `parse_udp`: one offset walks the datagram. The pre-allocated capacity always
      suffices, although it is clamped to the datagram's size. */
  method ParseUdp(buf: Bytes) returns (r: Option<seq<Frame>>)
    ensures r == Datagram(buf)
    ensures r.Some? ==> |r.value| <= PreallocCap(FrameCount(buf), |buf|)
  {
    if |buf| < 5 {
      return None;
    }
    if buf[0] != FRAME_VERSION || buf[1] != OP_DATA {
      return None;
    }
    var count := FrameCount(buf);
    var frames: seq<Frame> := [];
    var p := 5;
    PrependNothing(TakeFrames(count, buf[5..]));
    hide Parse, FrameCount;
    for i := 0 to count
      invariant |frames| == i && 5 + 5 * i <= p <= |buf|
      invariant TakenUpTo(buf, count, frames, p)
    {
      TakeOne(buf, count, frames, p);
      var one := ReadFrameAt(buf, p);
      if one.None? {
        return None;
      }
      ParseCanonical(buf[p..]);
      frames := frames + [one.value.0];
      p := one.value.1;
    }
    AllTaken(buf, count, frames, p);
    return Some(frames);
  }

  lemma ShortBelowFive(b: Bytes)
    requires |b| < 5
    ensures Parse(b) == Short
  {}

  lemma AllTaken(buf: Bytes, count: nat, frames: seq<Frame>, p: nat)
    requires TakenUpTo(buf, count, frames, p) && |frames| == count
    ensures Datagram(buf) == Some(frames)
  {
    assert frames + [] == frames;
  }

  lemma PrependNothing(r: Option<seq<Frame>>)
    ensures Prepend([], r) == r
  {
    if r.Some? {
      assert [] + r.value == r.value;
    }
  }

  function Prepend(fs: seq<Frame>, r: Option<seq<Frame>>): Option<seq<Frame>> {
    match r
    case None => None
    case Some(gs) => Some(fs + gs)
  }

  // --------------------------------------------------- building UDP datagrams

  /** The five header bytes of a datagram of `count` frames. */
  function UdpHeader(seqNo: byte, count: u16): (h: Bytes)
    ensures |h| == 5 && ValidHeader(h) && h[2] == seqNo && FrameCount(h) == count
  {
    [FRAME_VERSION, OP_DATA, seqNo, count / 0x100, count % 0x100]
  }

  /** The header's bytes. */
  lemma HeaderBytes(seqNo: byte, count: u16)
    ensures UdpHeader(seqNo, count) == [2, 0, seqNo, count / 0x100, count % 0x100]
  {}

  /** `build_udp`: a one-frame datagram. */
  method BuildUdp(f: Frame, seqNo: byte) returns (out: Bytes)
    requires Encodable(f)
    ensures out == UdpHeader(seqNo, 1) + Encode(f)
  {
    out := [FRAME_VERSION];
    out := out + [OP_DATA];
    out := out + [seqNo];
    out := out + [0, 1];
    out := EncodeFrame(out, f);
  }

  /** Batch round trip over UDP: a header with the matching count, the encodings, and
      any trailing bytes parse to the normalised frames. */
  lemma UdpRoundTrip(fs: seq<Frame>, seqNo: byte, count: u16, extra: Bytes)
    requires AllInClass(fs) && count == |fs|
    ensures Datagram(UdpHeader(seqNo, count) + (EncodeAll(fs) + extra)) == Some(NormalizeAll(fs))
  {
    hide Parse, Encode, Normalize;
    var body := EncodeAll(fs) + extra;
    var buf := UdpHeader(seqNo, count) + body;
    assert ValidHeader(buf) && FrameCount(buf) == count && buf[5..] == body;
    DecodersAgree(|fs|, body);
    DecodeEncodeAll(fs, extra);
    assert (NormalizeAll(fs) + DecodeAll(extra).frames)[..|fs|] == NormalizeAll(fs);
  }

  lemma TakenCanonical(n: nat, body: Bytes)
    requires n <= |DecodeAll(body).frames|
    ensures var fs := DecodeAll(body).frames[..n];
      AllInClass(fs) && NormalizeAll(fs) == fs && EncodeAll(fs) <= body
  {
    DecodeCanonical(body);
    var all := DecodeAll(body).frames;
    hide Parse, Encode, Normalize, DecodeAll;
    assert all[..n] + all[n..] == all;
    EncodeAllAppend(all[..n], all[n..]);
    NormalPrefix(all, n);
  }

  lemma NormalPrefix(fs: seq<Frame>, n: nat)
    requires n <= |fs| && AllInClass(fs) && NormalizeAll(fs) == fs
    ensures NormalizeAll(fs[..n]) == fs[..n]
  {
    hide Normalize;
    forall i | 0 <= i < n
      ensures NormalizeAll(fs[..n])[i] == fs[i]
    {
      assert NormalizeAll(fs)[i] == Normalize(fs[i]);
    }
  }

  /** Canonical form over UDP: re-encoding the frames of an accepted datagram, under its
      own sequence number and count, gives back the bytes the parser used. */
  lemma DatagramCanonical(buf: Bytes)
    requires Datagram(buf).Some?
    ensures var fs := Datagram(buf).value;
      && |fs| < 0x1_0000 && AllInClass(fs) && NormalizeAll(fs) == fs
      && UdpHeader(buf[2], |fs|) + EncodeAll(fs) <= buf
  {
    hide TakeFrames, DecodeAll, NormalizeAll, EncodeAll;
    var n, body := FrameCount(buf), buf[5..];
    DecodersAgree(n, body);
    TakenCanonical(n, body);
    HeaderOf(buf);
    hide UdpHeader, FrameCount;
    assert buf == buf[..5] + body;
  }

  lemma HeaderOf(buf: Bytes)
    requires ValidHeader(buf)
    ensures FrameCount(buf) < 0x1_0000 && buf[..5] == UdpHeader(buf[2], FrameCount(buf))
  {}
}
