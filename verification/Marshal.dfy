/** The API marshalling of src/lib.rs: `write_frame` on the sending side,
    `write_read_outputs` on the receiving side, and the whole path between them. */
module Marshal {
  import opened Bits
  import opened Wire
  import opened Translate

  function Min(a: nat, b: nat): nat { if a < b then a else b }

  // ------------------------------------------------------------ FD lengths

  /** The CAN FD data lengths of ISO 11898-1. */
  predicate ValidFdLen(n: nat) {
    n <= 8 || n == 12 || n == 16 || n == 20 || n == 24 || n == 32 || n == 48 || n == 64
  }

  function FdRoundLen(n: byte): byte {
    if n <= 8 then n else if n <= 12 then 12 else if n <= 16 then 16 else if n <= 20 then 20
    else if n <= 24 then 24 else if n <= 32 then 32 else if n <= 48 then 48 else 64
  }

  /** Rounding gives the least valid length that covers the request, up to 64. */
  lemma RoundIsLeastValid(n: byte, m: nat)
    ensures ValidFdLen(FdRoundLen(n))
    ensures n <= 64 ==> n <= FdRoundLen(n)
    ensures ValidFdLen(m) && n <= m ==> FdRoundLen(n) <= m
  {}

  // ------------------------------------------------------------ FD flag maps

  function KvaserToFdFlags(flag: u32): byte {
    var f: byte := if And(flag, CAN_MSG_BRS) != 0 then CANFD_BRS else 0;
    if And(flag, CAN_MSG_ESI) != 0 then Or(f, CANFD_ESI) else f
  }

  function FdFlagsToKvaser(fdFlags: byte): u32 {
    var f: u32 := if And(fdFlags, CANFD_BRS) != 0 then CAN_MSG_BRS else 0;
    if And(fdFlags, CANFD_ESI) != 0 then Or(f, CAN_MSG_ESI) else f
  }

  /** The BRS and ESI bits of a flag word, alone. */
  function RateFlags(flag: u32): u32 {
    (if And(flag, CAN_MSG_BRS) != 0 then CAN_MSG_BRS else 0) + (if And(flag, CAN_MSG_ESI) != 0 then CAN_MSG_ESI else 0)
  }

  lemma FdFlagsRoundTrip(flag: u32)
    ensures FdFlagsToKvaser(KvaserToFdFlags(flag)) == RateFlags(flag)
  {
    var brs, esi := And(flag, CAN_MSG_BRS) != 0, And(flag, CAN_MSG_ESI) != 0;
    hide And;
    hide Or;
    FdFlagBits();
  }

  /** Each FD flag has its own bit on the wire, and nothing else is sent. */
  lemma FdFlagsOnWire(flag: u32)
    ensures And(KvaserToFdFlags(flag), CANFD_BRS) != 0 <==> And(flag, CAN_MSG_BRS) != 0
    ensures And(KvaserToFdFlags(flag), CANFD_ESI) != 0 <==> And(flag, CAN_MSG_ESI) != 0
    ensures KvaserToFdFlags(flag) <= 3
  {
    hide And, Or;
    FdFlagBits();
  }

  lemma FdFlagBits()
    ensures And(0, CANFD_BRS) == 0 && And(1, CANFD_BRS) == 1 && And(2, CANFD_BRS) == 0 && And(3, CANFD_BRS) == 1
    ensures And(0, CANFD_ESI) == 0 && And(1, CANFD_ESI) == 0 && And(2, CANFD_ESI) == 2 && And(3, CANFD_ESI) == 2
    ensures Or(0, CANFD_ESI) == 2 && Or(1, CANFD_ESI) == 3 && Or(0, CAN_MSG_ESI) == CAN_MSG_ESI
    ensures Or(CAN_MSG_BRS, CAN_MSG_ESI) == CAN_MSG_BRS + CAN_MSG_ESI
  {
    assert And(0, 1) == And(0, 0) == 0 && And(1, 1) == 1;
    assert And(1, 0) == 0;
    assert Shl(1, 10) == 0x400 && Shl(0x400, 8) == CAN_MSG_ESI;
    ShlAdd(1, 10, 8);
    OrDisjoint(CAN_MSG_BRS, 1, 18);
  }

  // ------------------------------------------------------------------ sending

  predicate IsFd(flag: u32) { And(flag, CAN_MSG_FDF) != 0 }
  predicate IsExt(flag: u32) { And(flag, CAN_MSG_EXT) != 0 }
  predicate WantsRtr(flag: u32) { And(flag, CAN_MSG_RTR) != 0 }

  /** Bytes read from the caller's buffer, which the caller must supply. */
  function UserBytes(dlc: u32, flag: u32): nat { Min(dlc, if IsFd(flag) then 64 else 8) }

  predicate Readable(msg: Option<Bytes>, dlc: u32, flag: u32) {
    msg.Some? && !WantsRtr(flag) ==> UserBytes(dlc, flag) <= |msg.value|
  }

  /** The payload the caller means: its bytes zero-padded, or zeros. */
  function Supplied(msg: Option<Bytes>, dlc: u32, flag: u32): Payload
    requires Readable(msg, dlc, flag)
  {
    if msg.Some? && !WantsRtr(flag) then Padded(msg.value[..UserBytes(dlc, flag)]) else ZERO_PAYLOAD
  }

  function AppFrame(id: i32, msg: Option<Bytes>, dlc: u32, flag: u32): Frame
    requires Readable(msg, dlc, flag)
  {
    Frame(KvaserToCanId(id, flag),
          if IsFd(flag) then FdRoundLen(Min(dlc, 64)) else Min(dlc, 8),
          IsFd(flag), if IsFd(flag) then KvaserToFdFlags(flag) else 0,
          Supplied(msg, dlc, flag), 0)
  }

  /** Byte `i` of the payload the caller means. */
  function MeantByte(msg: Option<Bytes>, dlc: u32, flag: u32, i: nat): byte
    requires Readable(msg, dlc, flag)
  {
    if msg.Some? && And(flag, CAN_MSG_RTR) == 0 && i < Min(dlc, if And(flag, CAN_MSG_FDF) != 0 then 64 else 8)
    then msg.value[i] else 0
  }

  /** Byte by byte, what is sent is what the caller supplied, and zeros after it. */
  lemma SuppliedBytes(msg: Option<Bytes>, dlc: u32, flag: u32)
    requires Readable(msg, dlc, flag)
    ensures forall i :: 0 <= i < 64 ==> Supplied(msg, dlc, flag)[i] == MeantByte(msg, dlc, flag, i)
  {
    hide And;
  }

  /** `write_frame`'s filling of the frame buffer: every byte of it is the caller's, or
      zero; the identifier and the flags are number for number those asked for. */
  method FillFrame(id: i32, msg: Option<Bytes>, dlc: u32, flag: u32) returns (f: Frame)
    requires Readable(msg, dlc, flag)
    ensures f == AppFrame(id, msg, dlc, flag)
    ensures forall i :: 0 <= i < 64 ==>
      f.data[i] == if msg.Some? && And(flag, CAN_MSG_RTR) == 0
                      && i < Min(dlc, if And(flag, CAN_MSG_FDF) != 0 then 64 else 8) then msg.value[i] else 0
    ensures f.canId ==
      (if flag / 4 % 2 == 1 then id % 0x2000_0000 + 0x8000_0000 else id % 0x800)
      + (if flag % 2 == 1 then 0x4000_0000 else 0)
    ensures f.fd <==> flag / 0x1_0000 % 2 == 1
  {
    CanIdIs(id, flag);
    FlagBits(flag);
    SuppliedBytes(msg, dlc, flag);
    hide And;
    hide Or;
    hide KvaserToCanId, Supplied, Zeros;
    f := DEFAULT_FRAME;
    f := f.(canId := KvaserToCanId(id, flag));
    var userBytes;
    if And(flag, CAN_MSG_FDF) != 0 {
      f := f.(fd := true);
      f := f.(fdFlags := KvaserToFdFlags(flag));
      f := f.(len := FdRoundLen(Min(dlc, 64)));
      userBytes := Min(dlc, 64);
    } else {
      f := f.(len := Min(dlc, 8));
      userBytes := f.len;
    }
    if msg.Some? && userBytes > 0 && And(flag, CAN_MSG_RTR) == 0 {
      f := f.(data := msg.value[..userBytes] + f.data[userBytes..]);
    }
    SuppliedIs(msg, dlc, flag, userBytes);
  }

  lemma SuppliedIs(msg: Option<Bytes>, dlc: u32, flag: u32, n: nat)
    requires Readable(msg, dlc, flag) && n == UserBytes(dlc, flag)
    ensures Supplied(msg, dlc, flag) ==
      if msg.Some? && n > 0 && !WantsRtr(flag) then msg.value[..n] + ZERO_PAYLOAD[n..] else ZERO_PAYLOAD
  {
    hide And;
    assert Padded([]) == ZERO_PAYLOAD;
    assert n == 0 && msg.Some? ==> msg.value[..n] == [];
  }

  // ---------------------------------------------------------------- receiving

  /** What `canRead` reports besides the payload. */
  datatype Report = Report(id: i32, flag: u32, dlc: nat, time: u32)

  function MaxDelivered(fdCapable: bool): nat { if fdCapable then MAX_FRAME_LEN else CLASSIC_FRAME_MAX_LEN }

  function Shown(f: Frame, fdCapable: bool): Report {
    var reportFd := f.fd && fdCapable;
    var (id, kind) := CanIdToKvaser(f.canId, reportFd);
    var flag: nat := if reportFd then Or(kind, FdFlagsToKvaser(f.fdFlags)) else kind;
    Report(id, flag % 0x1_0000_0000, Min(f.len, MaxDelivered(fdCapable)), f.rxTime % 0x1_0000_0000)
  }

  /** What is reported of any frame, number for number. */
  lemma ShownIs(f: Frame, fdCapable: bool)
    ensures var fd := f.fd && fdCapable;
      Shown(f, fdCapable) == Report(
        if f.canId >= 0x8000_0000 then f.canId % 0x2000_0000 else f.canId % 0x800,
        (if f.canId >= 0x8000_0000 then 4 else 2) + (if f.canId / 0x4000_0000 % 2 == 1 then 1 else 0)
        + (if fd then 0x1_0000 + (if f.fdFlags % 2 == 1 then 0x2_0000 else 0)
                      + (if f.fdFlags / 2 % 2 == 1 then 0x4_0000 else 0) else 0),
        Min(f.len, if fdCapable then 64 else 8), f.rxTime % 0x1_0000_0000)
  {
    var fd := f.fd && fdCapable;
    ReportedIs(f.canId, fd);
    FdFlagsIs(f.fdFlags);
    var (id, kind) := CanIdToKvaser(f.canId, fd);
    hide And, Or, CanIdToKvaser, FdFlagsToKvaser;
    if fd {
      RatesOr(kind, (if f.fdFlags % 2 == 1 then 1 else 0) + (if f.fdFlags / 2 % 2 == 1 then 2 else 0));
    }
  }

  lemma FdFlagsIs(fdFlags: byte)
    ensures FdFlagsToKvaser(fdFlags) ==
      (if fdFlags % 2 == 1 then 0x2_0000 else 0) + (if fdFlags / 2 % 2 == 1 then 0x4_0000 else 0)
  {
    assert Shl(1, 0) == 1 && Shl(1, 1) == 2;
    BitIs(fdFlags, 0);
    BitIs(fdFlags, 1);
    FdFlagBits();
    hide And, Or;
  }

  lemma RateShifts()
    ensures Shl(0, 17) == 0 && Shl(1, 17) == 0x2_0000 && Shl(2, 17) == 0x4_0000 && Shl(3, 17) == 0x6_0000
  {
    assert Shl(1, 10) == 0x400 && Shl(0x400, 7) == CAN_MSG_BRS;
    ShlAdd(1, 10, 7);
    ShlSum(1, 1, 17);
    ShlSum(1, 2, 17);
    ShlSum(0, 0, 17);
  }

  /** The rate bits lie above every kind bit. */
  lemma RatesOr(kind: nat, rates: nat)
    requires kind < 0x2_0000 && rates < 4
    ensures Or(kind, rates * 0x2_0000) == kind + rates * 0x2_0000
  {
    RateShifts();
    OrDisjoint(kind, rates, 17);
  }

  /** The caller's buffer after the read: the delivered bytes over its old content. */
  function Filled(f: Frame, fdCapable: bool, before: Bytes): Bytes
    requires InClass(f) && MaxDelivered(fdCapable) <= |before|
  {
    var n := Min(f.len, MaxDelivered(fdCapable));
    if IsRtr(f) then before else f.data[..n] + before[n..]
  }

  /** `write_read_outputs`: a buffer sized for the channel's class is never overrun, and
      nothing in it changes beyond the bytes delivered. */
  method WriteReadOutputs(f: Frame, msg: array<byte>, fdCapable: bool) returns (r: Report)
    requires InClass(f) && MaxDelivered(fdCapable) <= msg.Length
    modifies msg
    ensures r == Shown(f, fdCapable)
    ensures msg[..] == Filled(f, fdCapable, old(msg[..]))
    ensures forall i :: 0 <= i < msg.Length ==>
      msg[i] == if f.canId / 0x4000_0000 % 2 == 0 && i < Min(f.len, if fdCapable then 64 else 8)
                then f.data[i] else old(msg[i])
  {
    IdBits(f.canId);
    assert IsRtr(f) <==> f.canId / 0x4000_0000 % 2 == 1;
    hide And, Or, CanIdToKvaser, FdFlagsToKvaser, RtrBit;
    var reportFd := f.fd && fdCapable;
    var (id, kind) := CanIdToKvaser(f.canId, reportFd);
    var flag: nat := kind;
    if reportFd {
      flag := Or(flag, FdFlagsToKvaser(f.fdFlags));
    }
    var n := Min(f.len, if fdCapable then MAX_FRAME_LEN else CLASSIC_FRAME_MAX_LEN);
    r := Report(id, flag % 0x1_0000_0000, n, f.rxTime % 0x1_0000_0000);
    if n > 0 && !IsRtr(f) {
      for i := 0 to n
        invariant forall j :: 0 <= j < i ==> msg[j] == f.data[j]
        invariant forall j :: i <= j < msg.Length ==> msg[j] == old(msg[j])
      {
        msg[i] := f.data[i];
      }
    }
  }

  // -------------------------------------------------------- the whole path

  lemma SentInClass(id: i32, msg: Option<Bytes>, dlc: u32, flag: u32)
    requires Readable(msg, dlc, flag)
    ensures InClass(AppFrame(id, msg, dlc, flag))
  {
    hide And;
    hide Or;
  }

  /** The data length the receiver is told: the least valid length covering the clamped
      request, cut to 8 on a classic channel. */
  function ToldLen(dlc: u32, flag: u32, fdCapable: bool): nat {
    Min(if IsFd(flag) then FdRoundLen(Min(dlc, 64)) else Min(dlc, 8), MaxDelivered(fdCapable))
  }

  /** What the receiver is told of a call of `write_frame`, but for the payload. */
  function ToldReport(id: i32, dlc: u32, flag: u32, fdCapable: bool, now: nat): Report {
    Report(if flag / 4 % 2 == 1 then id % 0x2000_0000 else id % 0x800,
           (if flag / 4 % 2 == 1 then 4 else 2) + flag % 2
           + (if flag / 0x1_0000 % 2 == 1 && fdCapable then
                0x1_0000 + flag / 0x2_0000 % 2 * 0x2_0000 + flag / 0x4_0000 % 2 * 0x4_0000
              else 0),
           ToldLen(dlc, flag, fdCapable), now % 0x1_0000_0000)
  }

  /** The receiver's buffer: the supplied payload over its old content, or untouched. */
  function ToldBuffer(msg: Option<Bytes>, dlc: u32, flag: u32, fdCapable: bool, before: Bytes): Bytes
    requires Readable(msg, dlc, flag) && MaxDelivered(fdCapable) <= |before|
  {
    var n := ToldLen(dlc, flag, fdCapable);
    if WantsRtr(flag) then before else Supplied(msg, dlc, flag)[..n] + before[n..]
  }

  /** Byte `i` of that buffer, from the sender's buffer and the receiver's own. */
  function ToldByte(msg: Option<Bytes>, dlc: u32, flag: u32, fdCapable: bool, before: Bytes, i: nat): byte
    requires Readable(msg, dlc, flag) && i < |before|
  {
    FlagBits(flag);
    if flag % 2 == 1 || i >= ToldLen(dlc, flag, fdCapable) then before[i]
    else if msg.Some? && i < Min(dlc, if flag / 0x1_0000 % 2 == 1 then 64 else 8) then msg.value[i]
    else 0
  }

  lemma ToldBytes(msg: Option<Bytes>, dlc: u32, flag: u32, fdCapable: bool, before: Bytes)
    requires Readable(msg, dlc, flag) && MaxDelivered(fdCapable) <= |before|
    ensures |ToldBuffer(msg, dlc, flag, fdCapable, before)| == |before|
    ensures forall i :: 0 <= i < |before| ==>
      ToldBuffer(msg, dlc, flag, fdCapable, before)[i] == ToldByte(msg, dlc, flag, fdCapable, before, i)
  {
    FlagBits(flag);
    SuppliedBytes(msg, dlc, flag);
    hide And, Supplied, FdRoundLen;
  }

  /** Application round trip: whatever `write_frame` sends, no decoder rejects; and the
      peer's `canRead` reports, number for number, the id cut to its class, exactly one of
      STD and EXT plus RTR, the FD bits only for a frame sent FD to an FD channel, the
      rounded length, and (but for remote frames) the sender's bytes, zero-padded. */
  lemma AppRoundTrip(id: i32, msg: Option<Bytes>, dlc: u32, flag: u32, fdCapable: bool, now: nat, before: Bytes, rest: Bytes)
    requires Readable(msg, dlc, flag) && MaxDelivered(fdCapable) <= |before|
    ensures
      var sent := AppFrame(id, msg, dlc, flag);
      && InClass(sent) && Parse(Encode(sent) + rest) == Got(Normalize(sent), |Encode(sent)|)
      && var got := Normalize(sent).(rxTime := now);
         && Shown(got, fdCapable) == ToldReport(id, dlc, flag, fdCapable, now)
         && |Filled(got, fdCapable, before)| == |before|
         && forall i :: 0 <= i < |before| ==>
              Filled(got, fdCapable, before)[i] == ToldByte(msg, dlc, flag, fdCapable, before, i)
  {
    SentInClass(id, msg, dlc, flag);
    ParseEncode(AppFrame(id, msg, dlc, flag), rest);
    hide *;
    AppShown(id, msg, dlc, flag, fdCapable, now);
    AppFilled(id, msg, dlc, flag, fdCapable, now, before);
    ToldBytes(msg, dlc, flag, fdCapable, before);
  }

  lemma AppShown(id: i32, msg: Option<Bytes>, dlc: u32, flag: u32, fdCapable: bool, now: nat)
    requires Readable(msg, dlc, flag) && InClass(AppFrame(id, msg, dlc, flag))
    ensures Shown(Normalize(AppFrame(id, msg, dlc, flag)).(rxTime := now), fdCapable)
         == ToldReport(id, dlc, flag, fdCapable, now)
  {
    hide And, Or, Padded, Supplied, FdRoundLen, KvaserToCanId, KvaserToFdFlags, Shown;
    ShownIs(Normalize(AppFrame(id, msg, dlc, flag)).(rxTime := now), fdCapable);
    CanIdIs(id, flag);
    FlagBits(flag);
    SentRates(flag);
    RatesBack(flag);
    Unpacks(id, flag / 4 % 2 == 1, flag % 2 == 1);
  }

  lemma Unpacks(id: i32, ext: bool, rtr: bool)
    ensures var canId := (if ext then id % 0x2000_0000 + 0x8000_0000 else id % 0x800) + if rtr then 0x4000_0000 else 0;
      && (canId >= 0x8000_0000 <==> ext) && (canId / 0x4000_0000 % 2 == 1 <==> rtr)
      && (ext ==> canId % 0x2000_0000 == id % 0x2000_0000)
      && (!ext ==> canId % 0x800 == id % 0x800)
  {}

  lemma RatesBack(flag: u32)
    ensures var r := flag / 0x2_0000 % 2 + 2 * (flag / 0x4_0000 % 2);
      r % 2 == flag / 0x2_0000 % 2 && r / 2 % 2 == flag / 0x4_0000 % 2
  {}

  lemma SentRates(flag: u32)
    ensures KvaserToFdFlags(flag) == flag / 0x2_0000 % 2 + 2 * (flag / 0x4_0000 % 2)
  {
    FlagBits(flag);
    FdFlagBits();
    hide And, Or;
  }

  lemma AppFilled(id: i32, msg: Option<Bytes>, dlc: u32, flag: u32, fdCapable: bool, now: nat, before: Bytes)
    requires Readable(msg, dlc, flag) && InClass(AppFrame(id, msg, dlc, flag))
    requires MaxDelivered(fdCapable) <= |before|
    ensures InClass(Normalize(AppFrame(id, msg, dlc, flag)).(rxTime := now))
    ensures Filled(Normalize(AppFrame(id, msg, dlc, flag)).(rxTime := now), fdCapable, before)
         == ToldBuffer(msg, dlc, flag, fdCapable, before)
  {
    IdRoundTrip(id, flag, false);
    SuppliedSurvives(msg, dlc, flag);
    hide And, Or, Padded, Supplied, FdRoundLen, CanIdToKvaser, KvaserToCanId, FdFlagsToKvaser, KvaserToFdFlags;
  }

  /** Nothing of the supplied payload lies beyond the length sent. */
  lemma SuppliedSurvives(msg: Option<Bytes>, dlc: u32, flag: u32)
    requires Readable(msg, dlc, flag)
    ensures var n := if IsFd(flag) then FdRoundLen(Min(dlc, 64)) else Min(dlc, 8);
      n <= 64 && Padded(Supplied(msg, dlc, flag)[..n]) == Supplied(msg, dlc, flag)
  {
    hide And;
    var p := Supplied(msg, dlc, flag);
    var n: nat := if IsFd(flag) then FdRoundLen(Min(dlc, 64)) else Min(dlc, 8);
    assert UserBytes(dlc, flag) <= n;
    assert forall i :: n <= i < 64 ==> p[i] == 0;
  }

  lemma {:induction false} ShlSum(x: nat, y: nat, k: nat)
    ensures Shl(x + y, k) == Shl(x, k) + Shl(y, k)
  {
    if k > 0 {
      ShlSum(x, y, k - 1);
    }
  }
}
