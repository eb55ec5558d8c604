/** Kvaser message ids and flags against SocketCAN identifiers (src/wire.rs), and the
    acceptance filter that reads them (src/transport.rs). */
module Translate {
  import opened Bits
  import opened Wire

  /** A Kvaser id is a signed 32-bit integer; `id as u32` keeps its bit pattern. */
  type i32 = n: int | -0x8000_0000 <= n < 0x8000_0000

  function AsU32(id: i32): u32 { if id < 0 then id + 0x1_0000_0000 else id }

  function KvaserToCanId(id: i32, flag: u32): u32 {
    var base :=
      if And(flag, CAN_MSG_EXT) != 0 then Or(And(AsU32(id), CAN_EFF_MASK), CAN_EFF_FLAG)
      else And(AsU32(id), CAN_SFF_MASK);
    if And(flag, CAN_MSG_RTR) != 0 then Or(base, CAN_RTR_FLAG) else base
  }

  function CanIdToKvaser(canId: u32, fd: bool): (i32, u32) {
    var (id, cls) :=
      if And(canId, CAN_EFF_FLAG) != 0 then (And(canId, CAN_EFF_MASK), CAN_MSG_EXT)
      else (And(canId, CAN_SFF_MASK), CAN_MSG_STD);
    var rtr: u32 := if And(canId, CAN_RTR_FLAG) != 0 then Or(cls, CAN_MSG_RTR) else cls;
    (id, if fd then Or(rtr, CAN_MSG_FDF) else rtr)
  }

  /** The three facts that make a masked id survive its flag bits. */
  lemma Classes(x: u32, rtr: bool)
    ensures var e := Or(And(x, CAN_EFF_MASK), CAN_EFF_FLAG);
      var id := if rtr then Or(e, CAN_RTR_FLAG) else e;
      && And(id, CAN_EFF_FLAG) == CAN_EFF_FLAG
      && And(id, CAN_EFF_MASK) == And(x, CAN_EFF_MASK)
      && And(id, CAN_RTR_FLAG) == if rtr then CAN_RTR_FLAG else 0
    ensures var s := And(x, CAN_SFF_MASK);
      var id := if rtr then Or(s, CAN_RTR_FLAG) else s;
      && And(id, CAN_EFF_FLAG) == 0
      && And(id, CAN_SFF_MASK) == And(x, CAN_SFF_MASK)
      && And(id, CAN_RTR_FLAG) == if rtr then CAN_RTR_FLAG else 0
  {
    forall n | n in {CAN_EFF_FLAG, CAN_EFF_MASK, CAN_RTR_FLAG, CAN_SFF_MASK}
      ensures
        var e := Or(And(x, CAN_EFF_MASK), CAN_EFF_FLAG);
        var s := And(x, CAN_SFF_MASK);
        && And(e, n) == Or(And(x, And(CAN_EFF_MASK, n)), And(CAN_EFF_FLAG, n))
        && And(Or(e, CAN_RTR_FLAG), n) == Or(And(e, n), And(CAN_RTR_FLAG, n))
        && And(s, n) == And(x, And(CAN_SFF_MASK, n))
        && And(Or(s, CAN_RTR_FLAG), n) == Or(And(s, n), And(CAN_RTR_FLAG, n))
    {
      var e := Or(And(x, CAN_EFF_MASK), CAN_EFF_FLAG);
      var s := And(x, CAN_SFF_MASK);
      MaskAfterOr(x, CAN_EFF_MASK, CAN_EFF_FLAG, n);
      AndOr(e, CAN_RTR_FLAG, n);
      AndAssoc(x, CAN_SFF_MASK, n);
      AndOr(s, CAN_RTR_FLAG, n);
    }
    Constants();
  }

  lemma Constants()
    ensures And(CAN_EFF_MASK, CAN_EFF_FLAG) == 0 && And(CAN_EFF_MASK, CAN_RTR_FLAG) == 0
    ensures And(CAN_EFF_MASK, CAN_EFF_MASK) == CAN_EFF_MASK && And(CAN_SFF_MASK, CAN_SFF_MASK) == CAN_SFF_MASK
    ensures And(CAN_SFF_MASK, CAN_EFF_FLAG) == 0 && And(CAN_SFF_MASK, CAN_RTR_FLAG) == 0
    ensures And(CAN_EFF_FLAG, CAN_EFF_FLAG) == CAN_EFF_FLAG && And(CAN_RTR_FLAG, CAN_RTR_FLAG) == CAN_RTR_FLAG
    ensures And(CAN_EFF_FLAG, CAN_RTR_FLAG) == 0 && And(CAN_RTR_FLAG, CAN_EFF_FLAG) == 0
    ensures And(CAN_EFF_FLAG, CAN_EFF_MASK) == 0 && And(CAN_RTR_FLAG, CAN_EFF_MASK) == 0
    ensures And(CAN_RTR_FLAG, CAN_SFF_MASK) == 0
  {
    AndIdem(CAN_EFF_MASK);
    AndIdem(CAN_SFF_MASK);
    AndIdem(CAN_EFF_FLAG);
    AndIdem(CAN_RTR_FLAG);
    hide And;
    Shifts();
    AndDisjoint(CAN_EFF_MASK, 4, 29);
    AndDisjoint(CAN_EFF_MASK, 2, 29);
    AndDisjoint(CAN_SFF_MASK, 0x10_0000, 11);
    AndDisjoint(CAN_SFF_MASK, 0x8_0000, 11);
    AndDisjoint(CAN_RTR_FLAG, 1, 31);
  }

  lemma Shifts()
    ensures Shl(1, 11) == 0x800 && Shl(1, 29) == 0x2000_0000 && Shl(1, 31) == CAN_EFF_FLAG
    ensures Shl(4, 29) == CAN_EFF_FLAG && Shl(2, 29) == CAN_RTR_FLAG
    ensures Shl(0x10_0000, 11) == CAN_EFF_FLAG && Shl(0x8_0000, 11) == CAN_RTR_FLAG
  {
    assert Shl(1, 10) == 0x400 && Shl(0x400, 10) == 0x10_0000;
    ShlAdd(1, 10, 10);
    ShlAdd(1, 20, 9);
    ShlAdd(1, 20, 11);
    ShlAdd(1, 2, 29);
    ShlAdd(1, 1, 29);
    ShlAdd(1, 20, 10);
    ShlAdd(1, 19, 11);
    ShlAdd(1, 1, 30);
  }

  /** The flag word reported for a frame of this kind. */
  function KindFlags(ext: bool, rtr: bool, fd: bool): u32 {
    (if ext then CAN_MSG_EXT else CAN_MSG_STD) + (if rtr then CAN_MSG_RTR else 0)
    + (if fd then CAN_MSG_FDF else 0)
  }

  function ClassMask(ext: bool): u32 { if ext then CAN_EFF_MASK else CAN_SFF_MASK }

  /** Id round trip: what the receiver reports is the sender's id cut to its class and
      exactly the class and remote bits the sender asked for. */
  lemma IdRoundTrip(id: i32, flag: u32, fd: bool)
    ensures var ext, rtr := And(flag, CAN_MSG_EXT) != 0, And(flag, CAN_MSG_RTR) != 0;
      var canId := KvaserToCanId(id, flag);
      && CanIdToKvaser(canId, fd) == (And(AsU32(id), ClassMask(ext)), KindFlags(ext, rtr, fd))
      && RtrBit(canId) == rtr
  {
    hide And;
    hide Or;
    var ext, rtr := And(flag, CAN_MSG_EXT) != 0, And(flag, CAN_MSG_RTR) != 0;
    Classes(AsU32(id), rtr);
    FlagSums();
  }

  // -------------------------------------------- the same, in plain arithmetic

  /** The Kvaser flag bits, by place value. */
  lemma FlagBits(flag: u32)
    ensures And(flag, CAN_MSG_RTR) != 0 <==> flag % 2 == 1
    ensures And(flag, CAN_MSG_STD) != 0 <==> flag / 2 % 2 == 1
    ensures And(flag, CAN_MSG_EXT) != 0 <==> flag / 4 % 2 == 1
    ensures And(flag, CAN_MSG_FDF) != 0 <==> flag / 0x1_0000 % 2 == 1
    ensures And(flag, CAN_MSG_BRS) != 0 <==> flag / 0x2_0000 % 2 == 1
    ensures And(flag, CAN_MSG_ESI) != 0 <==> flag / 0x4_0000 % 2 == 1
  {
    hide And;
    PlaceValues();
    BitIs(flag, 0);
    BitIs(flag, 1);
    BitIs(flag, 2);
    BitIs(flag, 16);
    BitIs(flag, 17);
    BitIs(flag, 18);
  }

  lemma PlaceValues()
    ensures Shl(1, 0) == 1 && Shl(1, 1) == 2 && Shl(1, 2) == 4
    ensures Shl(1, 16) == 0x1_0000 && Shl(1, 17) == 0x2_0000 && Shl(1, 18) == 0x4_0000
    ensures Shl(1, 30) == 0x4000_0000
  {
    assert Shl(1, 8) == 0x100 && Shl(0x100, 8) == 0x1_0000;
    ShlAdd(1, 8, 8);
    Shifts();
    assert 2 * Shl(1, 30) == Shl(1, 31);
  }

  /** The SocketCAN identifier's flag bits and masks. */
  lemma IdBits(canId: u32)
    ensures And(canId, CAN_EFF_FLAG) != 0 <==> canId >= 0x8000_0000
    ensures And(canId, CAN_RTR_FLAG) != 0 <==> canId / 0x4000_0000 % 2 == 1
    ensures And(canId, CAN_EFF_MASK) == canId % 0x2000_0000
    ensures And(canId, CAN_SFF_MASK) == canId % 0x800
  {
    hide And;
    PlaceValues();
    Shifts();
    BitIs(canId, 30);
    BitIs(canId, 31);
    MaskIsMod(canId, 29);
    MaskIsMod(canId, 11);
  }

  /** The identifier sent, number for number: the id cut to 29 or 11 bits, the extended
      flag on top of a 29-bit one, the remote flag if asked for, and no other bit. */
  lemma CanIdIs(id: i32, flag: u32)
    ensures KvaserToCanId(id, flag) ==
      (if flag / 4 % 2 == 1 then id % 0x2000_0000 + 0x8000_0000 else id % 0x800)
      + (if flag % 2 == 1 then 0x4000_0000 else 0)
  {
    hide And, Or, Shl, AsU32;
    var x := AsU32(id);
    FlagBits(flag);
    IdBits(x);
    SameCut(id);
    ExtendedIs(x % 0x2000_0000);
    StandardIs(x % 0x800);
  }

  /** The bit pattern of a negative id cuts like the id itself. */
  lemma SameCut(id: i32)
    ensures AsU32(id) % 0x2000_0000 == id % 0x2000_0000 && AsU32(id) % 0x800 == id % 0x800
  {}

  lemma ExtendedIs(low: u32)
    requires low < 0x2000_0000
    ensures Or(low, CAN_EFF_FLAG) == low + 0x8000_0000
    ensures Or(low + 0x8000_0000, CAN_RTR_FLAG) == low + 0xC000_0000
  {
    Shifts();
    SixIs();
    Sixes();
    hide Or;
    OrDisjoint(low, 4, 29);
    OrHigh(low, 4, 2, 29);
  }

  lemma StandardIs(low: u32)
    requires low < 0x800
    ensures Or(low, CAN_RTR_FLAG) == low + 0x4000_0000
  {
    Shifts();
    hide Or;
    OrDisjoint(low, 0x8_0000, 11);
  }

  lemma SixIs()
    ensures Or(4, 2) == 6
  {}

  lemma Sixes()
    ensures Shl(6, 29) == 0xC000_0000
  {
    Shifts();
    assert Shl(6, 10) == 0x1800 && Shl(0x1800, 10) == 0x60_0000 && Shl(0x60_0000, 9) == 0xC000_0000;
    ShlAdd(6, 10, 10);
    ShlAdd(6, 20, 9);
  }

  /** The id and flag word reported, number for number. */
  lemma ReportedIs(canId: u32, fd: bool)
    ensures CanIdToKvaser(canId, fd) ==
      (if canId >= 0x8000_0000 then canId % 0x2000_0000 else canId % 0x800,
       (if canId >= 0x8000_0000 then 4 else 2) + (if canId / 0x4000_0000 % 2 == 1 then 1 else 0)
       + (if fd then 0x1_0000 else 0))
  {
    IdBits(canId);
    FlagSums();
    hide And, Or;
  }

  lemma FlagSums()
    ensures Or(CAN_MSG_EXT, CAN_MSG_RTR) == CAN_MSG_EXT + CAN_MSG_RTR
    ensures Or(CAN_MSG_STD, CAN_MSG_RTR) == CAN_MSG_STD + CAN_MSG_RTR
    ensures Or(CAN_MSG_EXT, CAN_MSG_FDF) == CAN_MSG_EXT + CAN_MSG_FDF
    ensures Or(CAN_MSG_STD, CAN_MSG_FDF) == CAN_MSG_STD + CAN_MSG_FDF
    ensures Or(CAN_MSG_EXT + CAN_MSG_RTR, CAN_MSG_FDF) == CAN_MSG_EXT + CAN_MSG_RTR + CAN_MSG_FDF
    ensures Or(CAN_MSG_STD + CAN_MSG_RTR, CAN_MSG_FDF) == CAN_MSG_STD + CAN_MSG_RTR + CAN_MSG_FDF
  {}

  // --------------------------------------------------------- acceptance filter

  datatype Accept = Accept(codeStd: u32, maskStd: u32, codeExt: u32, maskExt: u32)

  const ACCEPT_ALL := Accept(0, 0, 0, 0)

  predicate Accepts(a: Accept, canId: u32) {
    if And(canId, CAN_EFF_FLAG) != 0
    then And(And(canId, CAN_EFF_MASK), a.maskExt) == And(a.codeExt, a.maskExt)
    else And(And(canId, CAN_SFF_MASK), a.maskStd) == And(a.codeStd, a.maskStd)
  }

  /** One `canAccept` call. */
  datatype Directive = Directive(flag: u32, envelope: u32)

  function SetAccept(a: Accept, d: Directive): Accept {
    match d.flag
    case 3 => a.(codeStd := d.envelope)
    case 4 => a.(maskStd := d.envelope)
    case 5 => a.(codeExt := d.envelope)
    case 6 => a.(maskExt := d.envelope)
    case _ => a
  }

  /** The filter after a history of directives, oldest first. */
  function Filter(history: seq<Directive>): Accept {
    if history == [] then ACCEPT_ALL
    else SetAccept(Filter(history[..|history| - 1]), history[|history| - 1])
  }

  /** The envelope of the latest directive with this flag, or 0. */
  function Latest(history: seq<Directive>, flag: u32): u32 {
    if history == [] then 0
    else
      var last := history[|history| - 1];
      if last.flag == flag then last.envelope else Latest(history[..|history| - 1], flag)
  }

  /** The id and class the application would be shown pass the latest code and mask of
      that class. */
  predicate ShownPasses(history: seq<Directive>, canId: u32, fd: bool) {
    var (id, flag) := CanIdToKvaser(canId, fd);
    var ext := And(flag, CAN_MSG_EXT) != 0;
    var code, mask := Latest(history, if ext then 5 else 3), Latest(history, if ext then 6 else 4);
    And(id, mask) == And(code, mask)
  }

  /** Filter meaning: the verdict on a frame depends only on the id and class the
      application would be shown, with the latest code and mask of that class. */
  lemma {:induction false} FilterMeaning(history: seq<Directive>, canId: u32, fd: bool)
    ensures Accepts(Filter(history), canId) <==> ShownPasses(history, canId, fd)
  {
    FilterIsLatest(history);
    ShownClass(canId, fd);
  }

  lemma {:induction false} FilterIsLatest(history: seq<Directive>)
    ensures Filter(history)
         == Accept(Latest(history, 3), Latest(history, 4), Latest(history, 5), Latest(history, 6))
  {
    if history != [] {
      FilterIsLatest(history[..|history| - 1]);
    }
  }

  /** The flag word shows exactly one of STD and EXT, and it is EXT for an extended id. */
  lemma ShownClass(canId: u32, fd: bool)
    ensures var flag := CanIdToKvaser(canId, fd).1;
      && (And(flag, CAN_MSG_EXT) != 0 <==> And(canId, CAN_EFF_FLAG) != 0)
      && (And(flag, CAN_MSG_STD) != 0 <==> And(canId, CAN_EFF_FLAG) == 0)
  {
    FlagSums();
    KindBits(And(canId, CAN_EFF_FLAG) != 0, And(canId, CAN_RTR_FLAG) != 0, fd);
  }

  lemma LowKindBits(ext: bool, rtr: bool)
    ensures var low := KindFlags(ext, rtr, false);
      && And(low, CAN_MSG_EXT) == (if ext then CAN_MSG_EXT else 0)
      && And(low, CAN_MSG_STD) == (if ext then 0 else CAN_MSG_STD)
      && And(low, CAN_MSG_RTR) == if rtr then CAN_MSG_RTR else 0
    ensures Or(CAN_MSG_EXT, 0) == CAN_MSG_EXT && Or(CAN_MSG_STD, 0) == CAN_MSG_STD
    ensures Or(CAN_MSG_RTR, 0) == CAN_MSG_RTR && forall x :: Or(0, x) == x
  {}

  lemma KindBits(ext: bool, rtr: bool, fd: bool)
    ensures And(KindFlags(ext, rtr, fd), CAN_MSG_EXT) == if ext then CAN_MSG_EXT else 0
    ensures And(KindFlags(ext, rtr, fd), CAN_MSG_STD) == if ext then 0 else CAN_MSG_STD
    ensures And(KindFlags(ext, rtr, fd), CAN_MSG_RTR) == if rtr then CAN_MSG_RTR else 0
    ensures And(KindFlags(ext, rtr, fd), CAN_MSG_FDF) == if fd then CAN_MSG_FDF else 0
  {
    var low := (if ext then 4 else 2) + if rtr then 1 else 0;
    LowKindBits(ext, rtr);
    FlagSums();
    assert Shl(0x2000, 3) == CAN_MSG_FDF && Shl(1, 3) == 8;
    hide And;
    hide Or;
    if fd {
      AndOr(low, CAN_MSG_FDF, CAN_MSG_EXT);
      AndOr(low, CAN_MSG_FDF, CAN_MSG_STD);
      AndOr(low, CAN_MSG_FDF, CAN_MSG_RTR);
      AndOr(low, CAN_MSG_FDF, CAN_MSG_FDF);
      AndDisjoint(low, 0x2000, 3);
      AndDisjoint(4, 0x2000, 3);
      AndDisjoint(2, 0x2000, 3);
      AndDisjoint(1, 0x2000, 3);
      AndIdem(CAN_MSG_FDF);
    } else {
      AndDisjoint(low, 0x2000, 3);
    }
  }

  /** Directives for one class never change the verdict on the other. */
  lemma {:induction false} ClassesIndependent(history: seq<Directive>, d: Directive, canId: u32)
    requires if And(canId, CAN_EFF_FLAG) != 0 then d.flag !in {5, 6} else d.flag !in {3, 4}
    ensures Accepts(Filter(history + [d]), canId) == Accepts(Filter(history), canId)
  {
    assert (history + [d])[..|history|] == history;
  }
}
