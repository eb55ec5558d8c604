/** The handle table of src/lib.rs: `CONNS` and the wrapping `NEXT_HANDLE` counter,
    under any interleaving of opens, closes and operations. */
module Handles {
  import opened Wire
  import opened Translate
  import Receiver
  import Conn

  type Tid = nat

  /** Two's-complement reading of a 32-bit pattern. */
  function Wrap(n: int): i32 { (n + 0x8000_0000) % 0x1_0000_0000 - 0x8000_0000 }

  /** The handle the n-th open (from 0) is given. */
  function HandleOf(n: nat): i32 { Wrap(1 + n) }

  /** Handles are positive for the first 2^31 - 1 opens of every 2^32, and repeat with
      exactly that period. */
  lemma HandlePeriod(n: nat, m: nat)
    ensures HandleOf(n) > 0 <==> n % 0x1_0000_0000 < 0x7FFF_FFFF
    ensures HandleOf(n) == HandleOf(m) <==> n % 0x1_0000_0000 == m % 0x1_0000_0000
  {}

  // ---------------------------------------------------------------- the table

  /** A connection is named by the number of the open that made it. */
  datatype Table = Table(next: i32, opens: nat, entries: map<i32, nat>)

  const FRESH := Table(1, 0, map[])

  /** The global map and counter. */
  class HandleTable {
    var next: i32
    var opens: nat
    var entries: map<i32, nat>

    function Contents(): Table
      reads this
    {
      Table(next, opens, entries)
    }

    constructor ()
      ensures Contents() == FRESH
    {
      next, opens, entries := 1, 0, map[];
    }

    /** `NEXT_HANDLE.fetch_add(1)`, for a connection just made. */
    method FetchHandle() returns (hnd: i32, conn: nat)
      modifies this`next, this`opens
      ensures hnd == old(next) && conn == old(opens)
      ensures Contents() == Fetched(old(Contents()))
    {
      hnd, conn := next, opens;
      next := Wrap(next + 1);
      opens := opens + 1;
    }

    method Insert(hnd: i32, conn: nat)
      modifies this`entries
      ensures Contents() == Inserted(old(Contents()), hnd, conn)
    {
      entries := entries[hnd := conn];
    }

    /** The lookup every operation starts with; None is an invalid handle. */
    method Lookup(hnd: i32) returns (conn: Option<nat>)
      ensures conn == Resolve(Contents(), hnd)
    {
      if hnd in entries {
        return Some(entries[hnd]);
      }
      return None;
    }

    /** `canClose`'s removal. */
    method Remove(hnd: i32) returns (conn: Option<nat>)
      modifies this`entries
      ensures conn == Resolve(old(Contents()), hnd)
      ensures Contents() == Removed(old(Contents()), hnd)
    {
      if hnd in entries {
        conn := Some(entries[hnd]);
        entries := entries - {hnd};
      } else {
        conn := None;
        assert entries - {hnd} == entries;
      }
    }
  }

  function Fetched(t: Table): Table { t.(next := Wrap(t.next + 1), opens := t.opens + 1) }
  function Inserted(t: Table, hnd: i32, conn: nat): Table { t.(entries := t.entries[hnd := conn]) }
  function Removed(t: Table, hnd: i32): Table { t.(entries := t.entries - {hnd}) }
  function Resolve(t: Table, hnd: i32): Option<nat> {
    if hnd in t.entries then Some(t.entries[hnd]) else None
  }

  // --------------------------------------------------------------------- runs

  datatype Pending = Pending(hnd: i32, conn: nat)

  /** All the state of one connection: its receive side and its flags. */
  datatype Channel = Channel(shared: Receiver.Chan, flags: Conn.Flags)

  const NEW_CHANNEL := Channel(Receiver.NEW_CHAN, Conn.UP)

  /** The table, the opens that have their handle but not yet their entry, the channels,
      and the handles returned and closed so far. */
  datatype State = State(table: Table, opening: map<Tid, Pending>, chans: map<nat, Channel>,
                         returned: seq<i32>, closed: set<i32>)

  datatype Event =
    | Connect(t: Tid)
    | Publish(t: Tid)
    | Close(hnd: i32)
    | Operate(hnd: i32, op: Channel -> Channel)   // any operation on the channel it looks up

  function Apply(s: State, e: Event): Option<State> {
    match e
    case Connect(t) =>
      if t in s.opening then None else
      Some(s.(table := Fetched(s.table), opening := s.opening[t := Pending(s.table.next, s.table.opens)],
              chans := s.chans[s.table.opens := NEW_CHANNEL]))
    case Publish(t) =>
      if t !in s.opening then None else
      var p := s.opening[t];
      Some(s.(table := Inserted(s.table, p.hnd, p.conn), opening := s.opening - {t}, returned := s.returned + [p.hnd]))
    case Close(hnd) =>
      Some(if hnd in s.table.entries then s.(table := Removed(s.table, hnd), closed := s.closed + {hnd}) else s)
    case Operate(hnd, op) =>
      match Resolve(s.table, hnd)
      case None => Some(s)
      case Some(conn) => if conn in s.chans then Some(s.(chans := s.chans[conn := op(s.chans[conn])])) else None
  }

  const START := State(FRESH, map[], map[], [], {})

  ghost predicate IsRun(states: seq<State>, events: seq<Event>) {
    && |states| == |events| + 1 && states[0] == START
    && forall i :: 0 <= i < |events| ==> Apply(states[i], events[i]) == Some(states[i + 1])
  }

  /** Handle `hnd` was given to connection `conn` by one of the opens so far. */
  predicate Issued(s: State, hnd: i32, conn: int) { hnd == conn + 1 && 0 <= conn < s.table.opens }

  predicate EntryOk(s: State, hnd: i32) {
    hnd in s.table.entries ==>
      Issued(s, hnd, s.table.entries[hnd]) && hnd in s.returned && hnd !in s.closed
  }

  predicate OpeningOk(s: State, t: Tid) {
    t in s.opening ==> Issued(s, s.opening[t].hnd, s.opening[t].conn) && s.opening[t].hnd !in s.returned
  }

  predicate ReturnedOk(s: State, hnd: i32) {
    && (hnd in s.returned ==> Issued(s, hnd, hnd - 1) && (hnd in s.table.entries || hnd in s.closed))
    && (hnd in s.closed ==> hnd in s.returned)
  }

  ghost predicate NoRepeats(hs: seq<i32>) {
    forall i, j :: 0 <= i < j < |hs| ==> hs[i] != hs[j]
  }

  ghost predicate Inv(s: State) {
    && s.table.next == Wrap(s.table.opens + 1)
    && (forall h :: EntryOk(s, h) && ReturnedOk(s, h))
    && (forall t :: OpeningOk(s, t))
    && (forall t <- s.opening, u <- s.opening :: s.opening[t].hnd == s.opening[u].hnd ==> t == u)
    && NoRepeats(s.returned)
  }

  lemma ConnectKeepsInv(s: State, t: Tid, s': State)
    requires Inv(s) && Apply(s, Connect(t)) == Some(s') && s'.table.opens < 0x8000_0000
    ensures Inv(s')
  {
    assert s.table.next == s.table.opens + 1;
    forall h
      ensures EntryOk(s', h) && ReturnedOk(s', h)
    {
      assert EntryOk(s, h) && ReturnedOk(s, h);
    }
    assert ReturnedOk(s, s.table.next);
    forall u
      ensures OpeningOk(s', u)
      ensures u in s.opening ==> s.opening[u].hnd != s.table.next
    {
      assert OpeningOk(s, u);
    }
  }

  lemma PublishKeepsInv(s: State, t: Tid, s': State)
    requires Inv(s) && Apply(s, Publish(t)) == Some(s')
    ensures Inv(s')
  {
    assert OpeningOk(s, t);
    var hnd := s.opening[t].hnd;
    assert ReturnedOk(s, hnd);
    forall h
      ensures EntryOk(s', h) && ReturnedOk(s', h)
    {
      assert EntryOk(s, h) && ReturnedOk(s, h);
    }
    forall u
      ensures OpeningOk(s', u)
    {
      assert OpeningOk(s, u);
    }
  }

  lemma CloseKeepsInv(s: State, hnd: i32, s': State)
    requires Inv(s) && Apply(s, Close(hnd)) == Some(s')
    ensures Inv(s')
  {
    forall h
      ensures EntryOk(s', h) && ReturnedOk(s', h)
    {
      assert EntryOk(s, h) && ReturnedOk(s, h) && EntryOk(s, hnd);
    }
    forall u
      ensures OpeningOk(s', u)
    {
      assert OpeningOk(s, u);
    }
  }

  lemma OperateKeepsInv(s: State, e: Event, s': State)
    requires Inv(s) && e.Operate? && Apply(s, e) == Some(s')
    ensures Inv(s')
  {
    forall h
      ensures EntryOk(s', h) && ReturnedOk(s', h)
    {
      assert EntryOk(s, h) && ReturnedOk(s, h);
    }
    forall u
      ensures OpeningOk(s', u)
    {
      assert OpeningOk(s, u);
    }
  }

  /** Bounded or not, the counter hands out `HandleOf` of the number of opens before. */
  lemma {:induction false} NextHandle(states: seq<State>, events: seq<Event>, i: nat)
    requires IsRun(states, events) && i < |states|
    ensures states[i].table.next == HandleOf(states[i].table.opens)
  {
    hide Apply, HandleOf;
    if i == 0 {
      FirstHandle();
    } else {
      NextHandle(states, events, i - 1);
      CounterStep(states[i - 1], events[i - 1], states[i]);
    }
  }

  lemma FirstHandle()
    ensures START.table.next == HandleOf(START.table.opens)
  {}

  lemma WrapNext(n: int)
    ensures Wrap(Wrap(n) + 1) == Wrap(n + 1)
  {}

  lemma CounterStep(s: State, e: Event, s': State)
    requires Apply(s, e) == Some(s') && s.table.next == HandleOf(s.table.opens)
    ensures s'.table.next == HandleOf(s'.table.opens)
  {
    WrapNext(1 + s.table.opens);
    hide Wrap;
  }

  lemma OpensGrow(s: State, e: Event, s': State)
    requires Apply(s, e) == Some(s')
    ensures s.table.opens <= s'.table.opens && s.closed <= s'.closed
  {}

  lemma {:induction false} TableInvariant(states: seq<State>, events: seq<Event>, i: nat)
    requires IsRun(states, events) && i < |states| && states[i].table.opens < 0x8000_0000
    ensures Inv(states[i])
  {
    if i > 0 {
      OpensGrow(states[i - 1], events[i - 1], states[i]);
      TableInvariant(states, events, i - 1);
      var s, e, s' := states[i - 1], events[i - 1], states[i];
      assert Apply(s, e) == Some(s');
      hide Inv, Apply;
      match e
      case Connect(t) => ConnectKeepsInv(s, t, s');
      case Publish(t) => PublishKeepsInv(s, t, s');
      case Close(hnd) => CloseKeepsInv(s, hnd, s');
      case Operate(_, _) => OperateKeepsInv(s, e, s');
    }
  }

  lemma ReturnedResolve(s: State, k: nat)
    requires Inv(s) && k < |s.returned|
    ensures s.returned[k] > 0
    ensures Resolve(s.table, s.returned[k]) == if s.returned[k] in s.closed then None else Some(s.returned[k] - 1)
  {
    var h := s.returned[k];
    assert h in s.returned && ReturnedOk(s, h) && EntryOk(s, h);
  }

  /** In every run with fewer than 2^31 opens, the handles returned are positive and
      pairwise distinct, and each resolves, until it is closed, to the connection its
      own open made. */
  lemma HandlesDistinct(states: seq<State>, events: seq<Event>, i: nat)
    requires IsRun(states, events) && i < |states| && states[i].table.opens < 0x8000_0000
    ensures var s := states[i];
      && NoRepeats(s.returned)
      && (forall k :: 0 <= k < |s.returned| ==>
           && s.returned[k] > 0
           && Resolve(s.table, s.returned[k]) == if s.returned[k] in s.closed then None else Some(s.returned[k] - 1))
  {
    TableInvariant(states, events, i);
    var s := states[i];
    forall k | 0 <= k < |s.returned|
      ensures s.returned[k] > 0
      ensures Resolve(s.table, s.returned[k]) == if s.returned[k] in s.closed then None else Some(s.returned[k] - 1)
    {
      ReturnedResolve(s, k);
    }
  }

  /** A closed handle never resolves again. */
  lemma {:induction false} ClosedStaysClosed(states: seq<State>, events: seq<Event>, i: nat, j: nat, hnd: i32)
    requires IsRun(states, events) && i <= j < |states| && states[j].table.opens < 0x8000_0000
    requires hnd in states[i].closed
    ensures hnd in states[j].closed && Resolve(states[j].table, hnd) == None
    decreases j
  {
    TableInvariant(states, events, j);
    assert EntryOk(states[j], hnd);
    if i < j {
      OpensGrow(states[j - 1], events[j - 1], states[j]);
      ClosedStaysClosed(states, events, i, j - 1, hnd);
    }
  }

  /** Isolation: an operation on one handle leaves the channel of every other open
      handle as it was. */
  lemma OperationsIsolated(states: seq<State>, events: seq<Event>, i: nat, other: i32)
    requires IsRun(states, events) && i < |events| && states[i].table.opens < 0x8000_0000
    requires events[i].Operate? && other != events[i].hnd && other in states[i].table.entries
    ensures var s, s' := states[i], states[i + 1];
      && s'.table == s.table
      && var conn := s.table.entries[other];
         (conn in s.chans <==> conn in s'.chans) && (conn in s.chans ==> s'.chans[conn] == s.chans[conn])
  {
    TableInvariant(states, events, i);
    assert EntryOk(states[i], other) && EntryOk(states[i], events[i].hnd);
    assert Apply(states[i], events[i]) == Some(states[i + 1]);
  }

  /** The operations made on `hnd` while it was open, one after another on a fresh
      channel. */
  function Alone(states: seq<State>, events: seq<Event>, i: nat, hnd: i32): Channel
    requires i <= |events| && i < |states|
  {
    if i == 0 then NEW_CHANNEL else
    var before, e := Alone(states, events, i - 1, hnd), events[i - 1];
    if e.Operate? && e.hnd == hnd && hnd in states[i - 1].table.entries then e.op(before) else before
  }

  /** The channel of a handle, from the moment it is given out. */
  predicate RunsAlone(s: State, hnd: i32, ch: Channel) {
    hnd > 0 ==>
      if hnd <= s.table.opens then hnd - 1 in s.chans && s.chans[hnd - 1] == ch else ch == NEW_CHANNEL
  }

  lemma StepAlone(s: State, e: Event, s': State, hnd: i32, ch: Channel)
    requires Inv(s) && Apply(s, e) == Some(s') && RunsAlone(s, hnd, ch)
    ensures RunsAlone(s', hnd, if e.Operate? && e.hnd == hnd && hnd in s.table.entries then e.op(ch) else ch)
  {
    assert EntryOk(s, hnd);
    if e.Operate? {
      assert EntryOk(s, e.hnd);
    }
  }

  /** Isolation over whole runs: below 2^31 opens, whatever is opened, closed and done in
      between, an open handle's ring, filter, notify record and flags are what its own
      operations alone would have made of a fresh channel. */
  lemma {:induction false} OwnHistory(states: seq<State>, events: seq<Event>, i: nat, hnd: i32)
    requires IsRun(states, events) && i < |states| && states[i].table.opens < 0x8000_0000
    ensures RunsAlone(states[i], hnd, Alone(states, events, i, hnd))
    ensures hnd in states[i].table.entries ==>
      var conn := states[i].table.entries[hnd];
      conn in states[i].chans && states[i].chans[conn] == Alone(states, events, i, hnd)
  {
    if i > 0 {
      OpensGrow(states[i - 1], events[i - 1], states[i]);
      TableInvariant(states, events, i - 1);
      OwnHistory(states, events, i - 1, hnd);
      StepAlone(states[i - 1], events[i - 1], states[i], hnd, Alone(states, events, i - 1, hnd));
    }
    TableInvariant(states, events, i);
    assert EntryOk(states[i], hnd);
  }
}
