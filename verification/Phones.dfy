/**
 * Phone sessions (src/ble_gatt.c): one slot per connected phone, with its outbound queue, its
 * replay cursor over the shared cache, its staging buffer and its deferred teardown.
 */
module Phones {
  import opened Prelude
  import opened Wire
  import opened ConfigCache

  const MAX_CONNS := 6
  const QUEUE_DEPTH := 16
  const MAX_PKT := 512
  const ID_SIZE := 4
  const TEARDOWN_MS := 250
  const ZERO_ID: Bytes := [0, 0, 0, 0]

  /** A `bt_conn` object of the stack's pool; the stack reuses one whose references are all gone. */
  type Conn = nat

  datatype PhoneState = Connected | AwaitWantConfig | Pending | Replaying | Active

  datatype Slot = Slot(
    conn: Option<Conn>,
    id: Bytes,
    fromnum: u32,
    state: PhoneState,
    leaving: bool,
    nonce: u32,
    cursor: nat,
    cc: Bytes,             // the pre-encoded config_complete_id that ends the replay
    queue: seq<Bytes>,
    staged: Bytes,         // the packet being read, for long reads
    teardownAt: Timer)

  const EMPTY_SLOT := Slot(None, ZERO_ID, 0, Connected, false, 0, 0, [], [], [], None)

  // ---------------------------------------------------------------- one slot

  /** First index at or after `i` that is in the segment, or past the last frame. */
  function Skip(fs: seq<Frame>, nonce: u32, i: nat): (k: nat)
    ensures i <= k && (i <= |fs| ==> k <= |fs|)
    ensures k < |fs| ==> InSegment(fs, k, nonce)
    ensures SegmentFrom(fs, nonce, i) == SegmentFrom(fs, nonce, k)
    decreases |fs| - i
  {
    if i < |fs| && !InSegment(fs, i, nonce) then Skip(fs, nonce, i + 1) else i
  }

  /** A read at offset 0: stage the next packet, or nothing. */
  function Stage(fs: seq<Frame>, s: Slot): Slot {
    if s.state == Replaying then
      var k := Skip(fs, s.nonce, s.cursor);
      if k < |fs| then s.(staged := fs[k].bytes, cursor := k + 1)
      else if k == |fs| then s.(staged := s.cc, cursor := k + 1)
      else s.(state := Active, staged := [], cursor := k)
    else if s.queue != [] then s.(staged := s.queue[0], queue := s.queue[1..])
    else s.(staged := [])
  }

  function Min(a: nat, b: nat): nat { if a < b then a else b }

  /** What an ATT read of `len` bytes at `offset` returns: `None` is an invalid-offset error. */
  function Chunk(value: Bytes, offset: nat, len: nat): Option<Bytes> {
    if value == [] then Some([])
    else if offset > |value| then None
    else Some(value[offset..Min(offset + len, |value|)])
  }

  datatype SlotEvent =
    | Read(offset: nat, len: nat)
    | Offer(raw: Bytes)
    | Arm(nonce: u32)
    | Park(nonce: u32)
    | Register(id: Bytes)
    | Leave(now: nat)
    | Expire               // the teardown work item became due (only through TeardownFire)

  function ReadResult(fs: seq<Frame>, s: Slot, offset: nat, len: nat): Option<Bytes> {
    Chunk((if offset == 0 then Stage(fs, s) else s).staged, offset, len)
  }

  /** Whether a packet offered to the slot enters its queue. */
  predicate Takes(s: Slot, raw: Bytes) {
    |raw| <= MAX_PKT && !s.leaving && |s.queue| < QUEUE_DEPTH
  }

  function Offered(s: Slot, raw: Bytes): Slot {
    if Takes(s, raw) then s.(queue := s.queue + [raw], fromnum := Inc32(s.fromnum)) else s
  }

  /** The nonce a replay is armed with: 0 stands for the one already stored. */
  function ArmNonce(s: Slot, nonce: u32): u32 { if nonce != 0 then nonce else s.nonce }

  function SlotStep(codec: Codec, fs: seq<Frame>, s: Slot, e: SlotEvent): Slot {
    match e
    case Read(offset, _) => if offset == 0 then Stage(fs, s) else s
    case Offer(raw) => Offered(s, raw)
    case Arm(nonce) =>
      var n := ArmNonce(s, nonce);
      var cc := Scratch(codec.configComplete(n));
      if cc.None? then s.(nonce := n)
      else s.(nonce := n, cc := cc.value, cursor := 0, state := Replaying, fromnum := Inc32(s.fromnum))
    case Park(nonce) => s.(state := Pending, nonce := nonce)
    case Register(id) => s.(id := id)
    case Leave(now) => s.(leaving := true, teardownAt := Some(now + TEARDOWN_MS))
    case Expire => s.(teardownAt := None)
  }

  /** A slot event together with the cache contents it meets. */
  datatype SlotStamp = SlotStamp(fs: seq<Frame>, event: SlotEvent)

  function SlotRun(codec: Codec, s: Slot, es: seq<SlotStamp>): Slot
    decreases |es|
  {
    if es == [] then s else SlotRun(codec, SlotStep(codec, es[0].fs, s, es[0].event), es[1..])
  }

  function Allocated(s: Slot, c: Conn): Slot {
    Slot(Some(c), ZERO_ID, 0, Connected, false, 0, 0, s.cc, [], [], s.teardownAt)
  }

  function Freed(s: Slot): Slot {
    Slot(None, ZERO_ID, 0, Connected, false, 0, 0, s.cc, [], [], None)
  }

  // ---------------------------------------------------------------- the slot table

  /** Progress of the teardown work item on the system work queue. */
  datatype Handler =
    | HandlerIdle
    | Started(slot: nat)      // dequeued, slot lock not yet taken
    | HoldingRef(conn: Conn)  // holds its own reference, about to disconnect

  /**
   * The last four fields are history of the connections' current lives: who sent
   * ToRadio{disconnect}, whose request no handler has taken up yet, whom the teardown handler has
   * disconnected, and whose last disconnect the stack refused.
   */
  datatype Table = Table(
    slots: seq<Slot>,
    active: int,              // active_conn_count
    handler: Handler,
    refs: multiset<Conn>,     // references the proxy holds on pool objects
    asked: set<Conn>,
    waiting: set<Conn>,
    dropped: set<Conn>,
    refused: set<Conn>)

  const TABLE_INIT :=
    Table([EMPTY_SLOT, EMPTY_SLOT, EMPTY_SLOT, EMPTY_SLOT, EMPTY_SLOT, EMPTY_SLOT],
          0, HandlerIdle, multiset{}, {}, {}, {}, {})

  datatype TableEvent =
    | Connect(conn: Conn)
    | Lost(conn: Conn)
    | On(conn: Conn, event: SlotEvent)
    | Broadcast(raw: Bytes)
    | Target(id: Bytes, raw: Bytes)
    | TeardownFire(slot: nat, now: nat)
    | HandlerLock
    | HandlerDisconnect(ok: bool)  // whether the link is down or going down

  function Find(slots: seq<Slot>, c: Conn): nat { First(slots, (s: Slot) => s.conn == Some(c)) }

  function FirstFree(slots: seq<Slot>): nat { First(slots, (s: Slot) => s.conn == None) }

  /** The lowest connected slot registered under `id`; the zero id matches none. */
  function FindId(slots: seq<Slot>, id: Bytes): nat {
    if id == ZERO_ID then |slots| else First(slots, (s: Slot) => s.conn.Some? && s.id == id)
  }

  /** Every connected slot is offered the packet. */
  function OfferAll(slots: seq<Slot>, raw: Bytes): seq<Slot> {
    seq(|slots|, i requires 0 <= i < |slots| => if slots[i].conn.Some? then Offered(slots[i], raw) else slots[i])
  }

  function Holder(s: Slot): set<Conn> { if s.conn.Some? then {s.conn.value} else {} }

  /** A connection object starts a new life. */
  function Forget(t: Table, c: Conn): Table {
    t.(asked := t.asked - {c}, waiting := t.waiting - {c}, dropped := t.dropped - {c}, refused := t.refused - {c})
  }

  function TableStep(codec: Codec, fs: seq<Frame>, t: Table, e: TableEvent): Table {
    match e
    case Connect(c) =>
      // The stack never hands out an object that is still referenced.
      if c in t.refs then t
      else
        var i, t' := FirstFree(t.slots), Forget(t, c);
        if i < |t.slots| then
          t'.(slots := t.slots[i := Allocated(t.slots[i], c)], active := t.active + 1,
              refs := t.refs + multiset{c})
        else t'
    case Lost(c) =>
      var i := Find(t.slots, c);
      if i < |t.slots| then
        t.(slots := t.slots[i := Freed(t.slots[i])], active := t.active - 1, refs := t.refs - multiset{c})
      else t
    case On(c, ev) =>
      var i := Find(t.slots, c);
      if i < |t.slots| && !ev.Expire? then
        t.(slots := t.slots[i := SlotStep(codec, fs, t.slots[i], ev)],
           asked := if ev.Leave? then t.asked + {c} else t.asked,
           waiting := if ev.Leave? then t.waiting + {c} else t.waiting)
      else t
    case Broadcast(raw) => t.(slots := OfferAll(t.slots, raw))
    case Target(id, raw) =>
      var i := FindId(t.slots, id);
      if i < |t.slots| then t.(slots := t.slots[i := Offered(t.slots[i], raw)])
      else t.(slots := OfferAll(t.slots, raw))
    case TeardownFire(i, now) =>
      if t.handler == HandlerIdle && i < |t.slots| && Due(t.slots[i].teardownAt, now) then
        var cs := Holder(t.slots[i]);
        t.(slots := t.slots[i := SlotStep(codec, fs, t.slots[i], Expire)], handler := Started(i),
           waiting := t.waiting - cs, refused := t.refused - cs)
      else t
    case HandlerLock =>
      if !t.handler.Started? then t
      else
        var i := t.handler.slot;
        if i < |t.slots| && t.slots[i].conn.Some? && t.slots[i].leaving then
          var c := t.slots[i].conn.value;
          t.(handler := HoldingRef(c), refs := t.refs + multiset{c})
        else t.(handler := HandlerIdle)
    case HandlerDisconnect(ok) =>
      if t.handler.HoldingRef? then
        var c := t.handler.conn;
        t.(handler := HandlerIdle, refs := t.refs - multiset{c},
           dropped := if ok then t.dropped + {c} else t.dropped,
           refused := if ok then t.refused else t.refused + {c})
      else t
  }

  function TableRun(codec: Codec, fs: seq<Frame>, t: Table, es: seq<TableEvent>): Table
    decreases |es|
  {
    if es == [] then t else TableRun(codec, fs, TableStep(codec, fs, t, es[0]), es[1..])
  }

  lemma RunOfOne(codec: Codec, fs: seq<Frame>, t: Table, e: TableEvent)
    ensures TableRun(codec, fs, t, [e]) == TableStep(codec, fs, t, e)
  {
    assert [e][1..] == [];
  }
}
