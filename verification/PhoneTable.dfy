/** src/ble_gatt.c as it runs: a fixed array of connection records, each with a 16-deep ring queue. */
module PhoneTable {
  import opened Prelude
  import opened Wire
  import opened Phones
  import opened CacheStore
  import P = ProxyProtocol
  import opened Teardown

  datatype ProxyConn = ProxyConn(
    conn: Option<Conn>,
    id: Bytes,
    fromnum: u32,
    state: PhoneState,
    leaving: bool,
    nonce: u32,
    cursor: nat,
    cc: Bytes,
    ring: seq<Bytes>,
    head: nat,
    tail: nat,
    count: nat,
    staged: Bytes,
    teardownAt: Timer)

  /** Position `i` behind `head`, around the ring. */
  function At(head: nat, i: nat): nat { if head + i < QUEUE_DEPTH then head + i else head + i - QUEUE_DEPTH }

  predicate RingOk(r: ProxyConn) {
    |r.ring| == QUEUE_DEPTH && r.head < QUEUE_DEPTH && r.count <= QUEUE_DEPTH && r.tail == At(r.head, r.count)
  }

  /** The ring's contents, oldest first. */
  function Contents(r: ProxyConn): seq<Bytes>
    requires RingOk(r)
  {
    seq(r.count, i requires 0 <= i < r.count => r.ring[At(r.head, i)])
  }

  function Abs(r: ProxyConn): Slot
    requires RingOk(r)
  {
    Slot(r.conn, r.id, r.fromnum, r.state, r.leaving, r.nonce, r.cursor, r.cc, Contents(r), r.staged, r.teardownAt)
  }

  function Pushed(r: ProxyConn, p: Bytes): ProxyConn
    requires RingOk(r)
  {
    r.(ring := r.ring[r.tail := p], tail := (r.tail + 1) % QUEUE_DEPTH, count := r.count + 1)
  }

  function Popped(r: ProxyConn): ProxyConn
    requires RingOk(r) && r.count > 0
  {
    r.(head := (r.head + 1) % QUEUE_DEPTH, count := r.count - 1)
  }

  lemma PushAppends(r: ProxyConn, p: Bytes)
    requires RingOk(r) && r.count < QUEUE_DEPTH
    ensures RingOk(Pushed(r, p)) && Contents(Pushed(r, p)) == Contents(r) + [p]
  {
    var r' := Pushed(r, p);
    forall i | 0 <= i < r.count ensures Contents(r')[i] == Contents(r)[i] {
      assert At(r.head, i) != r.tail;
    }
  }

  lemma PopRemovesFirst(r: ProxyConn)
    requires RingOk(r) && r.count > 0
    ensures RingOk(Popped(r)) && Contents(r) != [] && r.ring[r.head] == Contents(r)[0]
    ensures Contents(Popped(r)) == Contents(r)[1..]
  {
    var r' := Popped(r);
    forall i | 0 <= i < r'.count ensures Contents(r')[i] == Contents(r)[i + 1] {
      assert At(r'.head, i) == At(r.head, i + 1);
    }
  }

  predicate RecordsOk(rs: seq<ProxyConn>) {
    && |rs| == MAX_CONNS
    && (forall i :: 0 <= i < |rs| ==> RingOk(rs[i]))
    && (forall i, j :: 0 <= i < j < |rs| && rs[i].conn.Some? ==> rs[i].conn != rs[j].conn)
  }

  /** The slots that the records stand for. */
  function AbsAll(rs: seq<ProxyConn>): (slots: seq<Slot>)
    requires RecordsOk(rs)
    ensures |slots| == |rs| && Distinct(slots)
    ensures forall i :: 0 <= i < |rs| ==> slots[i] == Abs(rs[i])
  {
    seq(|rs|, i requires 0 <= i < |rs| => Abs(rs[i]))
  }

  /** How many connected slots take the packet. */
  function Takers(slots: seq<Slot>, raw: Bytes): nat {
    Count(slots, (s: Slot) => s.conn.Some? && Takes(s, raw))
  }

  lemma TakersNext(slots: seq<Slot>, raw: Bytes, i: nat)
    requires i < |slots|
    ensures Takers(slots[..i + 1], raw)
         == Takers(slots[..i], raw) + (if slots[i].conn.Some? && Takes(slots[i], raw) then 1 else 0)
  {
    CountNext(slots, (s: Slot) => s.conn.Some? && Takes(s, raw), i);
  }

  datatype Status = Queued | TooLong | NotTracked | ShuttingDown | Full

  /** What `ble_gatt_enqueue_fromradio` answers. */
  function StatusOf(slots: seq<Slot>, c: Conn, raw: Bytes): Status {
    var i := Find(slots, c);
    if |raw| > MAX_PKT then TooLong
    else if i >= |slots| then NotTracked
    else if slots[i].leaving then ShuttingDown
    else if |slots[i].queue| >= QUEUE_DEPTH then Full
    else Queued
  }

  lemma LetGo(codec: Codec, t: Table, ok: bool)
    requires t.handler.HoldingRef?
    ensures var c, t' := t.handler.conn, TableStep(codec, [], t, HandlerDisconnect(ok));
      && t'.slots == t.slots && t'.active == t.active && t'.handler == HandlerIdle && t'.refs == t.refs - multiset{c}
      && t'.asked == t.asked && t'.waiting == t.waiting
      && t'.dropped == (if ok then t.dropped + {c} else t.dropped)
      && t'.refused == (if ok then t.refused else t.refused + {c})
  {
  }

  /** The status tells what became of the packet: appended and counted, or nothing changed. */
  lemma StatusTells(codec: Codec, t: Table, c: Conn, raw: Bytes)
    ensures var i, t', st := Find(t.slots, c), TableStep(codec, [], t, On(c, Offer(raw))), StatusOf(t.slots, c, raw);
      if st == Queued then
        && i < |t.slots| == |t'.slots|
        && t'.slots[i].queue == t.slots[i].queue + [raw]
        && t'.slots[i].fromnum == (t.slots[i].fromnum + 1) % 0x1_0000_0000
        && forall j :: 0 <= j < |t.slots| && j != i ==> t'.slots[j] == t.slots[j]
      else t' == t
    ensures StatusOf(t.slots, c, raw) == Queued <==>
              |raw| <= 512 && Find(t.slots, c) < |t.slots| && !t.slots[Find(t.slots, c)].leaving
              && |t.slots[Find(t.slots, c)].queue| < 16
  {
    var i := Find(t.slots, c);
    if i < |t.slots| && StatusOf(t.slots, c, raw) != Queued { assert t.slots[i := t.slots[i]] == t.slots; }
  }

  const FREE := ProxyConn(None, ZERO_ID, 0, Connected, false, 0, 0, [],
                          seq(QUEUE_DEPTH, _ => []), 0, 0, 0, [], None)

  class Gatt {
    const codec: Codec
    const conns: array<ProxyConn>
    var active: int
    var handler: Handler
    ghost var refs: multiset<Conn>  // references held on the stack's connection objects
    ghost var asked: set<Conn>
    ghost var waiting: set<Conn>
    ghost var dropped: set<Conn>
    ghost var refused: set<Conn>

    ghost predicate Valid()
      reads conns
    {
      RecordsOk(conns[..])
    }

    ghost function Slots(): seq<Slot>
      reads conns
      requires Valid()
    {
      AbsAll(conns[..])
    }

    ghost function View(): Table
      reads this, conns
      requires Valid()
    {
      Table(Slots(), active, handler, refs, asked, waiting, dropped, refused)
    }

    constructor (codec: Codec)
      ensures Valid() && View() == TABLE_INIT && fresh(conns) && this.codec == codec
    {
      this.codec := codec;
      conns := new ProxyConn[MAX_CONNS](_ => FREE);
      active, handler := 0, HandlerIdle;
      refs, asked, waiting, dropped, refused := multiset{}, {}, {}, {}, {};
      new;
      assert Contents(FREE) == [];
      assert Slots() == TABLE_INIT.slots;
    }

    // ---------------------------------------------------------------- the table

    method FindSlot(c: Conn) returns (i: nat)
      requires Valid()
      ensures i == Find(Slots(), c) && i <= MAX_CONNS
    {
      i := 0;
      while i < MAX_CONNS
        invariant i <= MAX_CONNS
        invariant forall j :: 0 <= j < i ==> Slots()[j].conn != Some(c)
      {
        if conns[i].conn == Some(c) {
          break;
        }
        i := i + 1;
      }
      FirstUnique(Slots(), (s: Slot) => s.conn == Some(c), i);
    }

    method FindFree() returns (i: nat)
      requires Valid()
      ensures i == FirstFree(Slots()) && i <= MAX_CONNS
    {
      i := 0;
      while i < MAX_CONNS
        invariant i <= MAX_CONNS
        invariant forall j :: 0 <= j < i ==> Slots()[j].conn != None
      {
        if conns[i].conn == None {
          break;
        }
        i := i + 1;
      }
      FirstUnique(Slots(), (s: Slot) => s.conn == None, i);
    }

    /** Overwrites one record; its connection must not be another record's. */
    method Put(i: nat, r: ProxyConn)
      requires Valid() && i < conns.Length && RingOk(r)
      requires r.conn.Some? ==> forall j :: 0 <= j < conns.Length && j != i ==> conns[j].conn != r.conn
      modifies conns
      ensures Valid() && Slots() == old(Slots())[i := Abs(r)]
    {
      conns[i] := r;
      assert conns[..] == old(conns[..])[i := r];
      assert Slots() == old(Slots())[i := Abs(r)];
    }

    /** A link came up. The stack hands out connection objects that nobody references any more. */
    method OnConnected(c: Conn)
      requires Valid() && c !in refs && Find(Slots(), c) == |Slots()|
      modifies this, conns
      ensures Valid() && View() == TableStep(codec, [], old(View()), Connect(c))
    {
      asked, waiting, dropped, refused := asked - {c}, waiting - {c}, dropped - {c}, refused - {c};
      assert forall j :: 0 <= j < conns.Length ==> Slots()[j].conn != Some(c);
      var i := FindFree();
      if i == MAX_CONNS {
        assert View() == Forget(old(View()), c);
        return;
      }
      AllocSlot(i, c);
      refs := refs + multiset{c};
      active := active + 1;
    }

    /** Resets a record for a new connection, which no other record has. */
    method AllocSlot(i: nat, c: Conn)
      requires Valid() && i < conns.Length && forall j :: 0 <= j < conns.Length ==> Slots()[j].conn != Some(c)
      modifies conns
      ensures Valid() && Slots() == old(Slots())[i := Allocated(old(Slots())[i], c)]
    {
      var r := conns[i].(conn := Some(c), id := ZERO_ID, fromnum := 0, head := 0, tail := 0, count := 0,
                         staged := [], state := Connected, leaving := false, nonce := 0, cursor := 0);
      assert Abs(r) == Allocated(Slots()[i], c);
      assert forall j :: 0 <= j < conns.Length ==> Slots()[j].conn == conns[j].conn;
      Put(i, r);
    }

    /** A link went down: the slot is freed and its reference dropped. */
    method OnDisconnected(c: Conn)
      requires Valid()
      modifies this, conns
      ensures Valid() && View() == TableStep(codec, [], old(View()), Lost(c))
    {
      var i := FindSlot(c);
      if i < MAX_CONNS {
        FreeSlot(i);
        refs := refs - multiset{c};
        active := active - 1;
      }
    }

    /** Cancels the teardown and resets a record. */
    method FreeSlot(i: nat)
      requires Valid() && i < conns.Length
      modifies conns
      ensures Valid() && Slots() == old(Slots())[i := Freed(old(Slots())[i])]
    {
      var r := conns[i].(teardownAt := None, conn := None, id := ZERO_ID, fromnum := 0, head := 0, tail := 0,
                         count := 0, staged := [], state := Connected, leaving := false, nonce := 0, cursor := 0);
      assert Abs(r) == Freed(Slots()[i]);
      Put(i, r);
    }

    // ---------------------------------------------------------------- reads

    /** The replay cursor moves past frames outside the phone's segment. */
    method SkipFrames(cache: ConfigStore, nonce: u32, cursor: nat) returns (k: nat)
      requires cache.Valid()
      ensures k == Skip(cache.frames, nonce, cursor)
    {
      k := cursor;
      var n := cache.FrameCount();
      while k < n
        invariant Skip(cache.frames, nonce, k) == Skip(cache.frames, nonce, cursor)
        decreases n - k
      {
        var inside := cache.FrameInSegment(k, nonce);
        if inside {
          break;
        }
        k := k + 1;
      }
    }

    /** A fresh read during replay: the next frame of the segment, then the terminator, then nothing. */
    method StageReplay(r: ProxyConn, cache: ConfigStore) returns (r': ProxyConn)
      requires RingOk(r) && cache.Valid() && r.state == Replaying
      ensures RingOk(r') && Abs(r') == Stage(cache.frames, Abs(r)) && r'.conn == r.conn
    {
      var n := cache.FrameCount();
      var k := SkipFrames(cache, r.nonce, r.cursor);
      var staged, state := [], Replaying;
      if k < n {
        var ref := cache.FrameAt(k);
        staged := cache.FrameBytes(k, ref.value);
      } else if k == n {
        staged := r.cc;
      } else {
        state := Active;
      }
      r' := r.(staged := staged, state := state, cursor := if k <= n then k + 1 else k);
      assert Contents(r') == Contents(r);
    }

    /** A fresh read: the next replay frame or queued packet, or nothing. */
    method StageNext(r: ProxyConn, cache: ConfigStore) returns (r': ProxyConn)
      requires RingOk(r) && cache.Valid()
      ensures RingOk(r') && Abs(r') == Stage(cache.frames, Abs(r)) && r'.conn == r.conn
    {
      if r.state == Replaying {
        r' := StageReplay(r, cache);
      } else if r.count > 0 {
        PopRemovesFirst(r);
        r' := r.(staged := r.ring[r.head], head := (r.head + 1) % QUEUE_DEPTH, count := r.count - 1);
        assert Contents(r') == Contents(Popped(r));
      } else {
        r' := r.(staged := []);
        assert Contents(r') == Contents(r);
      }
    }

    /** FROMRADIO read; `None` is an ATT error. */
    method FromRadioRead(c: Conn, offset: nat, len: nat, cache: ConfigStore) returns (result: Option<Bytes>)
      requires Valid() && cache.Valid()
      modifies conns
      ensures Valid() && View() == TableStep(codec, cache.frames, old(View()), On(c, Read(offset, len)))
      ensures result == if Find(old(Slots()), c) < |old(Slots())|
                        then ReadResult(cache.frames, old(Slots())[Find(old(Slots()), c)], offset, len) else None
    {
      var i := FindSlot(c);
      if i == MAX_CONNS {
        return None;
      }
      var r := conns[i];
      if offset == 0 {
        r := StageNext(r, cache);
      }
      Put(i, r);
      if |r.staged| > 0 {
        result := Chunk(r.staged, offset, len);
      } else {
        result := Some([]);
      }
    }

    // ---------------------------------------------------------------- packets for phones

    /** Queues a packet for one phone; `rung` is the FROMNUM value notified, also when the queue is full. */
    method Enqueue(c: Conn, raw: Bytes) returns (status: Status, rung: Option<u32>)
      requires Valid()
      modifies conns
      ensures Valid() && View() == TableStep(codec, [], old(View()), On(c, Offer(raw)))
      ensures status == StatusOf(old(Slots()), c, raw)
      ensures rung.Some? <==> status == Queued || status == Full
      ensures rung.Some? ==> Find(old(Slots()), c) < |Slots()| && rung.value == Slots()[Find(old(Slots()), c)].fromnum
    {
      rung := None;
      if |raw| > MAX_PKT {
        ghost var i := Find(Slots(), c);
        assert i < |Slots()| ==> Slots() == Slots()[i := Offered(Slots()[i], raw)];
        return TooLong, rung;
      }
      var i := FindSlot(c);
      if i == MAX_CONNS {
        return NotTracked, rung;
      }
      var r := conns[i];
      if r.leaving {
        assert Slots() == Slots()[i := Offered(Slots()[i], raw)];
        return ShuttingDown, rung;
      }
      if r.count >= QUEUE_DEPTH {
        assert Slots() == Slots()[i := Offered(Slots()[i], raw)];
        return Full, Some(r.fromnum);
      }
      PushAppends(r, raw);
      r := r.(ring := r.ring[r.tail := raw], tail := (r.tail + 1) % QUEUE_DEPTH, count := r.count + 1,
              fromnum := Inc32(r.fromnum));
      assert Contents(r) == Contents(Pushed(conns[i], raw));
      Put(i, r);
      return Queued, Some(r.fromnum);
    }

    /** Offers a packet to slot `i` if it is connected; returns whether it was queued. */
    method OfferToSlot(i: nat, raw: Bytes) returns (queued: bool)
      requires Valid() && i < conns.Length
      modifies conns
      ensures Valid()
      ensures var s := old(Slots())[i];
        && Slots() == old(Slots())[i := if s.conn.Some? then Offered(s, raw) else s]
        && queued == (s.conn.Some? && Takes(s, raw))
    {
      if conns[i].conn.None? {
        return false;
      }
      var c := conns[i].conn.value;
      assert Slots()[i].conn == Some(c);
      FindIs(Slots(), c, i);
      var status, rung := Enqueue(c, raw);
      return status == Queued;
    }

    /** Queues a packet for every connected phone; returns how many took it. */
    method BroadcastPacket(raw: Bytes) returns (sent: nat)
      requires Valid()
      modifies conns
      ensures Valid() && View() == TableStep(codec, [], old(View()), Broadcast(raw))
      ensures sent == Takers(old(Slots()), raw)
    {
      sent := 0;
      ghost var was := Slots();
      ghost var goal := OfferAll(was, raw);
      for i := 0 to MAX_CONNS
        invariant Valid() && Slots() == goal[..i] + was[i..]
        invariant sent == Takers(was[..i], raw)
      {
        sent := OfferNext(i, raw, sent, was, goal);
      }
      WholeSplice(goal, was);
    }

    /** One round of the broadcast: slot `i` goes from what it was to its goal. */
    method OfferNext(i: nat, raw: Bytes, sent: nat, ghost was: seq<Slot>, ghost goal: seq<Slot>) returns (sent': nat)
      requires Valid() && i < conns.Length == |was| && goal == OfferAll(was, raw)
      requires Slots() == goal[..i] + was[i..] && sent == Takers(was[..i], raw)
      modifies conns
      ensures Valid() && Slots() == goal[..i + 1] + was[i + 1..] && sent' == Takers(was[..i + 1], raw)
    {
      TakersNext(was, raw, i);
      Spliced(goal, was, i);
      assert Slots()[i] == was[i];
      var queued := OfferToSlot(i, raw);
      sent' := if queued then sent + 1 else sent;
    }

    method GetConnByProxyId(id: Bytes) returns (c: Option<Conn>)
      requires Valid() && |id| == ID_SIZE
      ensures var i := FindId(Slots(), id);
        if i < |Slots()| then c == Slots()[i].conn && c.Some? else c.None?
    {
      var zero := P.IsZero(id);
      if zero {
        return None;
      }
      for i := 0 to MAX_CONNS
        invariant forall j :: 0 <= j < i ==> !(Slots()[j].conn.Some? && Slots()[j].id == id)
      {
        if conns[i].conn.Some? && conns[i].id == id {
          FirstUnique(Slots(), (s: Slot) => s.conn.Some? && s.id == id, i);
          return conns[i].conn;
        }
      }
      FirstUnique(Slots(), (s: Slot) => s.conn.Some? && s.id == id, MAX_CONNS);
      return None;
    }

    /** A packet for the phone registered under `id`, or for everyone if there is none. */
    method RoutePacket(id: Bytes, raw: Bytes)
      requires Valid() && |id| == ID_SIZE
      modifies conns
      ensures Valid() && View() == TableStep(codec, [], old(View()), Target(id, raw))
    {
      var c := GetConnByProxyId(id);
      if c.Some? {
        FindIs(Slots(), c.value, FindId(Slots(), id));
        var status, rung := Enqueue(c.value, raw);
      } else {
        var sent := BroadcastPacket(raw);
      }
    }

    // ---------------------------------------------------------------- per-phone session

    method RegisterProxyId(c: Conn, id: Bytes) returns (ok: bool)
      requires Valid() && |id| == ID_SIZE
      modifies conns
      ensures Valid() && View() == TableStep(codec, [], old(View()), On(c, Register(id)))
      ensures ok <==> Find(old(Slots()), c) < |old(Slots())|
    {
      var i := FindSlot(c);
      if i == MAX_CONNS {
        return false;
      }
      var r := conns[i].(id := id);
      assert Contents(r) == Contents(conns[i]);
      Put(i, r);
      return true;
    }

    /** Arms the replay of the cached burst. */
    method ReplayCachedBurst(c: Conn, nonce: u32)
      requires Valid()
      modifies conns
      ensures Valid() && View() == TableStep(codec, [], old(View()), On(c, Arm(nonce)))
    {
      var i := FindSlot(c);
      if i == MAX_CONNS {
        return;
      }
      var r := conns[i];
      if nonce != 0 {
        r := r.(nonce := nonce);
      }
      var cc := Scratch(codec.configComplete(r.nonce));
      if cc.Some? {
        r := r.(cc := cc.value, cursor := 0, state := Replaying, fromnum := Inc32(r.fromnum));
      }
      assert Contents(r) == Contents(conns[i]);
      Put(i, r);
    }

    /** Marks the phone PENDING; returns whether it is tracked. */
    method ParkPending(c: Conn, nonce: u32) returns (tracked: bool)
      requires Valid()
      modifies conns
      ensures Valid() && View() == TableStep(codec, [], old(View()), On(c, Park(nonce)))
      ensures tracked <==> Find(old(Slots()), c) < |old(Slots())|
    {
      var i := FindSlot(c);
      if i == MAX_CONNS {
        return false;
      }
      var r := conns[i].(state := Pending, nonce := nonce);
      assert Contents(r) == Contents(conns[i]);
      Put(i, r);
      return true;
    }

    // ---------------------------------------------------------------- teardown

    /** ToRadio{disconnect}: stop queueing at once, drop the link after a grace period. */
    method RequestTeardown(c: Conn, now: nat) returns (ok: bool)
      requires Valid()
      modifies this`asked, this`waiting, conns
      ensures Valid() && View() == TableStep(codec, [], old(View()), On(c, Leave(now)))
      ensures ok <==> Find(old(Slots()), c) < |old(Slots())|
    {
      var i := FindSlot(c);
      if i == MAX_CONNS {
        return false;
      }
      var r := conns[i].(leaving := true, teardownAt := Some(now + TEARDOWN_MS));
      assert Contents(r) == Contents(conns[i]);
      Put(i, r);
      asked, waiting := asked + {c}, waiting + {c};
      return true;
    }

    /** The teardown work item of slot `i` becomes due and its handler is dequeued. */
    method TeardownStarts(i: nat, now: nat)
      requires Valid() && handler == HandlerIdle && i < conns.Length && Due(conns[i].teardownAt, now)
      modifies this`handler, this`waiting, this`refused, conns
      ensures Valid() && View() == TableStep(codec, [], old(View()), TeardownFire(i, now))
    {
      var r := conns[i].(teardownAt := None);
      assert Contents(r) == Contents(conns[i]);
      ghost var cs := Holder(Slots()[i]);
      Put(i, r);
      waiting, refused := waiting - cs, refused - cs;
      handler := Started(i);
    }

    /** The handler's locked part: take a reference of its own if the slot is still leaving. */
    method TeardownTakesRef()
      requires Valid() && handler.Started? && handler.slot < conns.Length
      modifies this`handler, this`refs
      ensures Valid() && View() == TableStep(codec, [], old(View()), HandlerLock)
    {
      var r := conns[handler.slot];
      if r.conn.Some? && r.leaving {
        refs := refs + multiset{r.conn.value};
        handler := HoldingRef(r.conn.value);
      } else {
        handler := HandlerIdle;
      }
    }

    /**
     * The handler's unlocked part: disconnect, then give the reference back. `ok` is the stack's
     * answer (a link already down counts as success); a refusal is only logged.
     */
    method TeardownDisconnect(ok: bool) returns (c: Conn)
      requires Valid() && handler.HoldingRef?
      modifies this`handler, this`refs, this`dropped, this`refused
      ensures Valid() && View() == TableStep(codec, [], old(View()), HandlerDisconnect(ok))
      ensures c == old(handler).conn
    {
      c := handler.conn;
      refs := refs - multiset{c};
      handler := HandlerIdle;
      if ok {
        dropped := dropped + {c};
      } else {
        refused := refused + {c};
      }
      LetGo(codec, old(View()), ok);
    }
  }
}
