/** Invariants of the slot table over every interleaving, and what one phone sees of a table step. */
module Teardown {
  import opened Prelude
  import opened Wire
  import opened ConfigCache
  import opened Phones

  /** How many slots hold a reference to `c`, and how many slots are occupied. */
  function Owning(slots: seq<Slot>, c: Conn): nat { Count(slots, (s: Slot) => s.conn == Some(c)) }

  function Occupied(slots: seq<Slot>): nat { Count(slots, (s: Slot) => s.conn.Some?) }

  predicate SlotInv(s: Slot) {
    && (s.conn.None? ==> !s.leaving && s.id == ZERO_ID && s.queue == [] && s.teardownAt.None?)
    && |s.queue| <= QUEUE_DEPTH
    && (forall p :: p in s.queue ==> |p| <= MAX_PKT)
  }

  ghost predicate Distinct(slots: seq<Slot>) {
    forall i, j :: 0 <= i < j < |slots| && slots[i].conn.Some? ==> slots[i].conn != slots[j].conn
  }

  /** A leaving phone is on its way out: timer armed, handler at work, or link already dropped. */
  predicate OnItsWayOut(t: Table, i: nat)
    requires i < |t.slots| && t.slots[i].conn.Some?
  {
    var c := t.slots[i].conn.value;
    t.slots[i].teardownAt.Some? || t.handler == Started(i) || t.handler == HoldingRef(c) || c in t.dropped
  }

  ghost predicate Shape(t: Table) {
    && |t.slots| == MAX_CONNS
    && Distinct(t.slots)
    && forall i :: 0 <= i < |t.slots| ==> SlotInv(t.slots[i])
  }

  /** References held are the owning slots plus the handler's own; the counter counts slots. */
  ghost predicate RefInv(t: Table) {
    && t.active == Occupied(t.slots)
    && forall c: Conn :: t.refs[c] == Owning(t.slots, c) + (if t.handler == HoldingRef(c) then 1 else 0)
  }

  /** The stack refused to disconnect this phone, and it has not asked again since. */
  predicate Stranded(t: Table, c: Conn) { c in t.refused && c !in t.waiting && c !in t.dropped }

  /** An occupied slot: its timer runs exactly for a waiting request; leaving, it is on its way out unless stranded. */
  predicate SlotExit(t: Table, i: nat)
    requires i < |t.slots| && t.slots[i].conn.Some?
  {
    var s, c := t.slots[i], t.slots[i].conn.value;
    && (s.teardownAt.Some? <==> c in t.waiting)
    && (t.handler == Started(i) ==> c !in t.refused)
    && (t.handler == HoldingRef(c) ==> s.leaving)
    && (s.leaving ==> c in t.asked && (OnItsWayOut(t, i) <==> !Stranded(t, c)))
  }

  /** Only phones that asked are torn down, and none that asked is forgotten but the stranded. */
  ghost predicate ExitInv(t: Table) {
    && (forall i :: 0 <= i < |t.slots| && t.slots[i].conn.Some? ==> SlotExit(t, i))
    && (t.handler.HoldingRef? ==> t.handler.conn in t.asked && t.handler.conn !in t.refused)
    && t.dropped <= t.asked
  }

  ghost predicate TableInv(t: Table) { Shape(t) && RefInv(t) && ExitInv(t) }

  // ---------------------------------------------------------------- preservation

  lemma SlotStepKeepsInv(codec: Codec, fs: seq<Frame>, s: Slot, e: SlotEvent)
    requires SlotInv(s) && s.conn.Some?
    ensures SlotInv(SlotStep(codec, fs, s, e)) && SlotStep(codec, fs, s, e).conn == s.conn
    ensures SlotStep(codec, fs, s, e).leaving == (s.leaving || e.Leave?)
    ensures !e.Expire? && (s.teardownAt.Some? || e.Leave?) ==> SlotStep(codec, fs, s, e).teardownAt.Some?
  {
  }

  /** With references untouched, only a slot's connection matters to the counts. */
  lemma SameConnsSameRefs(t: Table, t': Table)
    requires RefInv(t) && t'.active == t.active && |t.slots| == |t'.slots|
    requires forall i :: 0 <= i < |t.slots| ==> t.slots[i].conn == t'.slots[i].conn
    requires forall c: Conn ::
               t'.refs[c] + (if t.handler == HoldingRef(c) then 1 else 0)
                 == t.refs[c] + (if t'.handler == HoldingRef(c) then 1 else 0)
    ensures RefInv(t')
  {
    CountSame(t.slots, t'.slots, (s: Slot) => s.conn.Some?);
    forall c: Conn ensures Owning(t'.slots, c) == Owning(t.slots, c) {
      CountSame(t.slots, t'.slots, (s: Slot) => s.conn == Some(c));
    }
  }

  /** Slot `i` changing hands moves both counts accordingly. */
  lemma SlotChangesHands(slots: seq<Slot>, i: nat, s: Slot)
    requires i < |slots|
    ensures Occupied(slots[i := s])
         == Occupied(slots) - (if slots[i].conn.Some? then 1 else 0) + (if s.conn.Some? then 1 else 0)
    ensures forall c: Conn ::
              Owning(slots[i := s], c) ==
                Owning(slots, c) - (if slots[i].conn == Some(c) then 1 else 0) + (if s.conn == Some(c) then 1 else 0)
  {
    CountUpdate(slots, (x: Slot) => x.conn.Some?, i, s);
    forall c: Conn ensures Owning(slots[i := s], c)
         == Owning(slots, c) - (if slots[i].conn == Some(c) then 1 else 0) + (if s.conn == Some(c) then 1 else 0)
    {
      CountUpdate(slots, (x: Slot) => x.conn == Some(c), i, s);
    }
  }

  lemma ConnectKeepsInv(codec: Codec, fs: seq<Frame>, t: Table, c: Conn)
    requires TableInv(t)
    ensures TableInv(TableStep(codec, fs, t, Connect(c)))
  {
    var i, t' := FirstFree(t.slots), TableStep(codec, fs, t, Connect(c));
    if c !in t.refs {
      CountPositive(t.slots, (s: Slot) => s.conn == Some(c));
      assert t.refs[c] == 0 && Owning(t.slots, c) == 0;
      if i < |t.slots| {
        SlotChangesHands(t.slots, i, Allocated(t.slots[i], c));
        assert RefInv(t');
      }
      LeavingStays(t, t', c);
    }
  }

  /** Phones other than a newly (dis)connected one stay as they are. */
  lemma LeavingStays(t: Table, t': Table, c: Conn)
    requires ExitInv(t) && |t.slots| == |t'.slots| && t'.handler == t.handler
    requires forall i :: 0 <= i < |t'.slots| && t'.slots[i].conn.Some? && t'.slots[i].conn != Some(c) ==>
               t'.slots[i] == t.slots[i]
    requires forall i :: 0 <= i < |t'.slots| && t'.slots[i].conn == Some(c) ==> SlotExit(t', i)
    requires t' == Forget(t, c).(slots := t'.slots, active := t'.active, refs := t'.refs)
          || t' == t.(slots := t'.slots, active := t'.active, refs := t'.refs)
    requires t.handler == HoldingRef(c) ==> c in t'.asked
    ensures ExitInv(t')
  {
    forall i | 0 <= i < |t'.slots| && t'.slots[i].conn.Some? ensures SlotExit(t', i) {
      if t'.slots[i].conn != Some(c) { assert SlotExit(t, i); }
    }
  }

  lemma LostKeepsInv(codec: Codec, fs: seq<Frame>, t: Table, c: Conn)
    requires TableInv(t)
    ensures TableInv(TableStep(codec, fs, t, Lost(c)))
  {
    var i, t' := Find(t.slots, c), TableStep(codec, fs, t, Lost(c));
    if i < |t.slots| {
      CountPositive(t.slots, (s: Slot) => s.conn == Some(c));
      SlotChangesHands(t.slots, i, Freed(t.slots[i]));
      assert RefInv(t');
      LeavingStays(t, t', c);
    }
  }

  lemma OnKeepsInv(codec: Codec, fs: seq<Frame>, t: Table, c: Conn, e: SlotEvent)
    requires TableInv(t)
    ensures TableInv(TableStep(codec, fs, t, On(c, e)))
  {
    var i, t' := Find(t.slots, c), TableStep(codec, fs, t, On(c, e));
    if i < |t.slots| && !e.Expire? {
      SlotStepKeepsInv(codec, fs, t.slots[i], e);
      SameConnsSameRefs(t, t');
      forall j | 0 <= j < |t'.slots| && t'.slots[j].conn.Some? ensures SlotExit(t', j) { assert SlotExit(t, j); }
    }
  }

  lemma DeliveryKeepsInv(codec: Codec, fs: seq<Frame>, t: Table, e: TableEvent)
    requires TableInv(t) && (e.Broadcast? || e.Target?)
    ensures TableInv(TableStep(codec, fs, t, e))
  {
    var t' := TableStep(codec, fs, t, e);
    assert forall j :: 0 <= j < |t.slots| ==>
      t'.slots[j] == t.slots[j] || (t.slots[j].conn.Some? && t'.slots[j] == Offered(t.slots[j], e.raw));
    SameConnsSameRefs(t, t');
    forall j | 0 <= j < |t'.slots| && t'.slots[j].conn.Some? ensures SlotExit(t', j) { assert SlotExit(t, j); }
  }

  lemma FireKeepsInv(codec: Codec, fs: seq<Frame>, t: Table, i: nat, now: nat)
    requires TableInv(t)
    ensures TableInv(TableStep(codec, fs, t, TeardownFire(i, now)))
  {
    var t' := TableStep(codec, fs, t, TeardownFire(i, now));
    SameConnsSameRefs(t, t');
    forall j | 0 <= j < |t'.slots| && t'.slots[j].conn.Some? ensures SlotExit(t', j) { assert SlotExit(t, j); }
  }

  lemma LockKeepsInv(codec: Codec, fs: seq<Frame>, t: Table)
    requires TableInv(t)
    ensures TableInv(TableStep(codec, fs, t, HandlerLock))
  {
    var t' := TableStep(codec, fs, t, HandlerLock);
    SameConnsSameRefs(t, t');
    forall j | 0 <= j < |t'.slots| && t'.slots[j].conn.Some? ensures SlotExit(t', j) { assert SlotExit(t, j); }
  }

  lemma DisconnectKeepsInv(codec: Codec, fs: seq<Frame>, t: Table, ok: bool)
    requires TableInv(t)
    ensures TableInv(TableStep(codec, fs, t, HandlerDisconnect(ok)))
  {
    var t' := TableStep(codec, fs, t, HandlerDisconnect(ok));
    if t.handler.HoldingRef? { assert t.refs[t.handler.conn] >= 1; }
    SameConnsSameRefs(t, t');
    forall j | 0 <= j < |t'.slots| && t'.slots[j].conn.Some? ensures SlotExit(t', j) { assert SlotExit(t, j); }
  }

  lemma TableStepKeepsInv(codec: Codec, fs: seq<Frame>, t: Table, e: TableEvent)
    requires TableInv(t)
    ensures TableInv(TableStep(codec, fs, t, e))
  {
    match e
    case Connect(c) => ConnectKeepsInv(codec, fs, t, c);
    case Lost(c) => LostKeepsInv(codec, fs, t, c);
    case On(c, ev) => OnKeepsInv(codec, fs, t, c, ev);
    case Broadcast(_) => DeliveryKeepsInv(codec, fs, t, e);
    case Target(_, _) => DeliveryKeepsInv(codec, fs, t, e);
    case TeardownFire(i, now) => FireKeepsInv(codec, fs, t, i, now);
    case HandlerLock => LockKeepsInv(codec, fs, t);
    case HandlerDisconnect(ok) => DisconnectKeepsInv(codec, fs, t, ok);
  }

  /** A table event together with the cache contents it meets. */
  datatype TableStamp = TableStamp(fs: seq<Frame>, event: TableEvent)

  function StampedRun(codec: Codec, t: Table, es: seq<TableStamp>): Table
    decreases |es|
  {
    if es == [] then t else StampedRun(codec, TableStep(codec, es[0].fs, t, es[0].event), es[1..])
  }

  /**
   * Teardown protocol, over every interleaving of connects, link losses, requests, timer fires,
   * handler steps and traffic: references held are exactly the owning slots plus the handler's
   * own, active_conn_count is the number of occupied slots, only connections that themselves
   * asked are ever dropped, and a phone that asked is on its way out unless, and only unless, its
   * last disconnect was refused by the stack and it has not asked again since.
   */
  lemma {:induction false} TeardownProtocol(codec: Codec, t: Table, es: seq<TableStamp>)
    requires TableInv(t)
    ensures TableInv(StampedRun(codec, t, es))
    decreases |es|
  {
    if es != [] {
      TableStepKeepsInv(codec, es[0].fs, t, es[0].event);
      TeardownProtocol(codec, TableStep(codec, es[0].fs, t, es[0].event), es[1..]);
    }
  }

  /**
   * The handler never touches a newcomer: what it disconnects asked for it in its current life,
   * and stays referenced (so the stack cannot have reused the object) until the call is over.
   */
  lemma HandlerDropsOnlyWhoAsked(codec: Codec, fs: seq<Frame>, t: Table)
    requires TableInv(t) && t.handler.HoldingRef?
    ensures t.handler.conn in t.asked && t.refs[t.handler.conn] >= 1
    ensures TableStep(codec, fs, t, Connect(t.handler.conn)) == t
  {
    assert t.refs[t.handler.conn] >= 1;
  }

  lemma InitialTable()
    ensures TableInv(TABLE_INIT)
  {
    var s := TABLE_INIT.slots;
    CountPositive(s, (x: Slot) => x.conn.Some?);
    forall c: Conn ensures Owning(s, c) == 0 { CountPositive(s, (x: Slot) => x.conn == Some(c)); }
  }

  // ---------------------------------------------------------------- one phone's view

  function SlotOf(t: Table, c: Conn): Option<Slot> {
    var i := Find(t.slots, c);
    if i < |t.slots| then Some(t.slots[i]) else None
  }

  /** The slot events that table event `e` means for phone `c`. */
  function EventsFor(t: Table, e: TableEvent, c: Conn): seq<SlotEvent> {
    match e
    case On(c', ev) => if c' == c && !ev.Expire? then [ev] else []
    case Broadcast(raw) => [Offer(raw)]
    case Target(id, raw) =>
      var i := FindId(t.slots, id);
      if i < |t.slots| && t.slots[i].conn != Some(c) then [] else [Offer(raw)]
    case TeardownFire(i, now) =>
      if t.handler == HandlerIdle && i < |t.slots| && t.slots[i].conn == Some(c)
         && Due(t.slots[i].teardownAt, now) then [Expire] else []
    case _ => []
  }

  lemma FindIs(slots: seq<Slot>, c: Conn, i: nat)
    requires Distinct(slots) && i < |slots| && slots[i].conn == Some(c)
    ensures Find(slots, c) == i
  {
    FirstUnique(slots, (s: Slot) => s.conn == Some(c), i);
  }

  /** If slot `i` was `c`'s and still is, it is where `c` is found. */
  lemma StillAt(codec: Codec, fs: seq<Frame>, t: Table, e: TableEvent, c: Conn)
    requires TableInv(t) && SlotOf(t, c).Some?
    requires var t' := TableStep(codec, fs, t, e);
      |t'.slots| == |t.slots| && t'.slots[Find(t.slots, c)].conn == Some(c)
    ensures var t' := TableStep(codec, fs, t, e);
      SlotOf(t', c) == Some(t'.slots[Find(t.slots, c)])
  {
    TableStepKeepsInv(codec, fs, t, e);
    FindIs(TableStep(codec, fs, t, e).slots, c, Find(t.slots, c));
  }

  /** The slot `c` owned, after the step. */
  lemma OwnSlotAfter(codec: Codec, fs: seq<Frame>, t: Table, e: TableEvent, c: Conn)
    requires TableInv(t) && SlotOf(t, c).Some? && e != Lost(c)
    ensures var i, es, t' := Find(t.slots, c), EventsFor(t, e, c), TableStep(codec, fs, t, e);
      && |t'.slots| == |t.slots|
      && t'.slots[i] == (if es == [] then t.slots[i] else SlotStep(codec, fs, t.slots[i], es[0]))
  {
    var i := Find(t.slots, c);
    match e {
      case Connect(_) =>
      case Lost(c') => assert Find(t.slots, c') < |t.slots| ==> Find(t.slots, c') != i;
      case On(c', _) => assert c' != c && Find(t.slots, c') < |t.slots| ==> Find(t.slots, c') != i;
      case Broadcast(_) =>
      case Target(id, _) =>
        var k := FindId(t.slots, id);
        if k < |t.slots| && t.slots[k].conn == Some(c) { FindIs(t.slots, c, k); }
      case TeardownFire(k, _) =>
        if k < |t.slots| && t.slots[k].conn == Some(c) { FindIs(t.slots, c, k); }
      case _ =>
    }
  }

  /** Isolation: a table step acts on a phone's slot only through the events meant for it. */
  lemma PhoneSeesOnlyItsEvents(codec: Codec, fs: seq<Frame>, t: Table, e: TableEvent, c: Conn)
    requires TableInv(t) && SlotOf(t, c).Some? && e != Lost(c)
    ensures var es, t' := EventsFor(t, e, c), TableStep(codec, fs, t, e);
      SlotOf(t', c) == Some(if es == [] then SlotOf(t, c).value
                            else SlotStep(codec, fs, SlotOf(t, c).value, es[0]))
  {
    OwnSlotAfter(codec, fs, t, e, c);
    StillAt(codec, fs, t, e, c);
  }

  // ---------------------------------------------------------------- a refused disconnect

  /** Phone `c` is connected and leaving, but nothing will drop its link. */
  ghost predicate Forgotten(t: Table, c: Conn) {
    && SlotOf(t, c).Some? && SlotOf(t, c).value.leaving
    && !OnItsWayOut(t, Find(t.slots, c))
  }

  /**
   * A refused disconnect forgets the phone unless it asked again meanwhile or its link is already
   * being dropped; an accepted one never does.
   */
  lemma RefusedDisconnectForgets(codec: Codec, fs: seq<Frame>, t: Table, ok: bool, c: Conn)
    requires TableInv(t) && t.handler == HoldingRef(c) && SlotOf(t, c).Some?
    ensures Forgotten(TableStep(codec, fs, t, HandlerDisconnect(ok)), c)
       <==> !ok && SlotOf(t, c).value.teardownAt.None? && c !in t.dropped
  {
    assert SlotExit(t, Find(t.slots, c));
    DisconnectKeepsInv(codec, fs, t, ok);
  }

  /** A phone that is forgotten asks again: it is on its way out again. */
  lemma AskingAgainHelps(codec: Codec, fs: seq<Frame>, t: Table, c: Conn, now: nat)
    requires TableInv(t) && SlotOf(t, c).Some?
    ensures var t' := TableStep(codec, fs, t, On(c, Leave(now)));
      SlotOf(t', c).Some? && SlotOf(t', c).value.leaving && !Forgotten(t', c)
  {
    PhoneSeesOnlyItsEvents(codec, fs, t, On(c, Leave(now)), c);
  }

  /** Nobody else's request, expiry or disconnect touches a stranded phone's history. */
  lemma StrandedStays(codec: Codec, fs: seq<Frame>, t: Table, e: TableEvent, c: Conn)
    requires t.refs[c] >= 1 && Distinct(t.slots) && SlotOf(t, c).Some? && SlotOf(t, c).value.teardownAt.None?
    requires Stranded(t, c) && t.handler != HoldingRef(c) && !(e.On? && e.conn == c && e.event.Leave?)
    ensures Stranded(TableStep(codec, fs, t, e), c)
  {
    if e.TeardownFire? && e.slot < |t.slots| && t.slots[e.slot].conn == Some(c) { FindIs(t.slots, c, e.slot); }
  }

  lemma LeavingSlotStep(codec: Codec, fs: seq<Frame>, s: Slot, e: SlotEvent)
    requires s.leaving
    ensures var s' := SlotStep(codec, fs, s, e); s'.leaving && |s'.queue| <= |s.queue|
  {
  }

  lemma ForgottenStep(codec: Codec, fs: seq<Frame>, t: Table, e: TableEvent, c: Conn)
    requires TableInv(t) && Forgotten(t, c) && e != Lost(c) && !(e.On? && e.conn == c && e.event.Leave?)
    ensures var t' := TableStep(codec, fs, t, e);
      Forgotten(t', c) && c !in t'.dropped && |SlotOf(t', c).value.queue| <= |SlotOf(t, c).value.queue|
  {
    var t', own := TableStep(codec, fs, t, e), EventsFor(t, e, c);
    assert SlotExit(t, Find(t.slots, c));
    assert t.refs[c] >= 1 by { CountPositive(t.slots, (s: Slot) => s.conn == Some(c)); }
    StrandedStays(codec, fs, t, e, c);
    PhoneSeesOnlyItsEvents(codec, fs, t, e, c);
    if own != [] { LeavingSlotStep(codec, fs, SlotOf(t, c).value, own[0]); }
    StrandedIsForgotten(t', c) by { TableStepKeepsInv(codec, fs, t, e); }
  }

  lemma StrandedIsForgotten(t: Table, c: Conn)
    requires TableInv(t) && SlotOf(t, c).Some? && SlotOf(t, c).value.leaving && Stranded(t, c)
    ensures Forgotten(t, c)
  {
    assert SlotExit(t, Find(t.slots, c));
  }

  /**
   * Forgotten for good: until the phone asks again or its link is lost, no handler ever drops it,
   * over every interleaving, and no packet is queued for it.
   */
  lemma {:induction false} ForgottenForGood(codec: Codec, t: Table, es: seq<TableStamp>, c: Conn)
    requires TableInv(t) && Forgotten(t, c)
    requires forall x :: x in es ==> x.event != Lost(c) && !(x.event.On? && x.event.conn == c && x.event.event.Leave?)
    ensures var t' := StampedRun(codec, t, es);
      && Forgotten(t', c) && c !in t'.dropped
      && |SlotOf(t', c).value.queue| <= |SlotOf(t, c).value.queue|
    decreases |es|
  {
    if es != [] {
      assert es[0] in es;
      TableStepKeepsInv(codec, es[0].fs, t, es[0].event);
      ForgottenStep(codec, es[0].fs, t, es[0].event, c);
      ForgottenForGood(codec, TableStep(codec, es[0].fs, t, es[0].event), es[1..], c);
    }
  }

  // ---------------------------------------------------------------- targeted delivery

  /** Some connected slot is registered under this (non-zero) id. */
  predicate Registered(slots: seq<Slot>, id: Bytes) {
    id != ZERO_ID && exists i :: 0 <= i < |slots| && slots[i].conn.Some? && slots[i].id == id
  }

  /** Every connected slot, and no other, was offered the packet. */
  ghost predicate OfferedToAll(a: seq<Slot>, b: seq<Slot>, raw: Bytes) {
    |b| == |a| && forall j :: 0 <= j < |a| ==> b[j] == if a[j].conn.Some? then Offered(a[j], raw) else a[j]
  }

  /** Slot `k`, the lowest connected one with this id, was offered the packet, and no other. */
  ghost predicate OfferedToLowest(a: seq<Slot>, b: seq<Slot>, id: Bytes, raw: Bytes, k: nat) {
    && k < |a| == |b| && a[k].conn.Some? && a[k].id == id
    && (forall j :: 0 <= j < k ==> a[j].conn.None? || a[j].id != id)
    && b[k] == Offered(a[k], raw)
    && (forall j :: 0 <= j < |a| && j != k ==> b[j] == a[j])
  }

  /**
   * Targeted delivery: the packet is offered to the lowest connected slot with the id and to no
   * other, and a leaving target drops it; with no such slot every connected slot is offered it.
   */
  lemma TargetedDelivery(codec: Codec, fs: seq<Frame>, t: Table, id: Bytes, raw: Bytes)
    ensures var a, b := t.slots, TableStep(codec, fs, t, Target(id, raw)).slots;
      if Registered(a, id) then
        exists k: nat :: OfferedToLowest(a, b, id, raw, k) && (a[k].leaving ==> b == a)
      else OfferedToAll(a, b, raw)
  {
    var k, b := FindId(t.slots, id), TableStep(codec, fs, t, Target(id, raw)).slots;
    if k < |t.slots| {
      assert t.slots[k].conn.Some? && t.slots[k].id == id;
      assert OfferedToLowest(t.slots, b, id, raw, k);
    }
  }
}
