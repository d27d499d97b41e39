/** Phones do not interfere: the burst one phone reads does not depend on what the others do. */
module Isolation {
  import opened Prelude
  import opened Wire
  import opened ConfigCache
  import opened UartRx
  import opened Phones
  import opened Upstream
  import opened Proxy
  import opened Watchdogs
  import opened Teardown
  import opened Invariants

  /** The part of a slot that decides its replay; a terminator is left over from the slot's last owner until armed. */
  datatype View = View(state: PhoneState, nonce: u32, cursor: nat, cc: Bytes)

  function Look(s: Slot): View { View(s.state, s.nonce, s.cursor, if s.state == Replaying then s.cc else []) }

  /** Slots that look alike, have the same packet staged for long reads, and the same registered id. */
  predicate SameFace(a: Slot, b: Slot) { Look(a) == Look(b) && a.staged == b.staged && a.id == b.id }

  /** Slots that look alike react alike, and serve the same replay reads. */
  lemma LooksDecide(codec: Codec, fs: seq<Frame>, a: Slot, b: Slot, e: SlotEvent)
    requires Look(a) == Look(b)
    ensures Look(SlotStep(codec, fs, a, e)) == Look(SlotStep(codec, fs, b, e))
    ensures a.state == Replaying ==> Stage(fs, a).staged == Stage(fs, b).staged
  {
  }

  // ---------------------------------------------------------------- one system step, one phone

  /** The phone an event comes from. */
  function Author(e: Event): Option<Conn> {
    match e
    case Connects(c) => Some(c)
    case Drops(c) => Some(c)
    case Reads(c, _, _) => Some(c)
    case Writes(c, _) => Some(c)
    case Registers(c, _) => Some(c)
    case _ => None
  }

  /** What a phone's own event does to its slot. */
  function OwnEvents(codec: Codec, phase: Phase, now: nat, e: Event): seq<SlotEvent> {
    match e
    case Reads(_, offset, len) => [Read(offset, len)]
    case Registers(_, data) => if |data| == ID_SIZE then [Register(data)] else []
    case Writes(_, data) =>
      var t := codec.toRadio(data);
      if t.None? then []
      else (match Dispose(phase, t.value)
        case Replay(n) => [Arm(n)]
        case Reply => if Scratch(codec.queueStatus).Some? then [Offer(Scratch(codec.queueStatus).value)] else []
        case Release => [Leave(now)]
        case _ => [])
    case _ => []
  }

  function Applied(codec: Codec, fs: seq<Frame>, s: Slot, es: seq<SlotEvent>): Slot {
    if es == [] then s else SlotStep(codec, fs, s, es[0])
  }

  /** Deliveries are offers at most, and offers do not change a slot's looks. */
  lemma DeliveryKeepsLooks(codec: Codec, fs: seq<Frame>, t: Table, e: TableEvent, c: Conn)
    requires TableInv(t) && SlotOf(t, c).Some? && (e.Broadcast? || e.Target?)
    ensures var t' := TableStep(codec, fs, t, e);
      SlotOf(t', c).Some? && SameFace(SlotOf(t', c).value, SlotOf(t, c).value)
  {
    PhoneSeesOnlyItsEvents(codec, fs, t, e, c);
  }

  /** Likewise for the deliveries of a whole frame, at most one. */
  lemma DeliveriesKeepLooks(codec: Codec, fs: seq<Frame>, t: Table, es: seq<TableEvent>, c: Conn)
    requires TableInv(t) && SlotOf(t, c).Some?
    requires es == [] || (es == [es[0]] && (es[0].Broadcast? || es[0].Target?))
    ensures var t' := TableRun(codec, fs, t, es);
      SlotOf(t', c).Some? && SameFace(SlotOf(t', c).value, SlotOf(t, c).value)
  {
    if es != [] {
      DeliveryKeepsLooks(codec, fs, t, es[0], c);
      RunOfOne(codec, fs, t, es[0]);
    }
  }

  lemma DeliveriesOfFrame(codec: Codec, s: Session, raw: Bytes, info: FromRadio)
    requires s.pending == []
    ensures var es := Deliveries(codec, s, raw, info);
      es == [] || (es == [es[0]] && (es[0].Broadcast? || es[0].Target?))
  {
  }

  lemma FrameKeepsLooks(codec: Codec, s: System, now: nat, raw: Bytes, rand: u32, c: Conn)
    requires SystemInv(s) && SlotOf(s.table, c).Some?
    ensures var t' := OnFrame(codec, s, now, raw, rand).table;
      SlotOf(t', c).Some? && SameFace(SlotOf(t', c).value, SlotOf(s.table, c).value)
  {
    var info, fs := codec.fromRadio(raw), s.node.cache.frames;
    if info.None? {
      DeliveryKeepsLooks(codec, fs, s.table, Broadcast(raw), c);
    } else {
      DeliveriesOfFrame(codec, s.node.session, raw, info.value);
      DeliveriesKeepLooks(codec, fs, s.table, Deliveries(codec, s.node.session, raw, info.value), c);
    }
  }

  lemma {:induction false} FramesKeepLooks(
    codec: Codec, s: System, now: nat, raws: seq<Bytes>, rands: seq<u32>, c: Conn)
    requires SystemInv(s) && SlotOf(s.table, c).Some? && forall r :: r in raws ==> FrameSized(r)
    ensures var t' := OnFrames(codec, s, now, raws, rands).table;
      SlotOf(t', c).Some? && SameFace(SlotOf(t', c).value, SlotOf(s.table, c).value)
    decreases |raws|
  {
    if raws != [] {
      FrameKeepsLooks(codec, s, now, raws[0], Draw(rands), c);
      OnFrameKeepsInv(codec, s, now, raws[0], Draw(rands));
      FramesKeepLooks(codec, OnFrame(codec, s, now, raws[0], Draw(rands)), now, raws[1..], Rest(rands), c);
    }
  }

  /** The table events of a phone's own step are its slot events. */
  lemma OwnTableEvents(codec: Codec, s: System, now: nat, e: Event, c: Conn)
    requires Author(e) == Some(c) && !e.Drops? && !e.Connects?
    ensures var own := OwnEvents(codec, s.node.session.phase, now, e);
      && TableEvents(codec, s, now, e) == (if own == [] then [] else [On(c, own[0])])
      && (own != [] ==> !own[0].Expire?)
  {
  }

  /** Nobody else's step, frames aside, touches more of a slot than its teardown timer. */
  lemma ForeignTableEvents(codec: Codec, s: System, now: nat, e: Event, c: Conn)
    requires Author(e) != Some(c)
    ensures var es := TableEvents(codec, s, now, e);
      es == [] || (es == [es[0]] && es[0] != Lost(c)
                   && (EventsFor(s.table, es[0], c) == [] || EventsFor(s.table, es[0], c) == [Expire]))
  {
  }

  lemma OneTableEvent(codec: Codec, s: System, x: TableEvent, c: Conn)
    requires SystemInv(s) && SlotOf(s.table, c).Some? && x != Lost(c)
    ensures SlotOf(TableRun(codec, s.node.cache.frames, s.table, [x]), c)
         == Some(Applied(codec, s.node.cache.frames, SlotOf(s.table, c).value, EventsFor(s.table, x, c)))
  {
    RunOfOne(codec, s.node.cache.frames, s.table, x);
    PhoneSeesOnlyItsEvents(codec, s.node.cache.frames, s.table, x, c);
  }

  /** A phone's own event reaches exactly its slot. */
  lemma OwnStep(codec: Codec, s: System, now: nat, e: Event, c: Conn)
    requires SystemInv(s) && SlotOf(s.table, c).Some? && Author(e) == Some(c) && !e.Drops?
    ensures SlotOf(Step(codec, s, now, e).table, c)
         == Some(Applied(codec, s.node.cache.frames, SlotOf(s.table, c).value,
                         OwnEvents(codec, s.node.session.phase, now, e)))
  {
    if e.Connects? {
      OneTableEvent(codec, s, Connect(c), c);
    } else {
      OwnTableEvents(codec, s, now, e, c);
      var own := OwnEvents(codec, s.node.session.phase, now, e);
      if own != [] { OneTableEvent(codec, s, On(c, own[0]), c); }
    }
  }

  /** The teardown timer is no part of a slot's looks. */
  lemma ForeignEventKeepsLooks(codec: Codec, s: System, x: TableEvent, c: Conn)
    requires SystemInv(s) && SlotOf(s.table, c).Some? && x != Lost(c)
    requires EventsFor(s.table, x, c) == [] || EventsFor(s.table, x, c) == [Expire]
    ensures var t' := TableRun(codec, s.node.cache.frames, s.table, [x]);
      SlotOf(t', c).Some? && SameFace(SlotOf(t', c).value, SlotOf(s.table, c).value)
  {
    OneTableEvent(codec, s, x, c);
  }

  /** Anyone else's event leaves the looks of the slot alone. */
  lemma OthersStep(codec: Codec, s: System, now: nat, e: Event, c: Conn)
    requires SystemInv(s) && SlotOf(s.table, c).Some? && Author(e) != Some(c)
    ensures var t' := Step(codec, s, now, e).table;
      SlotOf(t', c).Some? && SameFace(SlotOf(t', c).value, SlotOf(s.table, c).value)
  {
    if e.RxWork? {
      RxStepKeepsInv(s.rx, now, Work);
      FramesKeepLooks(codec, s, now, FramesOf(s, e), e.rands, c);
    } else {
      ForeignTableEvents(codec, s, now, e, c);
      var es := TableEvents(codec, s, now, e);
      if es != [] { ForeignEventKeepsLooks(codec, s, es[0], c); }
    }
  }

  /** Deliveries leave every slot's connection alone. */
  lemma DeliveryKeepsConns(codec: Codec, fs: seq<Frame>, t: Table, e: TableEvent, i: nat)
    requires i < |t.slots| && (e.Broadcast? || e.Target?)
    ensures var t' := TableStep(codec, fs, t, e); |t'.slots| == |t.slots| && t'.slots[i].conn == t.slots[i].conn
  {
  }

  /** A slot's connection changes only by being freed or by a connect. */
  lemma ConnAfter(codec: Codec, fs: seq<Frame>, t: Table, e: TableEvent, i: nat)
    requires i < |t.slots|
    ensures var t' := TableStep(codec, fs, t, e);
      && |t'.slots| == |t.slots|
      && (t'.slots[i].conn == t.slots[i].conn || t'.slots[i].conn.None? || e == Connect(t'.slots[i].conn.value))
  {
    match e {
      case Broadcast(_) => DeliveryKeepsConns(codec, fs, t, e, i);
      case Target(_, _) => DeliveryKeepsConns(codec, fs, t, e, i);
      case On(c, ev) =>
        var k := Find(t.slots, c);
        assert k < |t.slots| ==> SlotStep(codec, fs, t.slots[k], ev).conn == t.slots[k].conn;
      case _ =>
    }
  }

  /** A phone without a slot gets one only by connecting. */
  lemma TableStaysWithout(codec: Codec, fs: seq<Frame>, t: Table, e: TableEvent, c: Conn)
    requires TableInv(t) && SlotOf(t, c).None? && e != Connect(c)
    ensures SlotOf(TableStep(codec, fs, t, e), c).None?
  {
    var i := Find(TableStep(codec, fs, t, e).slots, c);
    if i < |t.slots| {
      ConnAfter(codec, fs, t, e, i);
    } else if t.slots != [] {
      ConnAfter(codec, fs, t, e, 0);
    }
  }

  lemma {:induction false} RunStaysWithout(codec: Codec, fs: seq<Frame>, t: Table, es: seq<TableEvent>, c: Conn)
    requires TableInv(t) && SlotOf(t, c).None? && Connect(c) !in es
    ensures SlotOf(TableRun(codec, fs, t, es), c).None?
    decreases |es|
  {
    if es != [] {
      TableStaysWithout(codec, fs, t, es[0], c);
      TableStepKeepsInv(codec, fs, t, es[0]);
      RunStaysWithout(codec, fs, TableStep(codec, fs, t, es[0]), es[1..], c);
    }
  }

  lemma {:induction false} FramesStayWithout(
    codec: Codec, s: System, now: nat, raws: seq<Bytes>, rands: seq<u32>, c: Conn)
    requires SystemInv(s) && SlotOf(s.table, c).None? && forall r :: r in raws ==> FrameSized(r)
    ensures SlotOf(OnFrames(codec, s, now, raws, rands).table, c).None?
    decreases |raws|
  {
    if raws != [] {
      var info, fs := codec.fromRadio(raws[0]), s.node.cache.frames;
      TableStaysWithout(codec, fs, s.table, Broadcast(raws[0]), c);
      if info.Some? {
        RunStaysWithout(codec, fs, s.table, Deliveries(codec, s.node.session, raws[0], info.value), c);
      }
      OnFrameKeepsInv(codec, s, now, raws[0], Draw(rands));
      FramesStayWithout(codec, OnFrame(codec, s, now, raws[0], Draw(rands)), now, raws[1..], Rest(rands), c);
    }
  }

  lemma StepStaysWithout(codec: Codec, s: System, now: nat, e: Event, c: Conn)
    requires SystemInv(s) && SlotOf(s.table, c).None? && e != Connects(c)
    ensures SlotOf(Step(codec, s, now, e).table, c).None?
  {
    if e.RxWork? {
      RxStepKeepsInv(s.rx, now, Work);
      FramesStayWithout(codec, s, now, FramesOf(s, e), e.rands, c);
    } else {
      RunStaysWithout(codec, s.node.cache.frames, s.table, TableEvents(codec, s, now, e), c);
    }
  }

  // ---------------------------------------------------------------- the receiver

  function RxAfter(rx: Rx, now: nat, e: Event): Rx {
    if RxEvents(e).Some? then RxStep(rx, now, RxEvents(e).value) else rx
  }

  lemma ReceiverRunsAlone(codec: Codec, s: System, now: nat, e: Event)
    requires SystemInv(s)
    ensures Step(codec, s, now, e).rx == RxAfter(s.rx, now, e)
  {
    if e.RxWork? {
      RxStepKeepsInv(s.rx, now, Work);
      OnFramesKeepsInv(codec, s, now, FramesOf(s, e), e.rands);
    }
  }

  // ---------------------------------------------------------------- the shared part of the session

  /** The part of the session that replays depend on; the nonce matters while a fetch is open. */
  datatype Shared = Shared(phase: Phase, armed: bool, cache: Cache, retryAt: Timer, nonce: u32)

  function SharedOf(u: Node): Shared {
    var s := u.session;
    Shared(s.phase, s.armed, u.cache, s.fetchRetryAt, if InFetch(s.phase) then s.nonce else 0)
  }

  /** This session event starts a recovery. */
  predicate Recovers(codec: Codec, u: Node, st: Stamp) {
    && u.session.phase == Live
    && ((st.event.LivenessFire? && Due(u.session.livenessAt, st.now))
        || (st.event.FrameIn? && st.event.info.variant == REBOOTED))
    && CanAsk(codec, u.tx, PickNonce(st.event.rand))
  }

  lemma SharedFrame(codec: Codec, u: Node, v: Node, now: nat, raw: Bytes, info: FromRadio, rand: u32)
    requires SessionInv(u.session, u.cache.ready) && SessionInv(v.session, v.cache.ready) && SharedOf(u) == SharedOf(v)
    requires var st := Stamp(now, FrameIn(raw, info, rand)); Recovers(codec, u, st) == Recovers(codec, v, st)
    ensures SharedOf(NodeStep(codec, u, now, FrameIn(raw, info, rand)))
         == SharedOf(NodeStep(codec, v, now, FrameIn(raw, info, rand)))
  {
  }

  /** Apart from starting a recovery, what a session event does to the shared part depends on that part only. */
  lemma SharedEvent(codec: Codec, u: Node, v: Node, st: Stamp)
    requires SessionInv(u.session, u.cache.ready) && SessionInv(v.session, v.cache.ready) && SharedOf(u) == SharedOf(v)
    requires Recovers(codec, u, st) == Recovers(codec, v, st)
    ensures SharedOf(NodeStep(codec, u, st.now, st.event)) == SharedOf(NodeStep(codec, v, st.now, st.event))
  {
    if st.event.FrameIn? { SharedFrame(codec, u, v, st.now, st.event.raw, st.event.info, st.event.rand); }
  }

  /** Along this run of both sessions, each event starts a recovery in both or in neither. */
  predicate RecoverTogether(codec: Codec, u: Node, v: Node, es: seq<Stamp>)
    decreases |es|
  {
    es == [] ||
    (&& Recovers(codec, u, es[0]) == Recovers(codec, v, es[0])
     && RecoverTogether(codec, NodeStep(codec, u, es[0].now, es[0].event),
                        NodeStep(codec, v, es[0].now, es[0].event), es[1..]))
  }

  lemma {:induction false} SharedRun(codec: Codec, u: Node, v: Node, es: seq<Stamp>)
    requires NodeInv(u) && NodeInv(v) && SharedOf(u) == SharedOf(v) && RecoverTogether(codec, u, v, es)
    ensures SharedOf(NodeRun(codec, u, es)) == SharedOf(NodeRun(codec, v, es))
    decreases |es|
  {
    if es != [] {
      SharedEvent(codec, u, v, es[0]);
      NodeStepKeepsInv(codec, u, es[0].now, es[0].event);
      NodeStepKeepsInv(codec, v, es[0].now, es[0].event);
      SharedRun(codec, NodeStep(codec, u, es[0].now, es[0].event), NodeStep(codec, v, es[0].now, es[0].event), es[1..]);
    }
  }

  /** What one system step does to the session is the run of its trace. */
  lemma StepFollowsTrace(codec: Codec, s: System, now: nat, e: Event)
    ensures Step(codec, s, now, e).node == NodeRun(codec, s.node, StepTrace(codec, s, now, e))
  {
    if e.RxWork? { FramesFollowTrace(codec, s, now, FramesOf(s, e), e.rands); }
  }

  // ---------------------------------------------------------------- non-interference

  predicate Foreign(e: Event, c: Conn) { Author(e).Some? && Author(e).value != c }

  /** The run with every step of every other phone erased. */
  function Erase(es: seq<Moment>, c: Conn): seq<Moment>
    decreases |es|
  {
    if es == [] then []
    else if Foreign(es[0].event, c) then Erase(es[1..], c)
    else [es[0]] + Erase(es[1..], c)
  }

  /** A fresh read by phone `c` while it is replaying. */
  predicate IsReplayRead(s: System, e: Event, c: Conn) {
    && e.Reads? && e.conn == c && e.offset == 0
    && SlotOf(s.table, c).Some? && SlotOf(s.table, c).value.state == Replaying
  }

  predicate IsFreshRead(e: Event, c: Conn) { e.Reads? && e.conn == c && e.offset == 0 }

  /** Whether the phone is in the middle of reading a packet of its replay, after a step. */
  predicate MidAfter(s: System, e: Event, c: Conn, mid: bool) {
    if IsFreshRead(e, c) then IsReplayRead(s, e, c) else mid && e != Drops(c)
  }

  /** A fresh read of the replay, or one that continues it. */
  predicate IsReplayPart(s: System, e: Event, c: Conn, mid: bool) {
    IsReplayRead(s, e, c) || (mid && e.Reads? && e.conn == c && e.offset != 0)
  }

  /**
   * What the phone's reads return while its replay lasts, long reads with all their parts. `mid`
   * tells whether it starts in the middle of one.
   */
  function ReplayReads(codec: Codec, s: System, es: seq<Moment>, c: Conn, mid: bool): seq<Option<Bytes>>
    decreases |es|
  {
    if es == [] then []
    else
      var e := es[0].event;
      var rest := ReplayReads(codec, Step(codec, s, es[0].now, e), es[1..], c, MidAfter(s, e, c, mid));
      if IsReplayPart(s, e, c, mid) then [ReadBy(s, c, e.offset, e.len)] + rest else rest
  }

  /** Two systems that phone `c` cannot tell apart by asking and reading its replay. */
  ghost predicate Alike(s: System, z: System, c: Conn) {
    && SystemInv(s) && SystemInv(z)
    && SharedOf(s.node) == SharedOf(z.node) && s.rx == z.rx
    && SlotOf(s.table, c).Some? == SlotOf(z.table, c).Some?
    && (SlotOf(s.table, c).Some? ==> Look(SlotOf(s.table, c).value) == Look(SlotOf(z.table, c).value))
  }

  /** The session part of a step is decided by the phase and the receiver. */
  lemma SameTrace(codec: Codec, s: System, z: System, now: nat, e: Event)
    requires s.node.session.phase == z.node.session.phase && s.rx == z.rx
    ensures StepTrace(codec, s, now, e) == StepTrace(codec, z, now, e)
  {
    if !e.RxWork? { assert NodeEvents(codec, s, e) == NodeEvents(codec, z, e); }
  }

  lemma DropForgets(codec: Codec, s: System, now: nat, c: Conn)
    requires SystemInv(s)
    ensures SlotOf(Step(codec, s, now, Drops(c)).table, c).None?
  {
    var t, fs := s.table, s.node.cache.frames;
    RunOfOne(codec, fs, t, Lost(c));
    var t' := TableStep(codec, fs, t, Lost(c));
    forall i | 0 <= i < |t'.slots| ensures t'.slots[i].conn != Some(c) {
      if t.slots[i].conn == Some(c) { FindIs(t.slots, c, i); }
    }
  }

  /** A connecting phone gets a slot: one is free, and no reference to its connection object is left. */
  predicate Admits(t: Table, c: Conn) { c !in t.refs && FirstFree(t.slots) < |t.slots| }

  /** The connections that own a slot. */
  function Owners(slots: seq<Slot>): set<Conn> {
    if slots == [] then {} else Holder(slots[0]) + Owners(slots[1..])
  }

  lemma {:induction false} OwnersAreSlots(slots: seq<Slot>)
    ensures forall c: Conn :: c in Owners(slots) <==> exists i :: 0 <= i < |slots| && slots[i].conn == Some(c)
  {
    if slots != [] {
      OwnersAreSlots(slots[1..]);
      assert forall i :: 1 <= i < |slots| ==> slots[i] == slots[1..][i - 1];
    }
  }

  lemma FirstOwnerIsNew(slots: seq<Slot>)
    requires Distinct(slots) && slots != []
    ensures Distinct(slots[1..]) && Holder(slots[0]) !! Owners(slots[1..])
  {
    OwnersAreSlots(slots[1..]);
    assert forall i :: 0 <= i < |slots[1..]| ==> slots[1..][i] == slots[i + 1];
  }

  lemma {:induction false} OneOwnerPerSlot(slots: seq<Slot>)
    requires Distinct(slots)
    ensures |Owners(slots)| == Occupied(slots)
  {
    if slots != [] {
      FirstOwnerIsNew(slots);
      OneOwnerPerSlot(slots[1..]);
    }
  }

  lemma OwnersAreReferenced(t: Table)
    requires TableInv(t)
    ensures forall c: Conn :: c in Owners(t.slots) ==> c in t.refs
  {
    OwnersAreSlots(t.slots);
    forall c: Conn | c in Owners(t.slots) ensures c in t.refs {
      CountPositive(t.slots, (s: Slot) => s.conn == Some(c));
    }
  }

  lemma AtMostFiveOthers(owners: set<Conn>, c: Conn)
    requires c !in owners && c < MAX_CONNS && forall x :: x in owners ==> x < MAX_CONNS
    ensures |owners| < MAX_CONNS
  {
    SubsetCardinality(owners + {c}, {0, 1, 2, 3, 4, 5});
  }

  /**
   * The stack's pool has as many connection objects as there are slots, so a connection object
   * that nothing references finds a slot: the rejection of newcomers is dead code.
   */
  lemma PoolOfSixAdmits(t: Table, c: Conn)
    requires TableInv(t) && c !in t.refs && c < MAX_CONNS && forall x: Conn :: x in t.refs ==> x < MAX_CONNS
    ensures Admits(t, c)
  {
    OwnersAreReferenced(t);
    AtMostFiveOthers(Owners(t.slots), c);
    OneOwnerPerSlot(t.slots);
    AllOrFree(t.slots);
  }

  lemma {:induction false} AllOrFree(slots: seq<Slot>)
    ensures FirstFree(slots) < |slots| || Occupied(slots) == |slots|
  {
    if slots != [] { AllOrFree(slots[1..]); }
  }

  /** What a connect means for the phone itself; one that has a slot keeps it as it is. */
  lemma OwnConnect(codec: Codec, s: System, now: nat, c: Conn)
    requires SystemInv(s)
    ensures var a, b := SlotOf(s.table, c), SlotOf(Step(codec, s, now, Connects(c)).table, c);
      if a.Some? then b == a
      else if Admits(s.table, c) then b.Some? && Look(b.value) == View(Connected, 0, 0, []) && b.value.staged == []
           && b.value.id == [0, 0, 0, 0]
      else b.None?
  {
    var fs, t, i := s.node.cache.frames, s.table, FirstFree(s.table.slots);
    var t' := TableStep(codec, fs, t, Connect(c));
    RunOfOne(codec, fs, t, Connect(c));
    if SlotOf(t, c).Some? {
      OneTableEvent(codec, s, Connect(c), c);
    } else if Admits(t, c) {
      TableStepKeepsInv(codec, fs, t, Connect(c));
      FindIs(t'.slots, c, i);
    }
  }

  /** If this is `c` connecting, without a slot so far, both systems have one for it or neither has. */
  predicate SameAdmission(s: System, z: System, e: Event, c: Conn) {
    e == Connects(c) && SlotOf(s.table, c).None? ==> Admits(s.table, c) == Admits(z.table, c)
  }

  lemma SlotAlike(codec: Codec, s: System, z: System, now: nat, e: Event, c: Conn)
    requires Alike(s, z, c) && SameAdmission(s, z, e, c)
    ensures var a, b := SlotOf(Step(codec, s, now, e).table, c), SlotOf(Step(codec, z, now, e).table, c);
      a.Some? == b.Some? && (a.Some? ==> Look(a.value) == Look(b.value))
  {
    if e == Connects(c) {
      OwnConnect(codec, s, now, c);
      OwnConnect(codec, z, now, c);
    } else if SlotOf(s.table, c).None? {
      StepStaysWithout(codec, s, now, e, c);
      StepStaysWithout(codec, z, now, e, c);
    } else if e == Drops(c) {
      DropForgets(codec, s, now, c);
      DropForgets(codec, z, now, c);
    } else if Author(e) == Some(c) {
      OwnStep(codec, s, now, e, c);
      OwnStep(codec, z, now, e, c);
      var own := OwnEvents(codec, s.node.session.phase, now, e);
      if own != [] {
        LooksDecide(codec, s.node.cache.frames, SlotOf(s.table, c).value, SlotOf(z.table, c).value, own[0]);
      }
    } else {
      OthersStep(codec, s, now, e, c);
      OthersStep(codec, z, now, e, c);
    }
  }

  /** One step, taken by both systems. */
  lemma BothStep(codec: Codec, s: System, z: System, now: nat, e: Event, c: Conn)
    requires Alike(s, z, c) && SameAdmission(s, z, e, c)
    requires RecoverTogether(codec, s.node, z.node, StepTrace(codec, s, now, e))
    ensures Alike(Step(codec, s, now, e), Step(codec, z, now, e), c)
  {
    StepKeepsInv(codec, s, now, e);
    StepKeepsInv(codec, z, now, e);
    ReceiverRunsAlone(codec, s, now, e);
    ReceiverRunsAlone(codec, z, now, e);
    SlotAlike(codec, s, z, now, e, c);
    SameTrace(codec, s, z, now, e);
    StepFollowsTrace(codec, s, now, e);
    StepFollowsTrace(codec, z, now, e);
    SharedRun(codec, s.node, z.node, StepTrace(codec, s, now, e));
  }

  /** A phone's step forwards a packet to the node or leaves the session alone. */
  lemma PhoneStepTrace(codec: Codec, s: System, now: nat, e: Event)
    requires Author(e).Some?
    ensures var t := StepTrace(codec, s, now, e);
      t == [] || (t == [t[0]] && t[0].event.Forward? && e.Writes? && !Local(codec, e))
  {
    assert NodeEvents(codec, s, e) == [] || (NodeEvents(codec, s, e) == [NodeEvents(codec, s, e)[0]]);
  }

  lemma PhoneStepKeepsShared(codec: Codec, s: System, now: nat, e: Event)
    requires Author(e).Some?
    ensures SharedOf(Step(codec, s, now, e).node) == SharedOf(s.node)
  {
    PhoneStepTrace(codec, s, now, e);
    StepFollowsTrace(codec, s, now, e);
  }

  /** A step of another phone, taken by one system only, is invisible. */
  lemma ErasedStep(codec: Codec, s: System, z: System, now: nat, e: Event, c: Conn)
    requires Alike(s, z, c) && Foreign(e, c)
    ensures Alike(Step(codec, s, now, e), z, c)
  {
    StepKeepsInv(codec, s, now, e);
    ReceiverRunsAlone(codec, s, now, e);
    PhoneStepKeepsShared(codec, s, now, e);
    if SlotOf(s.table, c).Some? { OthersStep(codec, s, now, e, c); } else { StepStaysWithout(codec, s, now, e, c); }
  }

  /** The phone has the same packet staged in both. */
  predicate SameStaged(s: System, z: System, c: Conn) {
    var a, b := SlotOf(s.table, c), SlotOf(z.table, c);
    a.Some? && b.Some? ==> a.value.staged == b.value.staged
  }

  /** A phone's own event stages a packet only if it is a fresh read. */
  lemma OwnEventsKeepStaged(codec: Codec, fs: seq<Frame>, a: Slot, phase: Phase, now: nat, e: Event, c: Conn)
    requires Author(e) == Some(c) && !e.Drops?
    ensures Applied(codec, fs, a, OwnEvents(codec, phase, now, e)).staged
         == if IsFreshRead(e, c) then Stage(fs, a).staged else a.staged
  {
  }

  /** What is staged after a step of a phone that keeps its link. */
  lemma StagedAfter(codec: Codec, s: System, now: nat, e: Event, c: Conn)
    requires SystemInv(s) && SlotOf(s.table, c).Some? && e != Drops(c)
    ensures var fs, a, b := s.node.cache.frames, SlotOf(s.table, c).value, SlotOf(Step(codec, s, now, e).table, c);
      b.Some? && b.value.staged == if IsFreshRead(e, c) then Stage(fs, a).staged else a.staged
  {
    if Author(e) == Some(c) {
      OwnStep(codec, s, now, e, c);
      OwnEventsKeepStaged(codec, s.node.cache.frames, SlotOf(s.table, c).value, s.node.session.phase, now, e, c);
    } else {
      OthersStep(codec, s, now, e, c);
    }
  }

  /** In the middle of a replay packet, both systems have it staged. */
  lemma BothStaged(codec: Codec, s: System, z: System, now: nat, e: Event, c: Conn, mid: bool)
    requires Alike(s, z, c) && SameAdmission(s, z, e, c) && (mid ==> SameStaged(s, z, c))
    ensures MidAfter(s, e, c, mid) ==> SameStaged(Step(codec, s, now, e), Step(codec, z, now, e), c)
  {
    if MidAfter(s, e, c, mid) {
      if SlotOf(s.table, c).Some? {
        StagedAfter(codec, s, now, e, c);
        StagedAfter(codec, z, now, e, c);
        LooksDecide(codec, s.node.cache.frames, SlotOf(s.table, c).value, SlotOf(z.table, c).value, Expire);
      } else if e == Connects(c) {
        OwnConnect(codec, s, now, c);
        OwnConnect(codec, z, now, c);
      } else {
        StepStaysWithout(codec, s, now, e, c);
      }
    }
  }

  lemma ErasedStaged(codec: Codec, s: System, now: nat, e: Event, c: Conn, z: System)
    requires SystemInv(s) && Foreign(e, c) && SameStaged(s, z, c)
    ensures SameStaged(Step(codec, s, now, e), z, c)
  {
    if SlotOf(s.table, c).Some? { OthersStep(codec, s, now, e, c); } else { StepStaysWithout(codec, s, now, e, c); }
  }

  /** Whether this step is a read of the phone's replay, and what it returns, is the same in both. */
  lemma SameRead(codec: Codec, s: System, z: System, e: Event, c: Conn, mid: bool)
    requires Alike(s, z, c) && (mid ==> SameStaged(s, z, c))
    ensures IsReplayRead(s, e, c) == IsReplayRead(z, e, c)
    ensures IsReplayPart(s, e, c, mid) ==> ReadBy(s, c, e.offset, e.len) == ReadBy(z, c, e.offset, e.len)
  {
    if SlotOf(s.table, c).Some? {
      LooksDecide(codec, s.node.cache.frames, SlotOf(s.table, c).value, SlotOf(z.table, c).value, Expire);
    }
  }

  /**
   * The run from `s` and the run from `z` with the other phones' steps erased: every remaining
   * session event starts a recovery in both or in neither.
   */
  predicate SameRecoveries(codec: Codec, s: System, z: System, es: seq<Moment>, c: Conn)
    decreases |es|
  {
    es == [] ||
    var now, e := es[0].now, es[0].event;
    if Foreign(e, c) then SameRecoveries(codec, Step(codec, s, now, e), z, es[1..], c)
    else
      && RecoverTogether(codec, s.node, z.node, StepTrace(codec, s, now, e))
      && SameRecoveries(codec, Step(codec, s, now, e), Step(codec, z, now, e), es[1..], c)
  }

  /** Likewise: every time `c` connects, it is given a slot in both or in neither. */
  predicate SameAdmissions(codec: Codec, s: System, z: System, es: seq<Moment>, c: Conn)
    decreases |es|
  {
    es == [] ||
    var now, e := es[0].now, es[0].event;
    if Foreign(e, c) then SameAdmissions(codec, Step(codec, s, now, e), z, es[1..], c)
    else
      && SameAdmission(s, z, e, c)
      && SameAdmissions(codec, Step(codec, s, now, e), Step(codec, z, now, e), es[1..], c)
  }

  /** A phone that does not connect during the run is in any case not refused a slot. */
  lemma {:induction false} NoConnectNoAdmission(codec: Codec, s: System, z: System, es: seq<Moment>, c: Conn)
    requires forall m :: m in es ==> m.event != Connects(c)
    ensures SameAdmissions(codec, s, z, es, c)
    decreases |es|
  {
    if es != [] {
      var now, e := es[0].now, es[0].event;
      assert es[0] in es;
      if Foreign(e, c) {
        NoConnectNoAdmission(codec, Step(codec, s, now, e), z, es[1..], c);
      } else {
        NoConnectNoAdmission(codec, Step(codec, s, now, e), Step(codec, z, now, e), es[1..], c);
      }
    }
  }

  /** A step taken by both systems adds the same to the replay reads. */
  lemma CommonRead(codec: Codec, s: System, z: System, es: seq<Moment>, c: Conn, mid: bool, s': System, z': System)
    requires Alike(s, z, c) && (mid ==> SameStaged(s, z, c)) && es != [] && !Foreign(es[0].event, c)
    requires s' == Step(codec, s, es[0].now, es[0].event) && z' == Step(codec, z, es[0].now, es[0].event)
    requires var mid' := MidAfter(s, es[0].event, c, mid);
      ReplayReads(codec, s', es[1..], c, mid') == ReplayReads(codec, z', Erase(es[1..], c), c, mid')
    ensures ReplayReads(codec, s, es, c, mid) == ReplayReads(codec, z, Erase(es, c), c, mid)
  {
    assert ([es[0]] + Erase(es[1..], c))[1..] == Erase(es[1..], c);
    SameRead(codec, s, z, es[0].event, c, mid);
  }

  lemma {:induction false} ErasureIsInvisible(
    codec: Codec, s: System, z: System, es: seq<Moment>, c: Conn, mid: bool)
    requires Alike(s, z, c) && SameRecoveries(codec, s, z, es, c) && SameAdmissions(codec, s, z, es, c)
    requires mid ==> SameStaged(s, z, c)
    ensures ReplayReads(codec, s, es, c, mid) == ReplayReads(codec, z, Erase(es, c), c, mid)
    decreases |es|
  {
    if es != [] {
      var now, e, rest := es[0].now, es[0].event, es[1..];
      if Foreign(e, c) {
        ErasedStep(codec, s, z, now, e, c);
        if mid { ErasedStaged(codec, s, now, e, c, z); }
        ErasureIsInvisible(codec, Step(codec, s, now, e), z, rest, c, mid);
      } else {
        var mid' := MidAfter(s, e, c, mid);
        BothStep(codec, s, z, now, e, c);
        BothStaged(codec, s, z, now, e, c, mid);
        ErasureIsInvisible(codec, Step(codec, s, now, e), Step(codec, z, now, e), rest, c, mid');
        CommonRead(codec, s, z, es, c, mid, Step(codec, s, now, e), Step(codec, z, now, e));
      }
    }
  }

  /**
   * What other phones can do to a replay at most: from any reachable state, published cache or
   * not, the replay reads of a phone are those of the run with all other phones' steps erased,
   * packets they send to the node included, as long as these packets do not change whether a
   * recovery can be started, and the others do not take the slot it connects for.
   */
  lemma OnlyRecoveriesAndSlotsInterfere(codec: Codec, s: System, es: seq<Moment>, c: Conn, mid: bool)
    requires SystemInv(s) && SameRecoveries(codec, s, s, es, c) && SameAdmissions(codec, s, s, es, c)
    ensures ReplayReads(codec, s, es, c, mid) == ReplayReads(codec, s, Erase(es, c), c, mid)
  {
    ErasureIsInvisible(codec, s, s, es, c, mid);
  }

  // ---------------------------------------------------------------- phones that do not forward

  /** A write that the proxy answers itself: want_config, heartbeat or disconnect. */
  predicate Local(codec: Codec, e: Event) {
    e.Writes? ==> codec.toRadio(e.data).Some? && codec.toRadio(e.data).value != Other
  }

  lemma {:induction false} OneSessionAgrees(codec: Codec, u: Node, es: seq<Stamp>)
    ensures RecoverTogether(codec, u, u, es)
    decreases |es|
  {
    if es != [] { OneSessionAgrees(codec, NodeStep(codec, u, es[0].now, es[0].event), es[1..]); }
  }

  lemma {:induction false} LocalPhonesAgree(codec: Codec, s: System, z: System, es: seq<Moment>, c: Conn)
    requires SystemInv(s) && SystemInv(z) && s.node == z.node && s.rx == z.rx
    requires forall m :: m in es && Foreign(m.event, c) ==> Local(codec, m.event)
    ensures SameRecoveries(codec, s, z, es, c)
    decreases |es|
  {
    if es != [] {
      var now, e := es[0].now, es[0].event;
      assert es[0] in es;
      StepKeepsInv(codec, s, now, e);
      ReceiverRunsAlone(codec, s, now, e);
      StepFollowsTrace(codec, s, now, e);
      if Foreign(e, c) {
        PhoneStepTrace(codec, s, now, e);
        LocalPhonesAgree(codec, Step(codec, s, now, e), z, es[1..], c);
      } else {
        StepKeepsInv(codec, z, now, e);
        ReceiverRunsAlone(codec, z, now, e);
        StepFollowsTrace(codec, z, now, e);
        SameTrace(codec, s, z, now, e);
        OneSessionAgrees(codec, s.node, StepTrace(codec, s, now, e));
        LocalPhonesAgree(codec, Step(codec, s, now, e), Step(codec, z, now, e), es[1..], c);
      }
    }
  }

  /**
   * Phones do not interfere: from any reachable state and in any run, through retries, recoveries,
   * reboots and stray terminators, however the other phones connect, read, ask for the config,
   * send heartbeats, register, leave and drop, the replay reads of a phone are those of the run
   * with all their steps erased, its own connects and reconnects included, provided that the
   * others leave it a slot whenever it would have one without them.
   */
  lemma PhonesDoNotInterfere(codec: Codec, s: System, es: seq<Moment>, c: Conn, mid: bool)
    requires SystemInv(s) && SameAdmissions(codec, s, s, es, c)
    requires forall m :: m in es && Foreign(m.event, c) ==> Local(codec, m.event)
    ensures ReplayReads(codec, s, es, c, mid) == ReplayReads(codec, s, Erase(es, c), c, mid)
  {
    LocalPhonesAgree(codec, s, s, es, c);
    OnlyRecoveriesAndSlotsInterfere(codec, s, es, c, mid);
  }

  /** In particular for a phone that stays connected, or without a slot, throughout the run. */
  lemma ConnectedPhoneIsUndisturbed(codec: Codec, s: System, es: seq<Moment>, c: Conn, mid: bool)
    requires SystemInv(s) && forall m :: m in es ==> m.event != Connects(c)
    requires forall m :: m in es && Foreign(m.event, c) ==> Local(codec, m.event)
    ensures ReplayReads(codec, s, es, c, mid) == ReplayReads(codec, s, Erase(es, c), c, mid)
  {
    NoConnectNoAdmission(codec, s, s, es, c);
    PhonesDoNotInterfere(codec, s, es, c, mid);
  }

  // ---------------------------------------------------------------- calm runs

  predicate RebootFree(codec: Codec, raws: seq<Bytes>) {
    forall r :: r in raws && codec.fromRadio(r).Some? ==> codec.fromRadio(r).value.variant != REBOOTED
  }

  /** Nothing in this step starts a recovery. */
  predicate Calm(codec: Codec, rx: Rx, e: Event) {
    !e.LivenessDue? && (e.RxWork? ==> RebootFree(codec, RxFrames(rx, Work)))
  }

  predicate CalmRun(codec: Codec, rx: Rx, es: seq<Moment>)
    decreases |es|
  {
    es == [] ||
    (Calm(codec, rx, es[0].event) && CalmRun(codec, RxAfter(rx, es[0].now, es[0].event), es[1..]))
  }

  predicate CalmEvent(e: NodeEvent) { !e.LivenessFire? && (e.FrameIn? ==> e.info.variant != REBOOTED) }

  lemma {:induction false} CalmTrace(codec: Codec, now: nat, raws: seq<Bytes>, rands: seq<u32>)
    requires RebootFree(codec, raws)
    ensures forall st :: st in FrameTrace(codec, now, raws, rands) ==> CalmEvent(st.event)
    decreases |raws|
  {
    if raws != [] {
      assert raws[0] in raws;
      CalmTrace(codec, now, raws[1..], Rest(rands));
    }
  }

  lemma {:induction false} CalmSessionsAgree(codec: Codec, u: Node, v: Node, es: seq<Stamp>)
    requires forall st :: st in es ==> CalmEvent(st.event)
    ensures RecoverTogether(codec, u, v, es)
    decreases |es|
  {
    if es != [] {
      assert es[0] in es;
      CalmSessionsAgree(codec, NodeStep(codec, u, es[0].now, es[0].event),
                        NodeStep(codec, v, es[0].now, es[0].event), es[1..]);
    }
  }

  lemma CalmStepTrace(codec: Codec, s: System, now: nat, e: Event)
    requires Calm(codec, s.rx, e)
    ensures forall st :: st in StepTrace(codec, s, now, e) ==> CalmEvent(st.event)
  {
    if e.RxWork? { CalmTrace(codec, now, FramesOf(s, e), e.rands); }
  }

  lemma {:induction false} CalmPhonesAgree(codec: Codec, s: System, z: System, es: seq<Moment>, c: Conn)
    requires SystemInv(s) && SystemInv(z) && CalmRun(codec, s.rx, es)
    ensures SameRecoveries(codec, s, z, es, c)
    decreases |es|
  {
    if es != [] {
      var now, e := es[0].now, es[0].event;
      StepKeepsInv(codec, s, now, e);
      ReceiverRunsAlone(codec, s, now, e);
      if Foreign(e, c) {
        CalmPhonesAgree(codec, Step(codec, s, now, e), z, es[1..], c);
      } else {
        StepKeepsInv(codec, z, now, e);
        CalmStepTrace(codec, s, now, e);
        CalmSessionsAgree(codec, s.node, z.node, StepTrace(codec, s, now, e));
        CalmPhonesAgree(codec, Step(codec, s, now, e), Step(codec, z, now, e), es[1..], c);
      }
    }
  }

  /** In a run without expiries and reboot notices, packets forwarded for other phones do not interfere either. */
  lemma PacketsDoNotInterfere(codec: Codec, s: System, es: seq<Moment>, c: Conn, mid: bool)
    requires SystemInv(s) && CalmRun(codec, s.rx, es) && SameAdmissions(codec, s, s, es, c)
    ensures ReplayReads(codec, s, es, c, mid) == ReplayReads(codec, s, Erase(es, c), c, mid)
  {
    CalmPhonesAgree(codec, s, s, es, c);
    OnlyRecoveriesAndSlotsInterfere(codec, s, es, c, mid);
  }
}
