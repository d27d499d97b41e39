/** The invariant of the whole proxy, kept by every handler, and the session's share of a run. */
module Invariants {
  import opened Prelude
  import opened Wire
  import opened ConfigCache
  import opened UartRx
  import opened Phones
  import opened Upstream
  import opened Proxy
  import opened Watchdogs
  import opened Teardown

  /** What the slots' fixed-size buffers and narrow counters can hold, and the phases that occur. */
  predicate SlotFits(s: Slot) {
    && |s.staged| <= MAX_PKT && |s.cc| <= SCRATCH_SIZE
    && s.cursor <= MAX_FRAMES + 1
    && |s.id| == ID_SIZE
    && s.state != Pending && s.state != AwaitWantConfig
  }

  predicate FrameSized(raw: Bytes) { 1 <= |raw| <= MAX_PAYLOAD }

  ghost predicate SystemInv(s: System) {
    && NodeInv(s.node) && TableInv(s.table) && RxInv(s.rx)
    && (forall f :: f in s.node.cache.frames ==> FrameSized(f.bytes))
    && AllFit(s.table.slots)
    && s.node.session.pending == []
  }

  lemma InitialSystem()
    ensures SystemInv(SYSTEM_INIT)
  {
    InitialNode();
    InitialTable();
  }

  // ---------------------------------------------------------------- one component at a time

  /** Slot events that the dispatchers produce: parking is not among them. */
  predicate Plain(e: TableEvent) {
    e.On? ==> !e.event.Park? && (e.event.Register? ==> |e.event.id| == ID_SIZE)
  }

  lemma SlotStepFits(codec: Codec, fs: seq<Frame>, s: Slot, e: SlotEvent)
    requires SlotFits(s) && SlotInv(s) && !e.Park? && (e.Register? ==> |e.id| == ID_SIZE)
    requires |fs| <= MAX_FRAMES && forall f :: f in fs ==> FrameSized(f.bytes)
    ensures SlotFits(SlotStep(codec, fs, s, e))
  {
    if e.Read? && e.offset == 0 && s.state == Replaying {
      var k := Skip(fs, s.nonce, s.cursor);
      if k < |fs| { assert fs[k] in fs; }
    }
  }

  predicate AllFit(slots: seq<Slot>) { forall i :: 0 <= i < |slots| ==> SlotFits(slots[i]) }

  lemma OneSlotFits(codec: Codec, fs: seq<Frame>, slots: seq<Slot>, i: nat, e: SlotEvent)
    requires AllFit(slots) && i < |slots| && SlotInv(slots[i])
    requires !e.Park? && (e.Register? ==> |e.id| == ID_SIZE)
    requires |fs| <= MAX_FRAMES && forall f :: f in fs ==> FrameSized(f.bytes)
    ensures AllFit(slots[i := SlotStep(codec, fs, slots[i], e)])
  {
    SlotStepFits(codec, fs, slots[i], e);
  }

  lemma DeliveryFits(slots: seq<Slot>, raw: Bytes, i: nat)
    requires AllFit(slots)
    ensures AllFit(OfferAll(slots, raw))
    ensures i < |slots| ==> AllFit(slots[i := Offered(slots[i], raw)])
  {
  }

  lemma HandoverFits(slots: seq<Slot>, i: nat, c: Conn)
    requires AllFit(slots) && i < |slots|
    ensures AllFit(slots[i := Allocated(slots[i], c)]) && AllFit(slots[i := Freed(slots[i])])
  {
  }

  lemma TableStepFits(codec: Codec, fs: seq<Frame>, t: Table, e: TableEvent)
    requires Shape(t) && Plain(e) && AllFit(t.slots)
    requires |fs| <= MAX_FRAMES && forall f :: f in fs ==> FrameSized(f.bytes)
    ensures AllFit(TableStep(codec, fs, t, e).slots)
  {
    match e {
      case On(c, ev) =>
        var i := Find(t.slots, c);
        if i < |t.slots| { OneSlotFits(codec, fs, t.slots, i, ev); }
      case Connect(c) =>
        var i := FirstFree(t.slots);
        if i < |t.slots| { HandoverFits(t.slots, i, c); }
      case Lost(c) =>
        var i := Find(t.slots, c);
        if i < |t.slots| { HandoverFits(t.slots, i, c); }
      case Broadcast(raw) => DeliveryFits(t.slots, raw, |t.slots|);
      case Target(id, raw) => DeliveryFits(t.slots, raw, FindId(t.slots, id));
      case TeardownFire(i, _) =>
        if i < |t.slots| { OneSlotFits(codec, fs, t.slots, i, Expire); }
      case _ =>
    }
  }

  lemma {:induction false} TableRunKeeps(codec: Codec, fs: seq<Frame>, t: Table, es: seq<TableEvent>)
    requires TableInv(t) && AllFit(t.slots)
    requires forall e :: e in es ==> Plain(e)
    requires |fs| <= MAX_FRAMES && forall f :: f in fs ==> FrameSized(f.bytes)
    ensures var t' := TableRun(codec, fs, t, es);
      TableInv(t') && AllFit(t'.slots)
    decreases |es|
  {
    if es != [] {
      TableStepKeepsInv(codec, fs, t, es[0]);
      TableStepFits(codec, fs, t, es[0]);
      TableRunKeeps(codec, fs, TableStep(codec, fs, t, es[0]), es[1..]);
    }
  }

  lemma CachedFramesSized(codec: Codec, u: Node, now: nat, e: NodeEvent)
    requires forall f :: f in u.cache.frames ==> FrameSized(f.bytes)
    requires e.FrameIn? ==> FrameSized(e.raw)
    ensures forall f :: f in NodeStep(codec, u, now, e).cache.frames ==> FrameSized(f.bytes)
  {
  }

  lemma PendingStaysEmpty(codec: Codec, u: Node, now: nat, e: NodeEvent)
    requires u.session.pending == [] && !e.ParkRequest?
    ensures NodeStep(codec, u, now, e).session.pending == []
  {
  }

  lemma NodeStepSizes(codec: Codec, u: Node, now: nat, e: NodeEvent)
    requires NodeInv(u) && u.session.pending == [] && !e.ParkRequest?
    requires forall f :: f in u.cache.frames ==> FrameSized(f.bytes)
    requires e.FrameIn? ==> FrameSized(e.raw)
    ensures var u' := NodeStep(codec, u, now, e);
      && NodeInv(u') && u'.session.pending == []
      && (forall f :: f in u'.cache.frames ==> FrameSized(f.bytes))
  {
    NodeStepKeepsInv(codec, u, now, e);
    CachedFramesSized(codec, u, now, e);
    PendingStaysEmpty(codec, u, now, e);
  }

  // ---------------------------------------------------------------- handlers

  lemma OnFrameKeepsInv(codec: Codec, s: System, now: nat, raw: Bytes, rand: u32)
    requires SystemInv(s) && FrameSized(raw)
    ensures SystemInv(OnFrame(codec, s, now, raw, rand))
  {
    var info, fs := codec.fromRadio(raw), s.node.cache.frames;
    if info.None? {
      TableStepKeepsInv(codec, fs, s.table, Broadcast(raw));
      TableStepFits(codec, fs, s.table, Broadcast(raw));
    } else {
      NodeStepSizes(codec, s.node, now, FrameIn(raw, info.value, rand));
      TableRunKeeps(codec, fs, s.table, Deliveries(codec, s.node.session, raw, info.value));
    }
  }

  lemma {:induction false} OnFramesKeepsInv(codec: Codec, s: System, now: nat, raws: seq<Bytes>, rands: seq<u32>)
    requires SystemInv(s) && forall r :: r in raws ==> FrameSized(r)
    ensures SystemInv(OnFrames(codec, s, now, raws, rands))
    ensures OnFrames(codec, s, now, raws, rands).rx == s.rx
    decreases |raws|
  {
    if raws != [] {
      OnFrameKeepsInv(codec, s, now, raws[0], Draw(rands));
      OnFramesKeepsInv(codec, OnFrame(codec, s, now, raws[0], Draw(rands)), now, raws[1..], Rest(rands));
    }
  }

  /** A handler that is not a frame handler makes at most one session event, and never a parking one. */
  lemma NodeEventsPlain(codec: Codec, s: System, e: Event)
    ensures var es := NodeEvents(codec, s, e);
      |es| <= 1 && forall x :: x in es ==> !x.ParkRequest? && !x.FrameIn?
  {
  }

  lemma TableEventsPlain(codec: Codec, s: System, now: nat, e: Event)
    ensures forall x :: x in TableEvents(codec, s, now, e) ==> Plain(x)
  {
  }

  lemma PlainStepKeepsInv(codec: Codec, s: System, now: nat, e: Event)
    requires SystemInv(s) && !e.RxWork?
    ensures var u, t := NodeRun(codec, s.node, AllAt(now, NodeEvents(codec, s, e))),
                        TableRun(codec, s.node.cache.frames, s.table, TableEvents(codec, s, now, e));
      SystemInv(System(u, t, s.rx))
  {
    var ne := NodeEvents(codec, s, e);
    NodeEventsPlain(codec, s, e);
    if ne != [] {
      assert ne == [ne[0]] && ne[0] in ne;
      NodeRunOfOne(codec, s.node, now, ne[0]);
      NodeStepSizes(codec, s.node, now, ne[0]);
    }
    TableEventsPlain(codec, s, now, e);
    TableRunKeeps(codec, s.node.cache.frames, s.table, TableEvents(codec, s, now, e));
  }

  lemma StepKeepsInv(codec: Codec, s: System, now: nat, e: Event)
    requires SystemInv(s)
    ensures SystemInv(Step(codec, s, now, e))
  {
    if RxEvents(e).Some? { RxStepKeepsInv(s.rx, now, RxEvents(e).value); }
    if e.RxWork? {
      OnFramesKeepsInv(codec, s, now, FramesOf(s, e), e.rands);
    } else {
      PlainStepKeepsInv(codec, s, now, e);
    }
  }

  /**
   * Every reachable state of the proxy, over any interleaving of node traffic, phone traffic,
   * timers and interrupts, satisfies the invariants of all its parts; no phone is ever parked.
   */
  lemma {:induction false} EveryReachableState(codec: Codec, s: System, es: seq<Moment>)
    requires SystemInv(s)
    ensures SystemInv(SystemRun(codec, s, es))
    decreases |es|
  {
    if es != [] {
      StepKeepsInv(codec, s, es[0].now, es[0].event);
      EveryReachableState(codec, Step(codec, s, es[0].now, es[0].event), es[1..]);
    }
  }

  // ---------------------------------------------------------------- the session's share of a run

  function FrameTrace(codec: Codec, now: nat, raws: seq<Bytes>, rands: seq<u32>): seq<Stamp>
    decreases |raws|
  {
    if raws == [] then []
    else
      var info, rest := codec.fromRadio(raws[0]), FrameTrace(codec, now, raws[1..], Rest(rands));
      if info.None? then rest else [Stamp(now, FrameIn(raws[0], info.value, Draw(rands)))] + rest
  }

  lemma {:induction false} OnlyFramesInFrameTrace(codec: Codec, now: nat, raws: seq<Bytes>, rands: seq<u32>)
    ensures forall st :: st in FrameTrace(codec, now, raws, rands) ==> st.event.FrameIn?
    decreases |raws|
  {
    if raws != [] { OnlyFramesInFrameTrace(codec, now, raws[1..], Rest(rands)); }
  }

  function StepTrace(codec: Codec, s: System, now: nat, e: Event): seq<Stamp> {
    if e.RxWork? then FrameTrace(codec, now, FramesOf(s, e), e.rands) else AllAt(now, NodeEvents(codec, s, e))
  }

  /** The session events of a system run, in order. */
  function Trace(codec: Codec, s: System, es: seq<Moment>): seq<Stamp>
    decreases |es|
  {
    if es == [] then []
    else StepTrace(codec, s, es[0].now, es[0].event) + Trace(codec, Step(codec, s, es[0].now, es[0].event), es[1..])
  }

  lemma {:induction false} NodeRunConcat(codec: Codec, u: Node, a: seq<Stamp>, b: seq<Stamp>)
    ensures NodeRun(codec, u, a + b) == NodeRun(codec, NodeRun(codec, u, a), b)
    decreases |a|
  {
    if a == [] {
      assert a + b == b;
    } else {
      assert (a + b)[1..] == a[1..] + b;
      NodeRunConcat(codec, NodeStep(codec, u, a[0].now, a[0].event), a[1..], b);
    }
  }

  lemma {:induction false} FramesFollowTrace(codec: Codec, s: System, now: nat, raws: seq<Bytes>, rands: seq<u32>)
    ensures OnFrames(codec, s, now, raws, rands).node == NodeRun(codec, s.node, FrameTrace(codec, now, raws, rands))
    decreases |raws|
  {
    if raws != [] {
      FramesFollowTrace(codec, OnFrame(codec, s, now, raws[0], Draw(rands)), now, raws[1..], Rest(rands));
      var info, rest := codec.fromRadio(raws[0]), FrameTrace(codec, now, raws[1..], Rest(rands));
      if info.Some? { assert ([Stamp(now, FrameIn(raws[0], info.value, Draw(rands)))] + rest)[1..] == rest; }
    }
  }

  /**
   * The session runs on its own: in every run of the proxy it goes through exactly the run of its
   * own event trace, so all its theorems hold of the whole proxy.
   */
  lemma {:induction false} SessionFollowsTrace(codec: Codec, s: System, es: seq<Moment>)
    ensures SystemRun(codec, s, es).node == NodeRun(codec, s.node, Trace(codec, s, es))
    decreases |es|
  {
    if es != [] {
      var now, e := es[0].now, es[0].event;
      if e.RxWork? { FramesFollowTrace(codec, s, now, FramesOf(s, e), e.rands); }
      SessionFollowsTrace(codec, Step(codec, s, now, e), es[1..]);
      NodeRunConcat(codec, s.node, StepTrace(codec, s, now, e), Trace(codec, Step(codec, s, now, e), es[1..]));
    }
  }
}
