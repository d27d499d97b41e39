/** The virtualization boundary: what of the phones' traffic reaches the node, over whole runs. */
module Boundary {
  import opened Prelude
  import opened Wire
  import opened UartRx
  import opened UartTx
  import opened Phones
  import opened Upstream
  import opened Proxy
  import opened Watchdogs
  import opened Teardown
  import opened Invariants

  // ---------------------------------------------------------------- want_config

  /** Outside LIVE a want_config leaves no trace at all. */
  lemma WantConfigAbsorbed(codec: Codec, s: System, now: nat, c: Conn, data: Bytes)
    requires codec.toRadio(data).Some? && codec.toRadio(data).value.WantConfig?
    requires s.node.session.phase != Live && s.node.session.phase != CacheReady
    ensures Step(codec, s, now, Writes(c, data)) == s
  {
  }

  /**
   * A phone's want_config is answered exactly while the session is LIVE. In every other reachable
   * phase it is absorbed without a trace: not served during a recovery although the cache is
   * published, and not parked during the boot fetch.
   */
  lemma WantConfigServedIffLive(codec: Codec, s: System, now: nat, c: Conn, data: Bytes, n: u32)
    requires SystemInv(s) && codec.toRadio(data) == Some(WantConfig(n)) && SlotOf(s.table, c).Some?
    requires Scratch(codec.configComplete(ArmNonce(SlotOf(s.table, c).value, n))).Some?
    ensures var s', slot := Step(codec, s, now, Writes(c, data)), SlotOf(s.table, c).value;
      if s.node.session.phase == Live
      then s'.node == s.node && SlotOf(s'.table, c) == Some(SlotStep(codec, s.node.cache.frames, slot, Arm(n)))
      else s' == s
  {
    if s.node.session.phase == Live {
      PhoneSeesOnlyItsEvents(codec, s.node.cache.frames, s.table, On(c, Arm(n)), c);
      RunOfOne(codec, s.node.cache.frames, s.table, On(c, Arm(n)));
    } else {
      WantConfigAbsorbed(codec, s, now, c, data);
    }
  }

  /** Parking is dead code: the dispatcher never chooses it, whatever the phase. */
  lemma NeverParked(phase: Phase, t: ToRadio)
    ensures !Dispose(phase, t).Parked?
    ensures Dispose(phase, t).Replay? <==> t.WantConfig? && (phase == Live || phase == CacheReady)
  {
  }

  /**
   * A recovery shuts phones out: from every reachable LIVE state whose liveness watchdog is due
   * and finds room in the transmit queue, the cache stays published but a phone asking next is
   * not answered.
   */
  lemma UnansweredDuringRecovery(codec: Codec, s: System, now: nat, rand: u32, later: nat, c: Conn, data: Bytes)
    requires SystemInv(s) && s.node.session.phase == Live && Due(s.node.session.livenessAt, now)
    requires CanAsk(codec, s.node.tx, PickNonce(rand))
    requires codec.toRadio(data).Some? && codec.toRadio(data).value.WantConfig?
    ensures var s1 := Step(codec, s, now, LivenessDue(rand));
      && s1.node.session.phase == Refetching && s1.node.cache == s.node.cache && s1.node.cache.ready
      && Step(codec, s1, later, Writes(c, data)) == s1
  {
    NodeRunOfOne(codec, s.node, now, LivenessFire(rand));
    WantConfigAbsorbed(codec, Step(codec, s, now, LivenessDue(rand)), later, c, data);
  }

  // ---------------------------------------------------------------- absorbed writes

  /** What an absorbed heartbeat or disconnect does to the writer's slot. */
  function AbsorbedBy(codec: Codec, slot: Slot, t: ToRadio, now: nat): Slot {
    if t == Disconnect then slot.(leaving := true, teardownAt := Some(now + TEARDOWN_MS))
    else if Scratch(codec.queueStatus).Some? then Offered(slot, codec.queueStatus.value)
    else slot
  }

  /** The table event an absorbed heartbeat or disconnect amounts to, if any. */
  lemma AbsorbedEvent(codec: Codec, s: System, now: nat, c: Conn, data: Bytes)
    requires codec.toRadio(data) == Some(Heartbeat) || codec.toRadio(data) == Some(Disconnect)
    ensures var es := TablePart(codec, s, now, c, data);
      && Step(codec, s, now, Writes(c, data)) == s.(table := TableRun(codec, s.node.cache.frames, s.table, es))
      && es == (if codec.toRadio(data) == Some(Disconnect) then [On(c, Leave(now))]
                else if Scratch(codec.queueStatus).Some? then [On(c, Offer(codec.queueStatus.value))] else [])
  {
  }

  /** What one phone's event does to its own slot and to another's. */
  lemma OnlyThatSlot(codec: Codec, s: System, e: SlotEvent, c: Conn, other: Conn, t': Table)
    requires SystemInv(s) && SlotOf(s.table, c).Some? && other != c && !e.Expire?
    requires t' == TableRun(codec, s.node.cache.frames, s.table, [On(c, e)])
    ensures SlotOf(t', c) == Some(SlotStep(codec, s.node.cache.frames, SlotOf(s.table, c).value, e))
    ensures SlotOf(s.table, other).Some? ==> SlotOf(t', other) == SlotOf(s.table, other)
  {
    var fs := s.node.cache.frames;
    RunOfOne(codec, fs, s.table, On(c, e));
    PhoneSeesOnlyItsEvents(codec, fs, s.table, On(c, e), c);
    if SlotOf(s.table, other).Some? { PhoneSeesOnlyItsEvents(codec, fs, s.table, On(c, e), other); }
  }

  /** What the table makes of it. */
  lemma AbsorbedInTable(
    codec: Codec, s: System, now: nat, c: Conn, t: ToRadio, other: Conn, es: seq<TableEvent>, t': Table)
    requires SystemInv(s) && other != c && SlotOf(s.table, c).Some? && (t == Heartbeat || t == Disconnect)
    requires es == (if t == Disconnect then [On(c, Leave(now))]
                    else if Scratch(codec.queueStatus).Some? then [On(c, Offer(codec.queueStatus.value))] else [])
    requires t' == TableRun(codec, s.node.cache.frames, s.table, es)
    ensures SlotOf(t', c) == Some(AbsorbedBy(codec, SlotOf(s.table, c).value, t, now))
    ensures SlotOf(s.table, other).Some? ==> SlotOf(t', other) == SlotOf(s.table, other)
  {
    if t == Disconnect {
      OnlyThatSlot(codec, s, Leave(now), c, other, t');
    } else if Scratch(codec.queueStatus).Some? {
      OnlyThatSlot(codec, s, Offer(codec.queueStatus.value), c, other, t');
    }
  }

  /**
   * Heartbeats and disconnects never concern the node or another phone: a heartbeat puts the
   * synthesized queueStatus on the writer's own queue, a disconnect starts the writer's teardown.
   */
  lemma AbsorbedWritesStayLocal(codec: Codec, s: System, now: nat, c: Conn, data: Bytes, other: Conn, s': System)
    requires SystemInv(s) && other != c && SlotOf(s.table, c).Some?
    requires codec.toRadio(data) == Some(Heartbeat) || codec.toRadio(data) == Some(Disconnect)
    requires s' == Step(codec, s, now, Writes(c, data))
    ensures s'.node == s.node && s'.rx == s.rx
    ensures SlotOf(s'.table, c) == Some(AbsorbedBy(codec, SlotOf(s.table, c).value, codec.toRadio(data).value, now))
    ensures SlotOf(s.table, other).Some? ==> SlotOf(s'.table, other) == SlotOf(s.table, other)
  {
    AbsorbedEvent(codec, s, now, c, data);
    AbsorbedInTable(codec, s, now, c, codec.toRadio(data).value, other, TablePart(codec, s, now, c, data), s'.table);
  }

  /** A write that is passed on concerns the session only. */
  lemma ForwardStep(codec: Codec, s: System, now: nat, c: Conn, p: Bytes)
    requires Forwardable(codec, p)
    ensures Step(codec, s, now, Writes(c, p)) == s.(node := ForwardWrite(s.node, now, p, codec.toRadio(p).Some?))
  {
    NodeRunOfOne(codec, s.node, now, Forward(p, codec.toRadio(p).Some?));
  }

  // ---------------------------------------------------------------- the transmit queue

  /** The proxy's own want_config or heartbeat, with a nonce other than 0 and 1. */
  ghost predicate Own(codec: Codec, p: Bytes) {
    exists n: u32 :: n >= 2 && (codec.wantConfig(n) == Some(p) || codec.heartbeat(n) == Some(p))
  }

  /** Step `i` of the run put packet `p` on the transmit queue, as the `k`-th packet ever accepted. */
  ghost predicate SentAt(codec: Codec, u: Node, es: seq<Stamp>, i: nat, k: nat, p: Bytes) {
    && i < |es|
    && var a, b := NodeRun(codec, u, es[..i]), NodeRun(codec, u, es[..i + 1]);
      && |a.tx.accepted| == k && b.tx.accepted == a.tx.accepted + [p]
      && Sendable(codec, a, es[i].event, b.session.nonce, p)
  }

  /** The step of a run that accepts the `k`-th packet. */
  function Sender(codec: Codec, u: Node, es: seq<Stamp>, k: nat): nat
    decreases |es|
  {
    if es == [] then 0
    else
      var u' := NodeStep(codec, u, es[0].now, es[0].event);
      if k < |u'.tx.accepted| then 0 else 1 + Sender(codec, u', es[1..], k)
  }

  lemma SentFirst(codec: Codec, u: Node, es: seq<Stamp>, p: Bytes)
    requires es != []
    requires var u' := NodeStep(codec, u, es[0].now, es[0].event);
      u'.tx.accepted == u.tx.accepted + [p] && Sendable(codec, u, es[0].event, u'.session.nonce, p)
    ensures SentAt(codec, u, es, 0, |u.tx.accepted|, p)
  {
    assert es[..0] == [] && es[..1] == [es[0]] && es[..1][1..] == [];
  }

  lemma SentLater(codec: Codec, u: Node, es: seq<Stamp>, i: nat, k: nat, p: Bytes)
    requires es != [] && SentAt(codec, NodeStep(codec, u, es[0].now, es[0].event), es[1..], i, k, p)
    ensures SentAt(codec, u, es, i + 1, k, p)
  {
    assert es[..i + 1][1..] == es[1..][..i] && es[..i + 2][1..] == es[1..][..i + 1];
  }

  lemma {:induction false} AcceptedGrows(codec: Codec, u: Node, es: seq<Stamp>)
    requires NodeInv(u)
    ensures u.tx.accepted <= NodeRun(codec, u, es).tx.accepted
    decreases |es|
  {
    if es != [] {
      StepSends(codec, u, es[0].now, es[0].event);
      NodeStepKeepsInv(codec, u, es[0].now, es[0].event);
      AcceptedGrows(codec, NodeStep(codec, u, es[0].now, es[0].event), es[1..]);
    }
  }

  /** Every packet accepted during a run was put on the queue by one step of it, in that order. */
  lemma {:induction false} RunBoundary(codec: Codec, u: Node, es: seq<Stamp>, k: nat)
    requires NodeInv(u) && |u.tx.accepted| <= k < |NodeRun(codec, u, es).tx.accepted|
    ensures SentAt(codec, u, es, Sender(codec, u, es, k), k, NodeRun(codec, u, es).tx.accepted[k])
    decreases |es|
  {
    var u', v := NodeStep(codec, u, es[0].now, es[0].event), NodeRun(codec, u, es);
    StepSends(codec, u, es[0].now, es[0].event);
    NodeStepKeepsInv(codec, u, es[0].now, es[0].event);
    AcceptedGrows(codec, u', es[1..]);
    if k < |u'.tx.accepted| {
      assert u'.tx.accepted == u.tx.accepted + [v.tx.accepted[k]];
      SentFirst(codec, u, es, v.tx.accepted[k]);
    } else {
      RunBoundary(codec, u', es[1..], k);
      SentLater(codec, u, es, Sender(codec, u', es[1..], k), k, v.tx.accepted[k]);
    }
  }

  /** A phone write that is passed on: undecodable, or not one of the three absorbed variants. */
  predicate Forwardable(codec: Codec, p: Bytes) {
    codec.toRadio(p).None? || codec.toRadio(p).value == Other
  }

  ghost predicate WrittenIn(es: seq<Moment>, p: Bytes) {
    exists i :: 0 <= i < |es| && es[i].event.Writes? && es[i].event.data == p
  }

  lemma ForwardsInStep(codec: Codec, s: System, now: nat, e: Event, st: Stamp)
    requires st in StepTrace(codec, s, now, e) && st.event.Forward?
    ensures e.Writes? && e.data == st.event.raw && Forwardable(codec, e.data)
  {
    if e.RxWork? { OnlyFramesInFrameTrace(codec, now, FramesOf(s, e), e.rands); }
  }

  lemma {:induction false} ForwardsAreWrites(codec: Codec, s: System, es: seq<Moment>, st: Stamp)
    requires st in Trace(codec, s, es) && st.event.Forward?
    ensures WrittenIn(es, st.event.raw) && Forwardable(codec, st.event.raw)
    decreases |es|
  {
    var s' := Step(codec, s, es[0].now, es[0].event);
    if st in StepTrace(codec, s, es[0].now, es[0].event) {
      ForwardsInStep(codec, s, es[0].now, es[0].event, st);
    } else {
      ForwardsAreWrites(codec, s', es[1..], st);
      var j :| 0 <= j < |es[1..]| && es[1..][j].event.Writes? && es[1..][j].event.data == st.event.raw;
      assert es[j + 1].event.Writes? && es[j + 1].event.data == st.event.raw;
    }
  }

  /**
   * Virtualization boundary: over every run, each payload accepted for the UART was put there by
   * one step of the session, in the order of the steps and once per step: a phone's write,
   * unchanged and of a kind that may pass; or the proxy's own want_config, with the session's
   * nonce; or its own heartbeat; no nonce being 0 or 1.
   */
  lemma VirtualizationBoundary(codec: Codec, s: System, es: seq<Moment>, k: nat)
    requires SystemInv(s) && |s.node.tx.accepted| <= k < |SystemRun(codec, s, es).node.tx.accepted|
    ensures var t, p := Trace(codec, s, es), SystemRun(codec, s, es).node.tx.accepted[k];
      var i := Sender(codec, s.node, t, k);
      && SentAt(codec, s.node, t, i, k, p)
      && (t[i].event.Forward? ==> WrittenIn(es, p) && Forwardable(codec, p))
  {
    var t := Trace(codec, s, es);
    SessionFollowsTrace(codec, s, es);
    RunBoundary(codec, s.node, t, k);
    var i := Sender(codec, s.node, t, k);
    if t[i].event.Forward? { ForwardsAreWrites(codec, s, es, t[i]); }
  }

  /** In short: a passed-on write, or the proxy's own. */
  lemma AcceptedIsOwnOrForwarded(codec: Codec, s: System, es: seq<Moment>, p: Bytes)
    requires SystemInv(s) && p in SystemRun(codec, s, es).node.tx.accepted
    ensures p in s.node.tx.accepted || Own(codec, p) || (WrittenIn(es, p) && Forwardable(codec, p))
  {
    var a, b := s.node.tx.accepted, SystemRun(codec, s, es).node.tx.accepted;
    var k :| 0 <= k < |b| && b[k] == p;
    SessionFollowsTrace(codec, s, es);
    AcceptedGrows(codec, s.node, Trace(codec, s, es));
    if k < |a| {
      assert a[k] == p;
    } else {
      VirtualizationBoundary(codec, s, es, k);
    }
  }

  // ---------------------------------------------------------------- what the node hears

  /** Queueing a packet and starting a transmission put nothing new among the completed bytes. */
  lemma WireUntouched(t: Pump, p: Bytes, ok: bool)
    ensures var a, b := Send(t, p), RunWorker(t, ok);
      && a.wire == t.wire && a.arrived == t.arrived && a.torn == t.torn
      && b.wire == t.wire && b.arrived == t.arrived && b.torn == t.torn
  {
  }

  lemma NodeWireStep(codec: Codec, u: Node, now: nat, e: NodeEvent)
    requires NodeInv(u) && WireInv(u.tx)
    ensures WireInv(NodeStep(codec, u, now, e).tx)
  {
    match e {
      case TxDone => WireStep(u.tx, Done);
      case TxAborted(sent) => WireStep(u.tx, Abort(sent));
      case TxWork(ok) => WireUntouched(u.tx, [], ok);
      case TxPart(part) => WireStep(u.tx, part);
      case ParkRequest(_) =>
      case _ =>
        HandlerSends(codec, u, now, e);
        var u' := NodeStep(codec, u, now, e);
        if u'.tx != u.tx {
          var p :| Sendable(codec, u, e, u'.session.nonce, p) && u'.tx == Send(u.tx, p);
          WireUntouched(u.tx, p, true);
        }
    }
  }

  lemma {:induction false} WireRun(codec: Codec, u: Node, es: seq<Stamp>)
    requires NodeInv(u) && WireInv(u.tx)
    ensures NodeInv(NodeRun(codec, u, es)) && WireInv(NodeRun(codec, u, es).tx)
    decreases |es|
  {
    if es != [] {
      NodeWireStep(codec, u, es[0].now, es[0].event);
      NodeStepKeepsInv(codec, u, es[0].now, es[0].event);
      WireRun(codec, NodeStep(codec, u, es[0].now, es[0].event), es[1..]);
    }
  }

  lemma {:induction false} NonEmptyIsSubset(ps: seq<Bytes>, p: Bytes)
    requires p in NonEmpty(ps)
    ensures p in ps
  {
    if ps != [] && p in NonEmpty(ps[..|ps| - 1]) { NonEmptyIsSubset(ps[..|ps| - 1], p); }
  }

  /**
   * From power-up, over every run in which no aborted transmission tore a frame: no packet the node
   * decodes off the UART is a disconnect, every want_config it decodes is the proxy's own, never
   * with nonce 0 or 1, and every heartbeat is the proxy's own.
   */
  lemma NodeHearsOnlyTheProxy(codec: Codec, es: seq<Moment>, p: Bytes)
    requires Lawful(codec)
    requires SystemRun(codec, SYSTEM_INIT, es).node.tx.torn == 0
    requires p in Decode(WaitMagic1, SystemRun(codec, SYSTEM_INIT, es).node.tx.wire).1
    ensures codec.toRadio(p) != Some(Disconnect)
    ensures codec.toRadio(p).Some? && codec.toRadio(p).value.WantConfig? ==>
              codec.toRadio(p).value.nonce >= 2 && codec.wantConfig(codec.toRadio(p).value.nonce) == Some(p)
    ensures codec.toRadio(p) == Some(Heartbeat) ==> Own(codec, p)
  {
    InitialSystem();
    SessionFollowsTrace(codec, SYSTEM_INIT, es);
    WireRun(codec, NODE_INIT, Trace(codec, SYSTEM_INIT, es));
    var tx := SystemRun(codec, SYSTEM_INIT, es).node.tx;
    NonEmptyIsSubset(tx.arrived, p);
    assert p in tx.accepted;
    AcceptedIsOwnOrForwarded(codec, SYSTEM_INIT, es, p);
  }

  // ---------------------------------------------------------------- torn frames

  /** An idle pump sends one packet from start to finish. */
  lemma WireAfterSend(t: Pump, q: Bytes, t1: Pump, t2: Pump)
    requires PumpInv(t) && t.worker == Idle && t.inFlight.None? && t.queue == [] && |q| <= MAX_PAYLOAD
    requires t1 == Send(t, q) && t2 == RunWorker(t1, true)
    ensures TxStep(t2, Done).wire == t.wire + Encode(q)
  {
    SendKeepsInv(t, q);
    assert t1.workQueued && t1.inFlight.None? && t1.queue == [q] && t1.wire == t.wire;
    WakeupMakesProgress(t1);
    WireUntouched(t1, q, true);
  }

  /** A transmission of `p` is cut after `sent` bytes, and then a packet `q` goes out whole. */
  lemma WireAfterAbort(t: Pump, p: Bytes, sent: nat, q: Bytes)
    requires PumpInv(t) && t.worker == Idle && t.inFlight == Some(p) && t.queue == [] && |p| <= MAX_PAYLOAD
    requires |q| <= MAX_PAYLOAD
    ensures var t' := TxStep(RunWorker(Send(TxStep(t, Abort(sent)), q), true), Done);
      t'.wire == t.wire + Cut(Encode(p), sent) + Encode(q)
  {
    var t0 := TxStep(t, Abort(sent));
    PumpStepKeepsInv(t, Abort(sent));
    WireAfterSend(t0, q, Send(t0, q), RunWorker(Send(t0, q), true));
  }

  lemma TornLineSmuggles(wire: Bytes, p: Bytes, sent: nat, g: Bytes, m: Bytes)
    requires Decode(WaitMagic1, wire).0 == WaitMagic1
    requires 4 <= sent && |p| <= MAX_PAYLOAD && sent + |g| == |p| && 1 <= |m| && |g| + 4 + |m| <= MAX_PAYLOAD
    ensures m in Decode(WaitMagic1, wire + Cut(Encode(p), sent) + Encode(g + Encode(m))).1
  {
    var cut, q := Cut(Encode(p), sent), g + Encode(m);
    TornFrameLeaves(p, sent);
    TornFrameSmuggles(|p|, p[..sent - 4], g, m);
    DecodeConcat(WaitMagic1, wire, cut);
    DecodeConcat(WaitMagic1, wire + cut, Encode(q));
    var heard := Decode(WaitMagic1, wire + cut + Encode(q)).1;
    assert heard[|heard| - 1] == m;
  }

  // ---------------------------------------------------------------- one nonce per fetch

  predicate ForwardsPass(codec: Codec, es: seq<Stamp>) {
    forall st :: st in es && st.event.Forward? ==> Forwardable(codec, st.event.raw)
  }

  lemma AskedInStep(codec: Codec, u: Node, st: Stamp, p: Bytes)
    requires Lawful(codec) && NodeInv(u) && (st.event.Forward? ==> Forwardable(codec, st.event.raw))
    requires var u' := NodeStep(codec, u, st.now, st.event); u'.tx.accepted == u.tx.accepted + [p]
    requires codec.toRadio(p).Some? && codec.toRadio(p).value.WantConfig?
    ensures codec.toRadio(p).value.nonce == NodeStep(codec, u, st.now, st.event).session.nonce
  {
    var u' := NodeStep(codec, u, st.now, st.event);
    StepSends(codec, u, st.now, st.event);
    assert u'.tx.accepted[|u.tx.accepted|] == p;
  }

  /** Packet `k`, if it is a want_config, carries `nonce`. */
  predicate AsksWith(codec: Codec, u: Node, k: nat, nonce: u32) {
    k < |u.tx.accepted| &&
    var m := codec.toRadio(u.tx.accepted[k]);
    m.Some? && m.value.WantConfig? ==> m.value.nonce == nonce
  }

  /** The first step of a run accepts packet `k`: a want_config carries the nonce it leaves the session with. */
  lemma FirstAskCarriesNonce(codec: Codec, u: Node, es: seq<Stamp>, k: nat)
    requires Lawful(codec) && NodeInv(u) && es != [] && ForwardsPass(codec, es)
    requires |u.tx.accepted| <= k < |NodeStep(codec, u, es[0].now, es[0].event).tx.accepted|
    ensures AsksWith(codec, NodeRun(codec, u, es), k, NodeStep(codec, u, es[0].now, es[0].event).session.nonce)
  {
    var u' := NodeStep(codec, u, es[0].now, es[0].event);
    var p := u'.tx.accepted[k];
    NodeStepKeepsInv(codec, u, es[0].now, es[0].event);
    StepSends(codec, u, es[0].now, es[0].event);
    AcceptedGrows(codec, u', es[1..]);
    assert es[0] in es && u'.tx.accepted == u.tx.accepted + [p];
    if codec.toRadio(p).Some? && codec.toRadio(p).value.WantConfig? { AskedInStep(codec, u, es[0], p); }
  }

  lemma {:induction false} OneNonceWhileOpen(codec: Codec, u: Node, es: seq<Stamp>, ph: Phase, k: nat)
    requires Lawful(codec) && NodeInv(u) && InFetch(ph) && StaysIn(codec, u, es, ph) && ForwardsPass(codec, es)
    requires |u.tx.accepted| <= k < |NodeRun(codec, u, es).tx.accepted|
    ensures AsksWith(codec, NodeRun(codec, u, es), k, u.session.nonce)
    decreases |es|
  {
    var u' := NodeStep(codec, u, es[0].now, es[0].event);
    NodeStepKeepsInv(codec, u, es[0].now, es[0].event);
    NonceFixed(codec, u, es[0].now, es[0].event);
    if k < |u'.tx.accepted| {
      FirstAskCarriesNonce(codec, u, es, k);
    } else {
      OneNonceWhileOpen(codec, u', es[1..], ph, k);
    }
  }

  /** From the step that opens a fetch until it ends, all want_configs carry the nonce it opened with. */
  lemma OneNonceFromOpening(codec: Codec, u: Node, es: seq<Stamp>, u': Node, k: nat)
    requires Lawful(codec) && NodeInv(u) && es != [] && ForwardsPass(codec, es)
    requires u' == NodeStep(codec, u, es[0].now, es[0].event)
    requires InFetch(u'.session.phase) && StaysIn(codec, u', es[1..], u'.session.phase)
    requires |u.tx.accepted| <= k < |NodeRun(codec, u, es).tx.accepted|
    ensures AsksWith(codec, NodeRun(codec, u, es), k, u'.session.nonce)
  {
    if k < |u'.tx.accepted| {
      FirstAskCarriesNonce(codec, u, es, k);
    } else {
      NodeStepKeepsInv(codec, u, es[0].now, es[0].event);
      OneNonceWhileOpen(codec, u', es[1..], u'.session.phase, k);
    }
  }

  lemma TraceForwardsPass(codec: Codec, s: System, es: seq<Moment>)
    ensures ForwardsPass(codec, Trace(codec, s, es))
  {
    forall st | st in Trace(codec, s, es) && st.event.Forward? ensures Forwardable(codec, st.event.raw) {
      ForwardsAreWrites(codec, s, es, st);
    }
  }

  lemma NodeRunSplit(codec: Codec, u: Node, t: seq<Stamp>, i: nat, j: nat)
    requires i <= j <= |t|
    ensures NodeRun(codec, u, t[..j]) == NodeRun(codec, NodeRun(codec, u, t[..i]), t[i..j])
  {
    assert t[..j] == t[..i] + t[i..j];
    NodeRunConcat(codec, u, t[..i], t[i..j]);
  }

  /**
   * One nonce per fetch, in every run of the proxy: if step `i` of the session's trace opens a
   * fetch that lasts until `j`, every want_config accepted from step `i` on until then, the one
   * that opened the fetch and all its retries, carries the nonce chosen at step `i`.
   */
  lemma OneNonceOnTheWire(
    codec: Codec, s: System, es: seq<Moment>, t: seq<Stamp>, i: nat, j: nat, u: Node, v: Node, k: nat)
    requires Lawful(codec) && SystemInv(s) && t == Trace(codec, s, es) && i < j <= |t|
    requires u == NodeRun(codec, s.node, t[..i]) && v == NodeRun(codec, s.node, t[..i + 1])
    requires !InFetch(u.session.phase) && InFetch(v.session.phase) && StaysIn(codec, v, t[i + 1..j], v.session.phase)
    requires |u.tx.accepted| <= k < |NodeRun(codec, s.node, t[..j]).tx.accepted|
    ensures AsksWith(codec, SystemRun(codec, s, es).node, k, v.session.nonce)
  {
    var w := NodeRun(codec, s.node, t[..j]);
    WatchdogsStayAlive(codec, s.node, t[..i]);
    WatchdogsStayAlive(codec, s.node, t[..j]);
    TraceForwardsPass(codec, s, es);
    NodeRunSplit(codec, s.node, t, i, i + 1);
    NodeRunSplit(codec, s.node, t, i, j);
    assert t[i..i + 1] == [t[i]] && [t[i]][1..] == [] && t[i..j][1..] == t[i + 1..j];
    OneNonceFromOpening(codec, u, t[i..j], v, k);
    NodeRunSplit(codec, s.node, t, j, |t|);
    assert t[..|t|] == t;
    AcceptedGrows(codec, w, t[j..]);
    SessionFollowsTrace(codec, s, es);
  }
}
