/** What the session must do, where the other modules say what it may: ask, beat, pass on, retry on time. */
module Duties {
  import opened Prelude
  import opened Wire
  import opened ConfigCache
  import opened UartTx
  import opened Upstream
  import opened Watchdogs
  import opened Phones
  import opened Proxy
  import opened Teardown
  import opened Invariants
  import R = Replay

  /** The transmit queue takes a packet of this length: at most 512 bytes, one of four places free. */
  predicate HasRoom(t: Pump, p: Bytes) { |p| <= 512 && |t.queue| < 4 }

  // ---------------------------------------------------------------- asking

  lemma SendIsAccepted(t: Pump, p: Bytes)
    requires PumpInv(t) && HasRoom(t, p)
    ensures Send(t, p).accepted == t.accepted + [p] && Send(t, p).queue == t.queue + [p]
  {
    SendKeepsInv(t, p);
  }

  /** A due retry of an open fetch asks again, with the nonce of the fetch, whenever there is room. */
  lemma RetryAsks(codec: Codec, u: Node, now: nat, wc: Bytes)
    requires NodeInv(u) && InFetch(u.session.phase) && Due(u.session.fetchRetryAt, now)
    requires codec.wantConfig(u.session.nonce) == Some(wc) && HasRoom(u.tx, wc)
    ensures NodeStep(codec, u, now, FetchRetryFire).tx.accepted == u.tx.accepted + [wc]
  {
    SendIsAccepted(u.tx, wc);
  }

  /** A drawn nonce is used as it is, unless it is 0 or 1. */
  predicate UsedFor(rand: u32, nonce: u32) { if rand >= 2 then nonce == rand else nonce == 2 }

  /** The start asks with the nonce drawn, whenever there is room, and opens the fetch in any case. */
  lemma StartAsks(codec: Codec, u: Node, now: nat, rand: u32, nonce: u32, wc: Bytes)
    requires NodeInv(u) && !u.session.armed && UsedFor(rand, nonce) && codec.wantConfig(nonce) == Some(wc)
    ensures var u' := NodeStep(codec, u, now, Start(rand));
      && u'.session.phase == Fetching && u'.session.nonce == nonce
      && (HasRoom(u.tx, wc) ==> u'.tx.accepted == u.tx.accepted + [wc])
  {
    if HasRoom(u.tx, wc) { SendIsAccepted(u.tx, wc); }
  }

  /** What calls for a recovery: the liveness deadline, or the node's own reboot notice. */
  predicate CallsForRecovery(u: Node, now: nat, e: NodeEvent) {
    (e.LivenessFire? && Due(u.session.livenessAt, now)) || (e.FrameIn? && e.info.variant == REBOOTED)
  }

  /** A LIVE session that is called to recover asks with the nonce drawn and opens a fetch, whenever there is room. */
  lemma RecoveryAsks(codec: Codec, u: Node, now: nat, e: NodeEvent, nonce: u32, wc: Bytes)
    requires NodeInv(u) && u.session.phase == Live && CallsForRecovery(u, now, e)
    requires UsedFor(e.rand, nonce) && codec.wantConfig(nonce) == Some(wc) && HasRoom(u.tx, wc)
    ensures var u' := NodeStep(codec, u, now, e);
      && u'.session.phase == Refetching && u'.session.nonce == nonce && u'.tx.accepted == u.tx.accepted + [wc]
      && u'.cache == u.cache
  {
    SendIsAccepted(u.tx, wc);
  }

  /** Without room nothing is asked and no fetch is opened; only the nonce has been drawn, and the deadline is spent. */
  lemma RefusedRecovery(codec: Codec, u: Node, now: nat, e: NodeEvent, nonce: u32, wc: Bytes)
    requires NodeInv(u) && u.session.phase == Live && CallsForRecovery(u, now, e)
    requires UsedFor(e.rand, nonce) && codec.wantConfig(nonce) == Some(wc) && !HasRoom(u.tx, wc)
    ensures var u' := NodeStep(codec, u, now, e);
      && u'.tx == u.tx && u'.cache == u.cache
      && u'.session == u.session.(nonce := nonce,
                                  livenessAt := if e.LivenessFire? then None else u.session.livenessAt)
  {
  }

  // ---------------------------------------------------------------- beating

  /** A due keepalive queues its heartbeat and expects a reply, whenever there is room. */
  lemma KeepaliveBeats(codec: Codec, u: Node, now: nat, hb: Bytes)
    requires NodeInv(u) && Due(u.session.keepaliveAt, now)
    requires codec.heartbeat(u.session.keepaliveNonce) == Some(hb) && |hb| <= 16 && HasRoom(u.tx, hb)
    ensures var u' := NodeStep(codec, u, now, KeepaliveFire);
      u'.tx.accepted == u.tx.accepted + [hb] && u'.session.keepalivePending
  {
    SendIsAccepted(u.tx, hb);
  }

  /**
   * Whether a reply is expected: a keepalive attempt decides it by whether it was queued, a
   * queueStatus that is not part of a burst spends it, and nothing else touches it.
   */
  lemma ExpectationIs(codec: Codec, u: Node, st: Stamp, hb: Bytes)
    requires NodeInv(u) && codec.heartbeat(u.session.keepaliveNonce) == Some(hb) && |hb| <= 16
    ensures var e := st.event;
      NodeStep(codec, u, st.now, e).session.keepalivePending ==
        if e.KeepaliveFire? && Due(u.session.keepaliveAt, st.now) then HasRoom(u.tx, hb)
        else if e.FrameIn? && !InFetch(u.session.phase) && e.info.variant == 11 then false
        else u.session.keepalivePending
  {
  }

  /** Keepalive attempts in a run. */
  function Attempts(codec: Codec, u: Node, es: seq<Stamp>): nat
    decreases |es|
  {
    if es == [] then 0
    else (if es[0].event.KeepaliveFire? && Due(u.session.keepaliveAt, es[0].now) then 1 else 0)
         + Attempts(codec, NodeStep(codec, u, es[0].now, es[0].event), es[1..])
  }

  /** The nonce of the attempt `k` after one with nonce `n`: counting up, past 2^32 - 1 on from 2. */
  function NonceAfter(n: u32, k: nat): int
    requires n >= 2
  {
    2 + (n - 2 + k) % 0xFFFF_FFFE
  }

  lemma NonceAfterNext(n: u32, k: nat)
    requires n >= 2
    ensures NonceAfter(if n == 0xFFFF_FFFF then 2 else n + 1, k) == NonceAfter(n, k + 1)
  {
    if n == 0xFFFF_FFFF { assert (n - 2 + k + 1) == k + 0xFFFF_FFFE; }
  }

  lemma NonceStep(codec: Codec, u: Node, st: Stamp)
    requires SessionInv(u.session, u.cache.ready)
    ensures var n, n' := u.session.keepaliveNonce, NodeStep(codec, u, st.now, st.event).session.keepaliveNonce;
      n' == if st.event.KeepaliveFire? && Due(u.session.keepaliveAt, st.now)
            then (if n == 0xFFFF_FFFF then 2 else n + 1) else n
  {
  }

  /** Successive keepalive attempts carry successive nonces, leaving out 0 and 1 after the wrap, over any run. */
  lemma {:induction false} KeepaliveNoncesCount(codec: Codec, u: Node, es: seq<Stamp>)
    requires NodeInv(u)
    ensures NodeRun(codec, u, es).session.keepaliveNonce
         == NonceAfter(u.session.keepaliveNonce, Attempts(codec, u, es))
    decreases |es|
  {
    if es != [] {
      var u' := NodeStep(codec, u, es[0].now, es[0].event);
      NonceStep(codec, u, es[0]);
      NodeStepKeepsInv(codec, u, es[0].now, es[0].event);
      KeepaliveNoncesCount(codec, u', es[1..]);
      NonceAfterNext(u.session.keepaliveNonce, Attempts(codec, u', es[1..]));
    }
  }

  // ---------------------------------------------------------------- passing on

  /** A phone's packet is queued whenever there is room, in every phase. */
  lemma ForwardIsQueued(codec: Codec, u: Node, now: nat, raw: Bytes, decodable: bool)
    requires NodeInv(u) && HasRoom(u.tx, raw)
    ensures NodeStep(codec, u, now, Forward(raw, decodable)).tx.accepted == u.tx.accepted + [raw]
  {
    SendIsAccepted(u.tx, raw);
  }

  // ---------------------------------------------------------------- retrying on time

  /** The last sign of progress of an open fetch: its opening, a frame it took, or a retry. */
  function ProgressOf(codec: Codec, u: Node, st: Stamp, last: nat): nat {
    var e, p, p' := st.event, u.session.phase, NodeStep(codec, u, st.now, st.event).session.phase;
    if !InFetch(p) && InFetch(p') then st.now
    else if InFetch(p) && e.FrameIn? && e.info.variant != PACKET then st.now
    else if InFetch(p) && e.FetchRetryFire? && Due(u.session.fetchRetryAt, st.now) then st.now
    else last
  }

  function Progress(codec: Codec, u: Node, es: seq<Stamp>, last: nat): nat
    decreases |es|
  {
    if es == [] then last
    else Progress(codec, NodeStep(codec, u, es[0].now, es[0].event), es[1..], ProgressOf(codec, u, es[0], last))
  }

  predicate RetryIs(s: Session, last: nat) { InFetch(s.phase) ==> s.fetchRetryAt == Some(last + 2000) }

  lemma RetryStep(codec: Codec, u: Node, st: Stamp, last: nat)
    requires SessionInv(u.session, u.cache.ready) && RetryIs(u.session, last)
    ensures RetryIs(NodeStep(codec, u, st.now, st.event).session, ProgressOf(codec, u, st, last))
  {
  }

  /** While a fetch is open, boot or recovery, its retry is due exactly two seconds after its last progress. */
  lemma {:induction false} RetryIsOnTime(codec: Codec, u: Node, es: seq<Stamp>, last: nat)
    requires NodeInv(u) && RetryIs(u.session, last)
    ensures RetryIs(NodeRun(codec, u, es).session, Progress(codec, u, es, last))
    decreases |es|
  {
    if es != [] {
      RetryStep(codec, u, es[0], last);
      NodeStepKeepsInv(codec, u, es[0].now, es[0].event);
      RetryIsOnTime(codec, NodeStep(codec, u, es[0].now, es[0].event), es[1..], ProgressOf(codec, u, es[0], last));
    }
  }

  // ---------------------------------------------------------------- parking

  predicate NoDuplicates(cs: seq<nat>) { forall i, j :: 0 <= i < j < |cs| ==> cs[i] != cs[j] }

  /** A phone is remembered once, behind those before it, and only if one of six places is left. */
  lemma ParkingRemembersOnce(u: Node, c: nat)
    requires !u.cache.ready && NoDuplicates(u.session.pending) && |u.session.pending| <= 6
    ensures var a, b := u.session.pending, ParkPhone(u, c).session.pending;
      && a <= b && NoDuplicates(b) && |b| <= 6
      && (c in b <==> c in a || |a| < 6) && forall x :: x in b ==> x in a || x == c
  {
  }

  /** A parked phone is PENDING with the nonce it asked with, and otherwise as before. */
  lemma ParkingKeepsNonce(codec: Codec, fs: seq<Frame>, s: Slot, nonce: u32)
    ensures SlotStep(codec, fs, s, Park(nonce)) == s.(state := Pending, nonce := nonce)
  {
  }

  lemma ServeHead(pending: seq<nat>)
    requires pending != []
    ensures ServeParked(pending)[0] == On(pending[0], Arm(0)) && ServeParked(pending)[1..] == ServeParked(pending[1..])
  {
  }

  /** Serving the parked phones arms each of them once. */
  lemma {:induction false} ServingArmsEach(codec: Codec, fs: seq<Frame>, t: Table, pending: seq<nat>, c: nat)
    requires TableInv(t) && SlotOf(t, c).Some? && NoDuplicates(pending)
    ensures SlotOf(TableRun(codec, fs, t, ServeParked(pending)), c)
         == Some(if c in pending then SlotStep(codec, fs, SlotOf(t, c).value, Arm(0)) else SlotOf(t, c).value)
    decreases |pending|
  {
    if pending != [] {
      var x := On(pending[0], Arm(0));
      ServeHead(pending);
      TableStepKeepsInv(codec, fs, t, x);
      PhoneSeesOnlyItsEvents(codec, fs, t, x, c);
      ServingArmsEach(codec, fs, TableStep(codec, fs, t, x), pending[1..], c);
    }
  }

  /**
   * A parked phone, if there were one, would be served: the terminator that closes the boot fetch
   * arms the replay of every phone remembered, with the nonce it was parked with.
   */
  lemma ParkedPhoneIsServed(
    codec: Codec, s: System, now: nat, raw: Bytes, rand: u32, info: FromRadio, c: nat, cc: Bytes)
    requires TableInv(s.table) && SlotOf(s.table, c).Some? && SlotOf(s.table, c).value.state == Pending
    requires s.node.session.phase == Fetching && c in s.node.session.pending && NoDuplicates(s.node.session.pending)
    requires codec.fromRadio(raw) == Some(info) && Closes(codec, s.node.session, raw, info)
    requires Scratch(codec.configComplete(SlotOf(s.table, c).value.nonce)) == Some(cc)
    ensures var n, s' := SlotOf(s.table, c).value.nonce, OnFrame(codec, s, now, raw, rand);
      && SlotOf(s'.table, c).Some?
      && R.Standing(s.node.cache.frames, SlotOf(s'.table, c).value, BurstFor(s.node.cache.frames, n) + [cc], 0)
  {
    var slot := SlotOf(s.table, c).value;
    ServingArmsEach(codec, s.node.cache.frames, s.table, s.node.session.pending, c);
    R.ArmedReplay(codec, s.node.cache.frames, slot, 0, slot.nonce);
    SegmentIsBurstFor(s.node.cache.frames, slot.nonce);
  }

  // ---------------------------------------------------------------- in the proxy

  /** A keepalive timer that comes due in the proxy beats. */
  lemma ProxyBeats(codec: Codec, s: System, now: nat, hb: Bytes)
    requires SystemInv(s) && Due(s.node.session.keepaliveAt, now)
    requires codec.heartbeat(s.node.session.keepaliveNonce) == Some(hb) && |hb| <= 16 && HasRoom(s.node.tx, hb)
    ensures Step(codec, s, now, KeepaliveDue).node.tx.accepted == s.node.tx.accepted + [hb]
  {
    NodeRunOfOne(codec, s.node, now, KeepaliveFire);
    KeepaliveBeats(codec, s.node, now, hb);
  }

  lemma OnePart(codec: Codec, s: System, now: nat, part: TxEvent)
    requires !part.Put? && !part.Submit?
    ensures Step(codec, s, now, TxWorkPart(part)) == s.(node := s.node.(tx := TxStep(s.node.tx, part)))
  {
    NodeRunOfOne(codec, s.node, now, TxPart(part));
  }

  /** The transmit work item step by step, with nothing in between, is its run as a whole. */
  lemma PartsMakeTheWorkItem(
    codec: Codec, s: System, now: nat, ok: bool, s1: System, s2: System, s3: System, s4: System)
    requires s1 == Step(codec, s, now, TxWorkPart(Enter)) && s2 == Step(codec, s1, now, TxWorkPart(Check))
    requires s3 == Step(codec, s2, now, TxWorkPart(Take)) && s4 == Step(codec, s3, now, TxWorkPart(Launch(ok)))
    ensures s4 == Step(codec, s, now, TxWorkRuns(ok))
  {
    OnePart(codec, s, now, Enter);
    OnePart(codec, s1, now, Check);
    OnePart(codec, s2, now, Take);
    OnePart(codec, s3, now, Launch(ok));
    NodeRunOfOne(codec, s.node, now, TxWork(ok));
  }
}
