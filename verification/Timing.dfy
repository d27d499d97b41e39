/**
 * Timed runs of the session: the keepalive bound, dead-session detection and the one way the
 * liveness watchdog can be lost. `late` bounds how long after its deadline a work item may run.
 */
module Timing {
  import opened Prelude
  import opened Wire
  import opened UartTx
  import opened Upstream
  import opened Watchdogs

  predicate Punctual(t: Timer, now: nat, late: nat) { t.Some? ==> now <= t.value + late }

  // ---------------------------------------------------------------- keepalive bound

  /** When the last packet was accepted for the UART, and the keepalives that failed since. */
  datatype Tally = Tally(clock: nat, last: nat, refused: nat, unencoded: nat)

  function Note(codec: Codec, u: Node, st: Stamp, k: Tally): Tally {
    var u' := NodeStep(codec, u, st.now, st.event);
    if |u'.tx.accepted| > |u.tx.accepted| || u'.session.armed != u.session.armed then
      Tally(st.now, st.now, 0, 0)
    else if st.event.KeepaliveFire? && Due(u.session.keepaliveAt, st.now) then
      if Scratch(codec.heartbeat(u.session.keepaliveNonce)).Some?
      then k.(clock := st.now, refused := k.refused + 1)
      else k.(clock := st.now, unencoded := k.unencoded + 1)
    else k.(clock := st.now)
  }

  function Notes(codec: Codec, u: Node, es: seq<Stamp>, k: Tally): Tally
    decreases |es|
  {
    if es == [] then k
    else Notes(codec, NodeStep(codec, u, es[0].now, es[0].event), es[1..], Note(codec, u, es[0], k))
  }

  /** Time moves forward, and never past an armed keepalive by more than `late`. */
  predicate KeepalivePunctual(codec: Codec, u: Node, es: seq<Stamp>, clock: nat, late: nat)
    decreases |es|
  {
    es == [] ||
    (&& clock <= es[0].now
     && Punctual(u.session.keepaliveAt, es[0].now, late)
     && KeepalivePunctual(codec, NodeStep(codec, u, es[0].now, es[0].event), es[1..], es[0].now, late))
  }

  function Allowance(k: Tally, late: nat): nat {
    KEEPALIVE_MS + k.refused * (KEEPALIVE_RETRY_MS + late) + k.unencoded * (KEEPALIVE_MS + late)
  }

  ghost predicate KeepaliveInv(u: Node, k: Tally, late: nat) {
    && k.last <= k.clock
    && (u.session.keepaliveAt.Some? ==>
          && u.session.keepaliveAt.value <= k.clock + KEEPALIVE_MS
          && u.session.keepaliveAt.value <= k.last + Allowance(k, late))
  }

  lemma OneMore(k: Tally, late: nat)
    ensures Allowance(k.(refused := k.refused + 1), late) == Allowance(k, late) + KEEPALIVE_RETRY_MS + late
    ensures Allowance(k.(unencoded := k.unencoded + 1), late) == Allowance(k, late) + KEEPALIVE_MS + late
  {
    assert (k.refused + 1) * (KEEPALIVE_RETRY_MS + late)
        == k.refused * (KEEPALIVE_RETRY_MS + late) + KEEPALIVE_RETRY_MS + late;
    assert (k.unencoded + 1) * (KEEPALIVE_MS + late) == k.unencoded * (KEEPALIVE_MS + late) + KEEPALIVE_MS + late;
  }

  lemma RefetchMoves(codec: Codec, u: Node, now: nat, rand: u32)
    requires NodeInv(u)
    ensures var u' := Refetch(codec, u, now, rand);
      u'.session.keepaliveAt == u.session.keepaliveAt
      || (|u'.tx.accepted| > |u.tx.accepted| && u'.session.keepaliveAt == Some(now + KEEPALIVE_MS))
  {
    var n := PickNonce(rand);
    if CanAsk(codec, u.tx, n) { SendKeepsInv(u.tx, codec.wantConfig(n).value); }
  }

  lemma FiringMoves(codec: Codec, u: Node, now: nat)
    requires NodeInv(u)
    ensures var u', hb := Keepalive(codec, u, now), Scratch(codec.heartbeat(u.session.keepaliveNonce));
      u'.session.keepaliveAt == Some(now +
        if |u'.tx.accepted| == |u.tx.accepted| && hb.Some? then KEEPALIVE_RETRY_MS else KEEPALIVE_MS)
  {
    var hb := Scratch(codec.heartbeat(u.session.keepaliveNonce));
    if hb.Some? { SendKeepsInv(u.tx, hb.value); }
  }

  /** How any other step moves the keepalive deadline: only a transmission or the start does. */
  lemma OthersMove(codec: Codec, u: Node, now: nat, e: NodeEvent)
    requires NodeInv(u) && !(e.KeepaliveFire? && Due(u.session.keepaliveAt, now))
    ensures var u' := NodeStep(codec, u, now, e);
      u'.session.keepaliveAt == u.session.keepaliveAt
      || ((|u'.tx.accepted| > |u.tx.accepted| || u.session.armed != u'.session.armed)
          && u'.session.keepaliveAt == Some(now + KEEPALIVE_MS))
  {
    match e {
      case FrameIn(_, _, rand) => RefetchMoves(codec, u, now, rand);
      case LivenessFire(rand) =>
        var u0 := u.(session := u.session.(livenessAt := None));
        RefetchMoves(codec, u0, now, rand);
      case Forward(raw, _) => SendKeepsInv(u.tx, raw);
      case _ =>
    }
  }

  lemma FiringStep(codec: Codec, u: Node, st: Stamp, k: Tally, late: nat)
    requires NodeInv(u) && KeepaliveInv(u, k, late) && st.event.KeepaliveFire? && Due(u.session.keepaliveAt, st.now)
    requires k.clock <= st.now && Punctual(u.session.keepaliveAt, st.now, late)
    ensures KeepaliveInv(NodeStep(codec, u, st.now, st.event), Note(codec, u, st, k), late)
  {
    OneMore(k, late);
    FiringMoves(codec, u, st.now);
  }

  lemma KeepaliveStep(codec: Codec, u: Node, st: Stamp, k: Tally, late: nat)
    requires NodeInv(u) && KeepaliveInv(u, k, late)
    requires k.clock <= st.now && Punctual(u.session.keepaliveAt, st.now, late)
    ensures KeepaliveInv(NodeStep(codec, u, st.now, st.event), Note(codec, u, st, k), late)
  {
    if st.event.KeepaliveFire? && Due(u.session.keepaliveAt, st.now) {
      FiringStep(codec, u, st, k, late);
    } else {
      OthersMove(codec, u, st.now, st.event);
    }
  }

  /**
   * Keepalive bound: at every point of a run, and up to any later time the keepalive has not
   * overslept, the last accepted transmission is at most 300 s ago, plus 20 s for every keepalive
   * refused by a full queue since (and 300 s for one that could not be encoded), plus lateness.
   */
  lemma {:induction false} KeepaliveBound(codec: Codec, u: Node, es: seq<Stamp>, k: Tally, late: nat, now: nat)
    requires NodeInv(u) && u.session.armed && KeepaliveInv(u, k, late)
    requires KeepalivePunctual(codec, u, es, k.clock, late)
    requires Punctual(NodeRun(codec, u, es).session.keepaliveAt, now, late)
    ensures var k' := Notes(codec, u, es, k); now <= k'.last + Allowance(k', late) + late
    decreases |es|
  {
    if es != [] {
      var u' := NodeStep(codec, u, es[0].now, es[0].event);
      KeepaliveStep(codec, u, es[0], k, late);
      NodeStepKeepsInv(codec, u, es[0].now, es[0].event);
      assert u'.session.armed by { StaysArmed(codec, u, es[0].now, es[0].event); }
      KeepaliveBound(codec, u', es[1..], Note(codec, u, es[0], k), late, now);
    }
  }

  lemma StaysArmed(codec: Codec, u: Node, now: nat, e: NodeEvent)
    requires u.session.armed
    ensures NodeStep(codec, u, now, e).session.armed
  {
  }

  lemma {:induction false} AllEncoded(codec: Codec, u: Node, es: seq<Stamp>, k: Tally)
    requires Lawful(codec) && k.unencoded == 0
    ensures Notes(codec, u, es, k).unencoded == 0
    decreases |es|
  {
    if es != [] {
      assert codec.heartbeat(u.session.keepaliveNonce).Some?;
      AllEncoded(codec, NodeStep(codec, u, es[0].now, es[0].event), es[1..], Note(codec, u, es[0], k));
    }
  }

  /** The session start counts as the first sign of life. */
  lemma StartOpensTally(codec: Codec, u: Node, now: nat, rand: u32, late: nat)
    requires NodeInv(u) && !u.session.armed
    ensures var u' := NodeStep(codec, u, now, Start(rand));
      NodeInv(u') && u'.session.armed && KeepaliveInv(u', Tally(now, now, 0, 0), late)
  {
    NodeStepKeepsInv(codec, u, now, Start(rand));
  }

  /**
   * With work items at most 600 ms late and fewer than 30 keepalives refused in a row, packets are
   * accepted for the UART less than the 15 minutes apart after which the node gives up.
   */
  lemma NodeNeverTimesOut(codec: Codec, u: Node, es: seq<Stamp>, k: Tally, late: nat, now: nat)
    requires Lawful(codec) && NodeInv(u) && u.session.armed && late <= 600
    requires KeepaliveInv(u, k, late) && k.unencoded == 0
    requires KeepalivePunctual(codec, u, es, k.clock, late)
    requires Punctual(NodeRun(codec, u, es).session.keepaliveAt, now, late)
    requires Notes(codec, u, es, k).refused < 30
    ensures now < Notes(codec, u, es, k).last + 900_000
  {
    KeepaliveBound(codec, u, es, k, late, now);
    AllEncoded(codec, u, es, k);
    AllowanceBelow30(Notes(codec, u, es, k), late);
  }

  lemma AllowanceBelow30(k: Tally, late: nat)
    requires k.unencoded == 0 && k.refused < 30 && late <= 600
    ensures Allowance(k, late) + late < 900_000
  {
    assert k.refused * (KEEPALIVE_RETRY_MS + late) <= 29 * (KEEPALIVE_RETRY_MS + late);
    assert k.unencoded * (KEEPALIVE_MS + late) == 0;
  }

  // ---------------------------------------------------------------- exact keepalive times

  /** A step that pushes the keepalive out: start, a real packet, a recovery, or a queued keepalive. */
  predicate Pushes(codec: Codec, u: Node, st: Stamp) {
    var u' := NodeStep(codec, u, st.now, st.event);
    || u'.session.armed != u.session.armed
    || (u.session.armed && st.event.Forward? && st.event.decodable && Accepts(u.tx, st.event.raw))
    || (u.session.phase == Live && u'.session.phase == Refetching)
    || (FiresKeepalive(u, st) && !Refused(codec, u, st))
  }

  predicate FiresKeepalive(u: Node, st: Stamp) { st.event.KeepaliveFire? && Due(u.session.keepaliveAt, st.now) }

  predicate Refused(codec: Codec, u: Node, st: Stamp) {
    var hb := Scratch(codec.heartbeat(u.session.keepaliveNonce));
    FiresKeepalive(u, st) && hb.Some? && !Accepts(u.tx, hb.value)
  }

  /** The last thing that set the keepalive, and when. */
  datatype Beat = Beat(at: nat, refused: bool)

  function BeatAfter(codec: Codec, u: Node, st: Stamp, b: Beat): Beat {
    if Refused(codec, u, st) then Beat(st.now, true) else if Pushes(codec, u, st) then Beat(st.now, false) else b
  }

  function Beats(codec: Codec, u: Node, es: seq<Stamp>, b: Beat): Beat
    decreases |es|
  {
    if es == [] then b
    else Beats(codec, NodeStep(codec, u, es[0].now, es[0].event), es[1..], BeatAfter(codec, u, es[0], b))
  }

  predicate BeatIs(s: Session, b: Beat) {
    s.keepaliveAt == Some(b.at + if b.refused then KEEPALIVE_RETRY_MS else KEEPALIVE_MS)
  }

  lemma BeatStep(codec: Codec, u: Node, st: Stamp, b: Beat)
    requires SessionInv(u.session, u.cache.ready) && u.session.armed && BeatIs(u.session, b)
    ensures var u' := NodeStep(codec, u, st.now, st.event);
      u'.session.armed && BeatIs(u'.session, BeatAfter(codec, u, st, b))
  {
  }

  /**
   * The keepalive fires only after silence: at every point of a run its deadline is exactly 300 s
   * after the last push (real packet forwarded, recovery asked for, keepalive queued or given up),
   * or exactly 20 s after a refused attempt if that came later.
   */
  lemma {:induction false} KeepaliveFiresAfterSilence(codec: Codec, u: Node, es: seq<Stamp>, b: Beat)
    requires NodeInv(u) && u.session.armed && BeatIs(u.session, b)
    ensures BeatIs(NodeRun(codec, u, es).session, Beats(codec, u, es, b))
    decreases |es|
  {
    if es != [] {
      BeatStep(codec, u, es[0], b);
      NodeStepKeepsInv(codec, u, es[0].now, es[0].event);
      KeepaliveFiresAfterSilence(codec, NodeStep(codec, u, es[0].now, es[0].event), es[1..],
                                 BeatAfter(codec, u, es[0], b));
    }
  }

  // ---------------------------------------------------------------- the fetch-retry watchdog

  /** The latest sign of progress of a fetch after a step. */
  function ProgressAfter(u: Node, st: Stamp, last: nat): nat {
    if st.event.FrameIn? && Consumes(u.session, st.event.info) then st.now else last
  }

  /** While the boot fetch lasts, its frames come less than two seconds apart. */
  predicate Steady(codec: Codec, u: Node, es: seq<Stamp>, last: nat)
    decreases |es|
  {
    es == [] || u.session.phase != Fetching ||
    (es[0].now < last + FETCH_RETRY_MS
     && Steady(codec, NodeStep(codec, u, es[0].now, es[0].event), es[1..], ProgressAfter(u, es[0], last)))
  }

  /** As long as the boot fetch lasts, its retry does not come due. */
  predicate Unretried(codec: Codec, u: Node, es: seq<Stamp>)
    decreases |es|
  {
    es == [] || u.session.phase != Fetching ||
    (!(es[0].event.FetchRetryFire? && Due(u.session.fetchRetryAt, es[0].now))
     && Unretried(codec, NodeStep(codec, u, es[0].now, es[0].event), es[1..]))
  }

  lemma ProgressStep(codec: Codec, u: Node, st: Stamp, last: nat)
    requires NodeInv(u) && u.session.phase == Fetching && u.session.fetchRetryAt == Some(last + FETCH_RETRY_MS)
    requires st.now < last + FETCH_RETRY_MS
    ensures var u' := NodeStep(codec, u, st.now, st.event);
      u'.session.phase == Fetching ==>
        u'.session.fetchRetryAt == Some(ProgressAfter(u, st, last) + FETCH_RETRY_MS)
  {
  }

  /**
   * A no-progress watchdog, not a deadline: however long the boot burst takes, as long as its
   * frames keep coming within two seconds of each other the retry never comes due, so the burst
   * is neither restarted nor its partial cache thrown away.
   */
  lemma {:induction false} SteadyBurstIsNotRestarted(codec: Codec, u: Node, es: seq<Stamp>, last: nat)
    requires NodeInv(u) && u.session.phase == Fetching && u.session.fetchRetryAt == Some(last + FETCH_RETRY_MS)
    requires Steady(codec, u, es, last)
    ensures Unretried(codec, u, es)
    decreases |es|
  {
    if es != [] {
      var u' := NodeStep(codec, u, es[0].now, es[0].event);
      ProgressStep(codec, u, es[0], last);
      NodeStepKeepsInv(codec, u, es[0].now, es[0].event);
      if u'.session.phase == Fetching {
        SteadyBurstIsNotRestarted(codec, u', es[1..], ProgressAfter(u, es[0], last));
      }
    }
  }

  // ---------------------------------------------------------------- the liveness watchdog

  /** A frame that proves the node's session is alive: delivered to phones while LIVE. */
  predicate Genuine(u: Node, e: NodeEvent) {
    && u.session.phase == Live
    && e.FrameIn? && e.info.variant != 8 && !(e.info.variant == 11 && u.session.keepalivePending)
  }

  /** The liveness watchdog expires now, while LIVE. */
  predicate Expires(u: Node, now: nat, e: NodeEvent) {
    e.LivenessFire? && u.session.phase == Live && Due(u.session.livenessAt, now)
  }

  /** ... and its want_config cannot be encoded or queued. */
  predicate ExpiresInVain(codec: Codec, u: Node, now: nat, e: NodeEvent) {
    Expires(u, now, e) && !CanAsk(codec, u.tx, PickNonce(e.rand))
  }

  /** Whether the watchdog is lost after a step: an expiry in vain, or lost before and nothing genuine since. */
  predicate LostAfter(codec: Codec, u: Node, st: Stamp, lost: bool) {
    ExpiresInVain(codec, u, st.now, st.event) || (lost && u.session.phase == Live && !Genuine(u, st.event))
  }

  /** History: the last expiry was in vain, and nothing genuine has arrived since. */
  function Lost(codec: Codec, u: Node, es: seq<Stamp>, lost: bool): bool
    decreases |es|
  {
    if es == [] then lost
    else Lost(codec, NodeStep(codec, u, es[0].now, es[0].event), es[1..], LostAfter(codec, u, es[0], lost))
  }

  predicate ArmedUnless(s: Session, lost: bool) { s.phase == Live ==> (s.livenessAt.None? <==> lost) }

  lemma LivenessStep(codec: Codec, u: Node, st: Stamp, lost: bool)
    requires SessionInv(u.session, u.cache.ready) && ArmedUnless(u.session, lost)
    ensures ArmedUnless(NodeStep(codec, u, st.now, st.event).session, LostAfter(codec, u, st, lost))
  {
  }

  /** While LIVE the liveness watchdog is armed, except exactly after an expiry in vain. */
  lemma {:induction false} LivenessArmedUnlessLost(codec: Codec, u: Node, es: seq<Stamp>, lost: bool)
    requires NodeInv(u) && ArmedUnless(u.session, lost)
    ensures ArmedUnless(NodeRun(codec, u, es).session, Lost(codec, u, es, lost))
    decreases |es|
  {
    if es != [] {
      NodeStepKeepsInv(codec, u, es[0].now, es[0].event);
      LivenessStep(codec, u, es[0], lost);
      LivenessArmedUnlessLost(codec, NodeStep(codec, u, es[0].now, es[0].event), es[1..],
                              LostAfter(codec, u, es[0], lost));
    }
  }

  /** The node sends nothing but replies to our keepalives, one per keepalive, before the next one. */
  predicate OnlyReplies(codec: Codec, u: Node, es: seq<Stamp>, awaiting: bool)
    decreases |es|
  {
    es == [] ||
    (var e, u' := es[0].event, NodeStep(codec, u, es[0].now, es[0].event);
     if e.FrameIn? then e.info.variant == QUEUE_STATUS && awaiting && OnlyReplies(codec, u', es[1..], false)
     else if e.KeepaliveFire? && Due(u.session.keepaliveAt, es[0].now)
             && Scratch(codec.heartbeat(u.session.keepaliveNonce)).Some? then
       OnlyReplies(codec, u', es[1..], |u'.tx.accepted| > |u.tx.accepted|)
     else OnlyReplies(codec, u', es[1..], awaiting))
  }

  predicate LivenessPunctual(codec: Codec, u: Node, es: seq<Stamp>, late: nat)
    decreases |es|
  {
    es == [] ||
    (&& Punctual(u.session.livenessAt, es[0].now, late)
     && LivenessPunctual(codec, NodeStep(codec, u, es[0].now, es[0].event), es[1..], late))
  }

  /** The first expiry of a run, if any. */
  function FirstExpiry(codec: Codec, u: Node, es: seq<Stamp>): (k: nat)
    ensures k <= |es|
    decreases |es|
  {
    if es == [] then 0
    else if Expires(u, es[0].now, es[0].event) then 0
    else 1 + FirstExpiry(codec, NodeStep(codec, u, es[0].now, es[0].event), es[1..])
  }

  /** Until an expiry, a run of mere replies leaves the session LIVE with its liveness deadline. */
  lemma RepliesAreNoProof(codec: Codec, u: Node, now: nat, e: NodeEvent)
    requires NodeInv(u) && u.session.phase == Live && !Expires(u, now, e)
    requires e.FrameIn? ==> e.info.variant == QUEUE_STATUS && u.session.keepalivePending
    ensures var s, s' := u.session, NodeStep(codec, u, now, e).session;
      && s'.phase == Live && s'.livenessAt == s.livenessAt && s'.nonce == s.nonce
      && s'.keepalivePending ==
           if e.FrameIn? then false
           else if e.KeepaliveFire? && Due(s.keepaliveAt, now) && Scratch(codec.heartbeat(s.keepaliveNonce)).Some?
           then |NodeStep(codec, u, now, e).tx.accepted| > |u.tx.accepted|
           else s.keepalivePending
  {
    var hb := Scratch(codec.heartbeat(u.session.keepaliveNonce));
    if hb.Some? { SendKeepsInv(u.tx, hb.value); }
  }

  /**
   * Dead-session detection: a LIVE session that hears only replies to its own keepalives tries a
   * new want_config by the liveness deadline set by its last genuine frame (plus lateness).
   */
  lemma {:induction false} DeadSessionDetected(codec: Codec, u: Node, es: seq<Stamp>, late: nat, now: nat)
    requires NodeInv(u) && u.session.phase == Live && u.session.livenessAt.Some?
    requires OnlyReplies(codec, u, es, u.session.keepalivePending)
    requires LivenessPunctual(codec, u, es, late)
    requires Punctual(NodeRun(codec, u, es).session.livenessAt, now, late)
    requires now > u.session.livenessAt.value + late
    ensures var k := FirstExpiry(codec, u, es);
      && k < |es|
      && es[k].now <= u.session.livenessAt.value + late
    decreases |es|
  {
    if es != [] && !Expires(u, es[0].now, es[0].event) {
      NodeStepKeepsInv(codec, u, es[0].now, es[0].event);
      RepliesAreNoProof(codec, u, es[0].now, es[0].event);
      DeadSessionDetected(codec, NodeStep(codec, u, es[0].now, es[0].event), es[1..], late, now);
    }
  }

  /** A genuine frame buys exactly 30 minutes; the reply to a keepalive buys none. */
  lemma OnlyGenuineFramesBuyTime(codec: Codec, u: Node, now: nat, e: NodeEvent)
    requires NodeInv(u) && u.session.phase == Live && e.FrameIn? && e.info.variant != REBOOTED
    ensures NodeStep(codec, u, now, e).session.livenessAt
         == if Genuine(u, e) then Some(now + LIVENESS_MS) else u.session.livenessAt
  {
  }

  /**
   * From the last sign of life on: if after a genuine frame at time `t` the node sends nothing but
   * replies to keepalives, the session tries a new want_config within 30 minutes, plus lateness.
   */
  lemma DeadSessionDetectedInTime(
    codec: Codec, u: Node, t: nat, e: NodeEvent, u': Node, es: seq<Stamp>, late: nat, now: nat)
    requires NodeInv(u) && Genuine(u, e) && u' == NodeStep(codec, u, t, e)
    requires OnlyReplies(codec, u', es, u'.session.keepalivePending) && LivenessPunctual(codec, u', es, late)
    requires Punctual(NodeRun(codec, u', es).session.livenessAt, now, late) && now > t + LIVENESS_MS + late
    ensures var k := FirstExpiry(codec, u', es); k < |es| && es[k].now <= t + LIVENESS_MS + late
  {
    NodeStepKeepsInv(codec, u, t, e);
    OnlyGenuineFramesBuyTime(codec, u, t, e);
    DeadSessionDetected(codec, u', es, late, now);
  }

  ghost predicate IsHeartbeat(codec: Codec, p: Bytes) { exists n: u32 :: codec.heartbeat(n) == Some(p) }

  /** A phone's packet passed on in this run, or a keepalive. */
  ghost predicate NoRequest(codec: Codec, es: seq<Stamp>, p: Bytes) {
    IsHeartbeat(codec, p) || exists st :: st in es && st.event.Forward? && st.event.raw == p
  }

  /** While mere replies come in, a session that does not expire asks nothing. */
  lemma RepliesSendNothing(codec: Codec, u: Node, st: Stamp)
    requires NodeInv(u) && u.session.phase == Live && !Expires(u, st.now, st.event)
    requires st.event.FrameIn? ==> st.event.info.variant == QUEUE_STATUS && u.session.keepalivePending
    ensures var u' := NodeStep(codec, u, st.now, st.event);
      u'.tx.accepted == u.tx.accepted
      || exists p :: u'.tx.accepted == u.tx.accepted + [p] && NoRequest(codec, [st], p)
  {
    var u' := NodeStep(codec, u, st.now, st.event);
    StepSends(codec, u, st.now, st.event);
    if u'.tx.accepted != u.tx.accepted {
      var p :| u'.tx.accepted == u.tx.accepted + [p] && Sendable(codec, u, st.event, u'.session.nonce, p);
      assert st in [st];
      assert NoRequest(codec, [st], p);
    }
  }

  /**
   * Lost for good: after an expiry in vain, a node that sends at most keepalive replies is never
   * asked again. The session stays LIVE, unwatched, and everything accepted for the UART from then
   * on is a phone's packet or a keepalive.
   */
  lemma {:induction false} LostForGood(codec: Codec, u: Node, es: seq<Stamp>)
    requires NodeInv(u) && u.session.phase == Live && u.session.livenessAt.None?
    requires OnlyReplies(codec, u, es, u.session.keepalivePending)
    ensures var v := NodeRun(codec, u, es);
      && v.session.phase == Live && v.session.livenessAt.None?
      && u.tx.accepted <= v.tx.accepted
      && forall k :: |u.tx.accepted| <= k < |v.tx.accepted| ==> NoRequest(codec, es, v.tx.accepted[k])
    decreases |es|
  {
    if es != [] {
      var u', v := NodeStep(codec, u, es[0].now, es[0].event), NodeRun(codec, u, es);
      NodeStepKeepsInv(codec, u, es[0].now, es[0].event);
      RepliesAreNoProof(codec, u, es[0].now, es[0].event);
      RepliesSendNothing(codec, u, es[0]);
      LostForGood(codec, u', es[1..]);
      forall k | |u.tx.accepted| <= k < |v.tx.accepted| ensures NoRequest(codec, es, v.tx.accepted[k]) {
        if k < |u'.tx.accepted| {
          assert NoRequest(codec, [es[0]], u'.tx.accepted[k]);
        } else {
          assert NoRequest(codec, es[1..], v.tx.accepted[k]);
        }
      }
    }
  }

  // ---------------------------------------------------------------- swallowed replies

  /** Whether a step queues a keepalive, and whether it keeps a queueStatus frame from the phones. */
  predicate QueuesKeepalive(codec: Codec, u: Node, st: Stamp) {
    st.event.KeepaliveFire? && |NodeStep(codec, u, st.now, st.event).tx.accepted| > |u.tx.accepted|
  }

  predicate SwallowsReply(u: Node, e: NodeEvent) {
    e.FrameIn? && !InFetch(u.session.phase) && e.info.variant == 11 && u.session.keepalivePending
  }

  /** Keepalives queued and replies swallowed in a run. */
  function Queued(codec: Codec, u: Node, es: seq<Stamp>): nat
    decreases |es|
  {
    if es == [] then 0
    else (if QueuesKeepalive(codec, u, es[0]) then 1 else 0)
         + Queued(codec, NodeStep(codec, u, es[0].now, es[0].event), es[1..])
  }

  function Swallowed(codec: Codec, u: Node, es: seq<Stamp>): nat
    decreases |es|
  {
    if es == [] then 0
    else (if SwallowsReply(u, es[0].event) then 1 else 0)
         + Swallowed(codec, NodeStep(codec, u, es[0].now, es[0].event), es[1..])
  }

  /** The expectation of a reply is raised by a queued keepalive and spent by a swallowed reply. */
  lemma ExpectationStep(codec: Codec, u: Node, st: Stamp)
    requires PumpInv(u.tx)
    ensures var pending' := NodeStep(codec, u, st.now, st.event).session.keepalivePending;
      && (SwallowsReply(u, st.event) ==> u.session.keepalivePending && !pending')
      && (pending' ==> u.session.keepalivePending || QueuesKeepalive(codec, u, st))
  {
    var hb := Scratch(codec.heartbeat(u.session.keepaliveNonce));
    if st.event.KeepaliveFire? && hb.Some? { SendKeepsInv(u.tx, hb.value); }
  }

  /** No more queueStatus frames are kept from the phones than keepalives were queued. */
  lemma {:induction false} SwallowsAtMostKeepalives(codec: Codec, u: Node, es: seq<Stamp>)
    requires NodeInv(u)
    ensures Swallowed(codec, u, es) <= Queued(codec, u, es) + (if u.session.keepalivePending then 1 else 0)
    decreases |es|
  {
    if es != [] {
      NodeStepKeepsInv(codec, u, es[0].now, es[0].event);
      ExpectationStep(codec, u, es[0]);
      SwallowsAtMostKeepalives(codec, NodeStep(codec, u, es[0].now, es[0].event), es[1..]);
    }
  }
}
