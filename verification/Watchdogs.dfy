/** Run-long facts about the session: phases, nonces, timers that stay armed, the cache that stays put. */
module Watchdogs {
  import opened Prelude
  import opened Wire
  import opened ConfigCache
  import opened UartTx
  import opened Upstream
  import opened Replay

  /** Phases, timers and nonces. `ready` is the cache's publish flag. */
  predicate SessionInv(s: Session, ready: bool) {
    // CACHE_READY is never seen between handlers; the publish flag follows the phase.
    && s.phase != CacheReady
    && (ready <==> s.phase == Live || s.phase == Refetching)
    && (s.phase != Boot ==> s.armed)
    && (s.keepaliveAt.Some? <==> s.armed)
    && (s.fetchRetryAt.Some? <==> InFetch(s.phase))
    && (s.armed ==> s.nonce >= 2)
    && s.keepaliveNonce >= 2
  }

  predicate CacheFits(fs: seq<Frame>) { |fs| <= MAX_FRAMES && TotalBytes(fs) <= ARENA_BYTES }

  ghost predicate NodeInv(u: Node) {
    SessionInv(u.session, u.cache.ready) && CacheFits(u.cache.frames) && PumpInv(u.tx)
  }

  // ---------------------------------------------------------------- what is sent to the node

  /** Whether handler `e` may have put payload `p` on the transmit queue, ending with nonce `nonce`. */
  ghost predicate Sendable(codec: Codec, u: Node, e: NodeEvent, nonce: u32, p: Bytes) {
    || (e.Forward? && p == e.raw)
    || ((e.Start? || e.FrameIn? || e.FetchRetryFire? || e.LivenessFire?)
        && nonce >= 2 && codec.wantConfig(nonce) == Some(p))
    || (e.KeepaliveFire? && u.session.keepaliveNonce >= 2 && codec.heartbeat(u.session.keepaliveNonce) == Some(p))
  }

  lemma SendKeepsInv(t: Pump, p: Bytes)
    requires PumpInv(t)
    ensures PumpInv(Send(t, p))
    ensures Send(t, p).accepted == t.accepted + (if Accepts(t, p) then [p] else [])
  {
    PumpStepKeepsInv(t, Put(p));
    PumpStepKeepsInv(TxStep(t, Put(p)), Submit);
  }

  /** Only a put accepts anything. */
  lemma OtherStepsAcceptNothing(t: Pump, e: TxEvent)
    requires PumpInv(t) && !e.Put?
    ensures PumpInv(TxStep(t, e)) && TxStep(t, e).accepted == t.accepted
  {
    PumpStepKeepsInv(t, e);
  }

  lemma WorkerSteps(t: Pump, ok: bool, t1: Pump, t2: Pump, t3: Pump, t4: Pump)
    requires PumpInv(t) && t1 == TxStep(t, Enter) && t2 == TxStep(t1, Check)
    requires t3 == TxStep(t2, Take) && t4 == TxStep(t3, Launch(ok))
    ensures PumpInv(t4) && t4.accepted == t.accepted
  {
    OtherStepsAcceptNothing(t, Enter);
    OtherStepsAcceptNothing(t1, Check);
    OtherStepsAcceptNothing(t2, Take);
    OtherStepsAcceptNothing(t3, Launch(ok));
  }

  lemma WorkerKeepsInv(t: Pump, ok: bool)
    requires PumpInv(t)
    ensures PumpInv(RunWorker(t, ok)) && RunWorker(t, ok).accepted == t.accepted
  {
    var t1 := TxStep(t, Enter);
    var t2 := TxStep(t1, Check);
    WorkerSteps(t, ok, t1, t2, TxStep(t2, Take), RunWorker(t, ok));
  }

  /** The transmitter's own events. */
  predicate PumpEvent(e: NodeEvent) { e.TxWork? || e.TxPart? || e.TxDone? || e.TxAborted? }

  /** A timer or frame handler either leaves the pump alone or sends one packet it may send. */
  lemma HandlerSends(codec: Codec, u: Node, now: nat, e: NodeEvent)
    requires SessionInv(u.session, u.cache.ready) && !PumpEvent(e)
    ensures var u' := NodeStep(codec, u, now, e);
      u'.tx == u.tx || exists p :: Sendable(codec, u, e, u'.session.nonce, p) && u'.tx == Send(u.tx, p)
  {
    var u' := NodeStep(codec, u, now, e);
    if e.Forward? {
      assert Sendable(codec, u, e, u'.session.nonce, e.raw);
    } else if e.KeepaliveFire? {
      var hb := codec.heartbeat(u.session.keepaliveNonce);
      assert hb.Some? ==> Sendable(codec, u, e, u'.session.nonce, hb.value);
    } else if !e.ParkRequest? {
      var wc := codec.wantConfig(u'.session.nonce);
      assert wc.Some? && u'.session.nonce >= 2 ==> Sendable(codec, u, e, u'.session.nonce, wc.value);
    }
  }

  /** The transmitter's own events accept nothing. */
  lemma PumpEventsAccept(codec: Codec, u: Node, now: nat, e: NodeEvent)
    requires PumpInv(u.tx) && PumpEvent(e)
    ensures var t' := NodeStep(codec, u, now, e).tx; PumpInv(t') && t'.accepted == u.tx.accepted
  {
    match e {
      case TxWork(ok) => WorkerKeepsInv(u.tx, ok);
      case TxPart(part) => if !part.Put? { OtherStepsAcceptNothing(u.tx, part); }
      case TxDone => OtherStepsAcceptNothing(u.tx, Done);
      case TxAborted(sent) => OtherStepsAcceptNothing(u.tx, Abort(sent));
    }
  }

  /** A handler accepts at most one packet for transmission, and only one it may send. */
  lemma StepSends(codec: Codec, u: Node, now: nat, e: NodeEvent)
    requires NodeInv(u)
    ensures var u' := NodeStep(codec, u, now, e);
      && PumpInv(u'.tx)
      && (u'.tx.accepted == u.tx.accepted
          || exists p :: u'.tx.accepted == u.tx.accepted + [p] && Sendable(codec, u, e, u'.session.nonce, p))
  {
    if PumpEvent(e) {
      PumpEventsAccept(codec, u, now, e);
    } else {
      var u' := NodeStep(codec, u, now, e);
      HandlerSends(codec, u, now, e);
      if u'.tx != u.tx {
        var p :| Sendable(codec, u, e, u'.session.nonce, p) && u'.tx == Send(u.tx, p);
        SendKeepsInv(u.tx, p);
      }
    }
  }

  // ---------------------------------------------------------------- invariants

  lemma AddFits(fs: seq<Frame>, f: Frame)
    requires CacheFits(fs)
    ensures CacheFits(Add(fs, f))
  {
    assert (fs + [f])[..|fs|] == fs;
  }

  lemma SessionStep(codec: Codec, u: Node, now: nat, e: NodeEvent)
    requires SessionInv(u.session, u.cache.ready)
    ensures var u' := NodeStep(codec, u, now, e); SessionInv(u'.session, u'.cache.ready)
  {
  }

  lemma CacheStep(codec: Codec, u: Node, now: nat, e: NodeEvent)
    requires CacheFits(u.cache.frames)
    ensures CacheFits(NodeStep(codec, u, now, e).cache.frames)
  {
    if e.FrameIn? { AddFits(u.cache.frames, Frame(e.raw, e.info.variant)); }
  }

  lemma NodeStepKeepsInv(codec: Codec, u: Node, now: nat, e: NodeEvent)
    requires NodeInv(u)
    ensures NodeInv(NodeStep(codec, u, now, e))
  {
    SessionStep(codec, u, now, e);
    CacheStep(codec, u, now, e);
    StepSends(codec, u, now, e);
  }

  /**
   * Watchdogs stay alive: in every reachable state the fetch-retry timer is armed exactly while a
   * fetch is open, the keepalive is armed from start on, and no nonce in use is 0 or 1.
   */
  lemma {:induction false} WatchdogsStayAlive(codec: Codec, u: Node, es: seq<Stamp>)
    requires NodeInv(u)
    ensures NodeInv(NodeRun(codec, u, es))
    decreases |es|
  {
    if es != [] {
      NodeStepKeepsInv(codec, u, es[0].now, es[0].event);
      WatchdogsStayAlive(codec, NodeStep(codec, u, es[0].now, es[0].event), es[1..]);
    }
  }

  lemma InitialNode()
    ensures NodeInv(NODE_INIT)
  {
  }

  // ---------------------------------------------------------------- phases and nonces

  /** Every phase change a handler can make, and what it takes. */
  lemma PhaseChanges(codec: Codec, u: Node, now: nat, e: NodeEvent)
    requires NodeInv(u)
    ensures var p, p' := u.session.phase, NodeStep(codec, u, now, e).session.phase;
      p == p'
      || (p == Boot && p' == Fetching && e.Start?)
      || (InFetch(p) && p' == Live && e.FrameIn? && Closes(codec, u.session, e.raw, e.info))
      || (p == Live && p' == Refetching && (e.LivenessFire? || (e.FrameIn? && e.info.variant == REBOOTED))
          && CanAsk(codec, u.tx, PickNonce(e.rand)))
    ensures InFetch(u.session.phase) && NodeStep(codec, u, now, e).session.phase == Live
       <==> InFetch(u.session.phase) && e.FrameIn? && Closes(codec, u.session, e.raw, e.info)
  {
  }

  /** The whole run stays in one phase. */
  predicate StaysIn(codec: Codec, u: Node, es: seq<Stamp>, p: Phase)
    decreases |es|
  {
    u.session.phase == p
    && (es == [] || StaysIn(codec, NodeStep(codec, u, es[0].now, es[0].event), es[1..], p))
  }

  lemma NonceFixed(codec: Codec, u: Node, now: nat, e: NodeEvent)
    requires NodeInv(u) && InFetch(u.session.phase)
    ensures NodeStep(codec, u, now, e).session.nonce == u.session.nonce
  {
  }

  /** Within a fetch the nonce is fixed: retries and stray terminators do not change it. */
  lemma {:induction false} OneNoncePerFetch(codec: Codec, u: Node, es: seq<Stamp>, p: Phase)
    requires NodeInv(u) && InFetch(p) && StaysIn(codec, u, es, p)
    ensures NodeRun(codec, u, es).session.nonce == u.session.nonce
    decreases |es|
  {
    if es != [] {
      NonceFixed(codec, u, es[0].now, es[0].event);
      NodeStepKeepsInv(codec, u, es[0].now, es[0].event);
      OneNoncePerFetch(codec, NodeStep(codec, u, es[0].now, es[0].event), es[1..], p);
    }
  }

  // ---------------------------------------------------------------- the published cache

  /** What later steps may do to a published cache: append stray terminators, nothing else. */
  ghost predicate StillServes(c: Cache, c': Cache) { c'.ready && GrownByTerminators(c.frames, c'.frames) }

  lemma PublishedStep(codec: Codec, u: Node, now: nat, e: NodeEvent)
    requires NodeInv(u) && u.cache.ready
    ensures StillServes(u.cache, NodeStep(codec, u, now, e).cache)
    ensures NodeStep(codec, u, now, e).cache != u.cache ==>
              u.session.phase == Refetching && e.FrameIn? && e.info.variant == CONFIG_COMPLETE
  {
  }

  lemma {:induction false} PublishedRun(codec: Codec, u: Node, es: seq<Stamp>)
    requires NodeInv(u) && u.cache.ready
    ensures StillServes(u.cache, NodeRun(codec, u, es).cache)
    decreases |es|
  {
    if es != [] {
      var u' := NodeStep(codec, u, es[0].now, es[0].event);
      NodeStepKeepsInv(codec, u, es[0].now, es[0].event);
      PublishedStep(codec, u, es[0].now, es[0].event);
      PublishedRun(codec, u', es[1..]);
    }
  }

  /**
   * Once published the cache stays published, and every phone's segment stays the same, through
   * every later run: recoveries, retries, expiries and stray terminators included.
   */
  lemma PublishedCacheIsStable(codec: Codec, u: Node, es: seq<Stamp>, nonce: u32)
    requires NodeInv(u) && u.cache.ready
    ensures NodeRun(codec, u, es).cache.ready
    ensures Segment(NodeRun(codec, u, es).cache.frames, nonce) == Segment(u.cache.frames, nonce)
  {
    PublishedRun(codec, u, es);
    GrowthKeepsSegments(u.cache.frames, NodeRun(codec, u, es).cache.frames, nonce, 0);
  }

  // ---------------------------------------------------------------- what the cache holds

  /** The boot fetch starts over: a partial burst is discarded. */
  predicate StartsOver(u: Node, st: Stamp) {
    u.session.phase == Fetching && st.event.FetchRetryFire? && Due(u.session.fetchRetryAt, st.now)
  }

  /** The boot fetch offers the frame it just received to the cache. */
  predicate Collects(codec: Codec, u: Node, st: Stamp) {
    && u.session.phase == Fetching && st.event.FrameIn?
    && st.event.info.variant != PACKET && !Closes(codec, u.session, st.event.raw, st.event.info)
  }

  /** History: the frames offered to the cache since the boot fetch last started over. */
  function OfferedAfter(codec: Codec, u: Node, st: Stamp, offered: seq<Frame>): seq<Frame> {
    if StartsOver(u, st) then []
    else if Collects(codec, u, st) then offered + [Frame(st.event.raw, st.event.info.variant)]
    else offered
  }

  function Offers(codec: Codec, u: Node, es: seq<Stamp>, offered: seq<Frame>): seq<Frame>
    decreases |es|
  {
    if es == [] then offered
    else Offers(codec, NodeStep(codec, u, es[0].now, es[0].event), es[1..], OfferedAfter(codec, u, es[0], offered))
  }

  /** The cache is the greedy selection of `sel`'s offers; once published, stray terminators may follow it. */
  ghost predicate Selects(u: Node, sel: seq<Frame>) {
    if u.cache.ready then GrownByTerminators(sel, u.cache.frames) else u.cache.frames == sel
  }

  lemma CacheWhileFetching(codec: Codec, u: Node, st: Stamp)
    requires SessionInv(u.session, u.cache.ready) && u.session.phase == Fetching
    ensures var u' := NodeStep(codec, u, st.now, st.event);
      && u'.session.phase != Boot
      && (StartsOver(u, st) ==> u'.cache == Cache([], false))
      && (Collects(codec, u, st) ==>
            u'.cache == Cache(Add(u.cache.frames, Frame(st.event.raw, st.event.info.variant)), false))
      && (!StartsOver(u, st) && !Collects(codec, u, st) ==> u'.cache.frames == u.cache.frames)
  {
  }

  lemma CacheBeforeStart(codec: Codec, u: Node, st: Stamp)
    requires SessionInv(u.session, u.cache.ready) && u.session.phase == Boot && u.cache.frames == []
    ensures NodeStep(codec, u, st.now, st.event).cache == Cache([], false)
  {
  }

  lemma SelectionStep(codec: Codec, u: Node, st: Stamp, offered: seq<Frame>)
    requires NodeInv(u) && Selects(u, Greedy(offered)) && (u.session.phase == Boot ==> offered == [])
    ensures var u', offered' := NodeStep(codec, u, st.now, st.event), OfferedAfter(codec, u, st, offered);
      Selects(u', Greedy(offered')) && (u'.session.phase == Boot ==> offered' == [])
  {
    if u.session.phase == Fetching {
      CacheWhileFetching(codec, u, st);
      if Collects(codec, u, st) { GreedyNext(offered, Frame(st.event.raw, st.event.info.variant)); }
    } else if u.session.phase == Boot {
      CacheBeforeStart(codec, u, st);
    } else {
      PublishedStep(codec, u, st.now, st.event);
      PhaseChanges(codec, u, st.now, st.event);
    }
  }

  /**
   * What the cache holds, at every point of every run: the greedy in-order selection of the
   * non-packet frames received since the boot fetch last started over (its retries discard a
   * partial burst), followed after publication by stray terminators only.
   */
  lemma {:induction false} CacheHoldsLastAttempt(codec: Codec, u: Node, es: seq<Stamp>, offered: seq<Frame>)
    requires NodeInv(u) && Selects(u, Greedy(offered)) && (u.session.phase == Boot ==> offered == [])
    ensures Selects(NodeRun(codec, u, es), Greedy(Offers(codec, u, es, offered)))
    decreases |es|
  {
    if es != [] {
      SelectionStep(codec, u, es[0], offered);
      NodeStepKeepsInv(codec, u, es[0].now, es[0].event);
      CacheHoldsLastAttempt(codec, NodeStep(codec, u, es[0].now, es[0].event), es[1..],
                            OfferedAfter(codec, u, es[0], offered));
    }
  }
}
