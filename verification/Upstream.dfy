/**
 * The proxy's single session with the node (src/upstream_session.c), together with the cache it
 * fills and the transmit queue it writes to. Phones reach it only through `Forward` and
 * `ParkPhone`, so it runs on its own, whatever the phones do.
 */
module Upstream {
  import opened Prelude
  import opened Wire
  import opened ConfigCache
  import opened UartTx

  const KEEPALIVE_MS := 300_000
  const KEEPALIVE_RETRY_MS := 20_000
  const FETCH_RETRY_MS := 2_000
  const LIVENESS_MS := 1_800_000
  const MAX_PENDING := 6

  datatype Phase = Boot | Fetching | CacheReady | Live | Refetching

  datatype Session = Session(
    phase: Phase,
    nonce: u32,
    pending: seq<nat>,        // phones parked until the cache is ready
    keepaliveAt: Timer,
    fetchRetryAt: Timer,
    livenessAt: Timer,
    armed: bool,              // the work items have been initialised
    keepaliveNonce: u32,
    keepalivePending: bool)   // the reply to our keepalive is outstanding

  datatype Node = Node(session: Session, cache: Cache, tx: Pump)

  const NODE_INIT := Node(Session(Boot, 0, [], None, None, None, false, 2, false), Cache([], false), TX_INIT)

  predicate InFetch(p: Phase) { p == Fetching || p == Refetching }

  /** Nonces 0 and 1 are special to the node and never used. */
  function PickNonce(rand: u32): u32 { if rand == 0 || rand == 1 then 2 else rand }

  function NextKeepaliveNonce(n: u32): u32 { PickNonce(Inc32(n)) }

  // ---------------------------------------------------------------- hooks

  function KeepaliveReschedule(s: Session, now: nat): Session {
    if s.armed then s.(keepaliveAt := Some(now + KEEPALIVE_MS)) else s
  }

  function LivenessKick(s: Session, now: nat): Session {
    if s.phase == Live then s.(livenessAt := Some(now + LIVENESS_MS)) else s
  }

  /** Whether `send_want_config` would succeed now. */
  predicate CanAsk(codec: Codec, tx: Pump, nonce: u32) {
    codec.wantConfig(nonce).Some? && Accepts(tx, codec.wantConfig(nonce).value)
  }

  function Ask(codec: Codec, tx: Pump, nonce: u32): Pump {
    if codec.wantConfig(nonce).Some? then Send(tx, codec.wantConfig(nonce).value) else tx
  }

  // ---------------------------------------------------------------- operations

  function StartSession(codec: Codec, u: Node, now: nat, rand: u32): Node {
    var s := u.session.(armed := true, keepaliveAt := Some(now + KEEPALIVE_MS), nonce := PickNonce(rand));
    if codec.wantConfig(s.nonce).None? then u.(session := s)
    else Node(s.(pending := [], phase := Fetching, fetchRetryAt := Some(now + FETCH_RETRY_MS)),
              Cache([], false), Ask(codec, u.tx, s.nonce))
  }

  function Refetch(codec: Codec, u: Node, now: nat, rand: u32): Node {
    if u.session.phase == Boot || InFetch(u.session.phase) then u
    else
      var s := u.session.(nonce := PickNonce(rand));
      if CanAsk(codec, u.tx, s.nonce) then
        u.(session := KeepaliveReschedule(s.(phase := Refetching, fetchRetryAt := Some(now + FETCH_RETRY_MS)), now),
           tx := Ask(codec, u.tx, s.nonce))
      else u.(session := s)
  }

  function FetchRetry(codec: Codec, u: Node, now: nat): Node {
    var s := u.session.(fetchRetryAt := None);
    if !InFetch(s.phase) then u.(session := s)
    else
      Node(s.(fetchRetryAt := Some(now + FETCH_RETRY_MS)),
           if s.phase == Fetching then Cache([], false) else u.cache,
           Ask(codec, u.tx, s.nonce))
  }

  function LivenessExpiry(codec: Codec, u: Node, now: nat, rand: u32): Node {
    var u' := u.(session := u.session.(livenessAt := None));
    if u.session.phase == Live then Refetch(codec, u', now, rand) else u'
  }

  function Keepalive(codec: Codec, u: Node, now: nat): Node {
    var n := u.session.keepaliveNonce;
    var s := u.session.(keepaliveNonce := NextKeepaliveNonce(n), keepaliveAt := Some(now + KEEPALIVE_MS));
    var hb := Scratch(codec.heartbeat(n));
    if hb.None? then u.(session := s)
    else if Accepts(u.tx, hb.value) then
      u.(session := s.(keepalivePending := true), tx := Send(u.tx, hb.value))
    else
      u.(session := s.(keepalivePending := false, keepaliveAt := Some(now + KEEPALIVE_RETRY_MS)))
  }

  /** A frame the session takes for itself instead of leaving it to the router. */
  predicate Consumes(s: Session, info: FromRadio) { InFetch(s.phase) && info.variant != PACKET }

  /** A terminator carrying the session's own nonce. */
  predicate Closes(codec: Codec, s: Session, raw: Bytes, info: FromRadio) {
    info.variant == CONFIG_COMPLETE && codec.completeNonce(raw) == Some(s.nonce)
  }

  function Consume(codec: Codec, u: Node, now: nat, raw: Bytes, info: FromRadio): Node {
    var s := u.session.(fetchRetryAt := Some(now + FETCH_RETRY_MS));
    if Closes(codec, s, raw, info) then
      u.(session := LivenessKick(s.(phase := Live, fetchRetryAt := None,
                                    pending := if s.phase == Fetching then [] else s.pending), now),
         cache := if s.phase == Fetching then u.cache.(ready := true) else u.cache)
    else if info.variant == CONFIG_COMPLETE || s.phase == Fetching then
      u.(session := s, cache := u.cache.(frames := Add(u.cache.frames, Frame(raw, info.variant))))
    else u.(session := s)
  }

  /** The reply to our own keepalive, which no phone gets to see. */
  predicate Swallows(s: Session, info: FromRadio) {
    info.variant == QUEUE_STATUS && s.keepalivePending
  }

  /** The session's side of `router_dispatch`. */
  function DispatchFrame(codec: Codec, u: Node, now: nat, raw: Bytes, info: FromRadio, rand: u32): Node {
    if Consumes(u.session, info) then Consume(codec, u, now, raw, info)
    else if info.variant == REBOOTED then Refetch(codec, u, now, rand)
    else if Swallows(u.session, info) then u.(session := u.session.(keepalivePending := false))
    else u.(session := LivenessKick(u.session, now))
  }

  function ForwardWrite(u: Node, now: nat, raw: Bytes, decodable: bool): Node {
    u.(tx := Send(u.tx, raw),
       session := if decodable && Accepts(u.tx, raw) then KeepaliveReschedule(u.session, now) else u.session)
  }

  function ParkPhone(u: Node, c: nat): Node {
    if u.cache.ready || c in u.session.pending || |u.session.pending| >= MAX_PENDING then u
    else u.(session := u.session.(pending := u.session.pending + [c]))
  }

  // ---------------------------------------------------------------- the machine

  datatype NodeEvent =
    | Start(rand: u32)
    | FrameIn(raw: Bytes, info: FromRadio, rand: u32)
    | KeepaliveFire
    | FetchRetryFire
    | LivenessFire(rand: u32)
    | Forward(raw: Bytes, decodable: bool)
    | ParkRequest(conn: nat)
    | TxWork(ok: bool)         // the whole work handler at once
    | TxPart(part: TxEvent)    // one step of it
    | TxDone
    | TxAborted(sent: nat)

  /** One handler run; a timer handler runs only when its work item is due. */
  function NodeStep(codec: Codec, u: Node, now: nat, e: NodeEvent): Node {
    match e
    case Start(rand) => if u.session.armed then u else StartSession(codec, u, now, rand)
    case FrameIn(raw, info, rand) => DispatchFrame(codec, u, now, raw, info, rand)
    case KeepaliveFire => if Due(u.session.keepaliveAt, now) then Keepalive(codec, u, now) else u
    case FetchRetryFire => if Due(u.session.fetchRetryAt, now) then FetchRetry(codec, u, now) else u
    case LivenessFire(rand) =>
      if Due(u.session.livenessAt, now) then LivenessExpiry(codec, u, now, rand) else u
    case Forward(raw, decodable) => ForwardWrite(u, now, raw, decodable)
    case ParkRequest(c) => ParkPhone(u, c)
    case TxWork(ok) => u.(tx := RunWorker(u.tx, ok))
    case TxPart(part) => if part.Put? || part.Submit? then u else u.(tx := TxStep(u.tx, part))
    case TxDone => u.(tx := TxStep(u.tx, Done))
    case TxAborted(sent) => u.(tx := TxStep(u.tx, Abort(sent)))
  }

  datatype Stamp = Stamp(now: nat, event: NodeEvent)

  function NodeRun(codec: Codec, u: Node, es: seq<Stamp>): Node
    decreases |es|
  {
    if es == [] then u else NodeRun(codec, NodeStep(codec, u, es[0].now, es[0].event), es[1..])
  }

  function AllAt(now: nat, es: seq<NodeEvent>): seq<Stamp> {
    seq(|es|, i requires 0 <= i < |es| => Stamp(now, es[i]))
  }

  lemma NodeRunOfOne(codec: Codec, u: Node, now: nat, e: NodeEvent)
    ensures NodeRun(codec, u, AllAt(now, [e])) == NodeStep(codec, u, now, e)
  {
    assert AllAt(now, [e]) == [Stamp(now, e)];
    assert [Stamp(now, e)][1..] == [];
  }
}
