/** What the router does with every frame from the node, and with a stray terminator. */
module Routing {
  import opened Prelude
  import opened Wire
  import opened ConfigCache
  import opened Phones
  import opened Upstream
  import opened Proxy
  import R = Replay
  import opened Watchdogs
  import opened Teardown
  import opened Invariants

  /** The frame is kept from the phones: burst content, reboot notice, or reply to our keepalive. */
  predicate Withheld(s: Session, info: FromRadio) {
    || ((s.phase == Fetching || s.phase == Refetching) && info.variant != 2)
    || info.variant == 8
    || (info.variant == 11 && s.keepalivePending)
  }

  /** A proxied packet whose header parses. */
  predicate Proxied(info: FromRadio) {
    && info.variant == PACKET && info.decoded && info.portnum == P.PROXY_PORTNUM
    && P.Parse(info.payload).Some?
  }

  function Destination(info: FromRadio): Bytes
    requires Proxied(info)
  {
    P.Parse(info.payload).value.dst
  }

  /** Where `Route` sends a frame, in terms of the slots. */
  lemma RouteDelivers(codec: Codec, fs: seq<Frame>, t: Table, raw: Bytes, info: FromRadio)
    ensures var a, b := t.slots, TableStep(codec, fs, t, Route(raw, info)).slots;
      if Proxied(info) && Registered(a, Destination(info))
      then exists k: nat :: OfferedToLowest(a, b, Destination(info), raw, k)
      else OfferedToAll(a, b, raw)
  {
    if Proxied(info) { TargetedDelivery(codec, fs, t, Destination(info), raw); }
  }

  lemma WithheldMeansNoDelivery(codec: Codec, s: Session, raw: Bytes, info: FromRadio)
    requires s.pending == []
    ensures Deliveries(codec, s, raw, info) == if Withheld(s, info) then [] else [Route(raw, info)]
  {
  }

  /**
   * Disposition of every frame: an undecodable one is offered to all phones; a withheld one to
   * none; a proxied packet whose header names a registered phone to exactly the lowest slot with
   * that id; everything else to all phones.
   */
  lemma FrameDisposition(codec: Codec, s: System, now: nat, raw: Bytes, rand: u32)
    requires SystemInv(s)
    ensures var a, b, info := s.table.slots, OnFrame(codec, s, now, raw, rand).table.slots, codec.fromRadio(raw);
      if info.None? then OfferedToAll(a, b, raw)
      else if Withheld(s.node.session, info.value) then b == a
      else if Proxied(info.value) && Registered(a, Destination(info.value))
      then exists k: nat :: OfferedToLowest(a, b, Destination(info.value), raw, k)
      else OfferedToAll(a, b, raw)
  {
    var info, fs := codec.fromRadio(raw), s.node.cache.frames;
    if info.Some? {
      WithheldMeansNoDelivery(codec, s.node.session, raw, info.value);
      RunOfOne(codec, fs, s.table, Route(raw, info.value));
      RouteDelivers(codec, fs, s.table, raw, info.value);
    }
  }

  /**
   * Targeted routing end to end: a payload laid out for a registered destination is delivered to
   * that phone alone, in every phase of the session.
   */
  lemma BuiltHeaderFindsItsPhone(codec: Codec, s: System, now: nat, raw: Bytes, rand: u32, h: P.Header)
    requires SystemInv(s) && |h.src| == P.ID_SIZE && |h.dst| == P.ID_SIZE
    requires codec.fromRadio(raw) == Some(FromRadio(PACKET, true, P.PROXY_PORTNUM, P.Layout(h)))
    ensures var a, b := s.table.slots, OnFrame(codec, s, now, raw, rand).table.slots;
      if Registered(a, h.dst) then exists k: nat :: OfferedToLowest(a, b, h.dst, raw, k)
      else OfferedToAll(a, b, raw)
  {
    P.ParseInvertsLayout(P.Layout(h), h);
    FrameDisposition(codec, s, now, raw, rand);
  }

  /**
   * The stray terminator: received during a recovery, it is still appended to the published
   * cache, and a phone that had already been served its terminator, whose next read would have
   * been the closing empty one, is served the terminator a second time.
   */
  lemma StrayTerminatorRepeats(codec: Codec, s: System, now: nat, raw: Bytes, rand: u32, c: Conn, len: nat)
    requires SystemInv(s) && s.node.session.phase == Refetching && SlotOf(s.table, c).Some?
    requires codec.fromRadio(raw).Some? && codec.fromRadio(raw).value.variant == CONFIG_COMPLETE
    requires codec.completeNonce(raw) != Some(s.node.session.nonce)
    requires |s.node.cache.frames| < MAX_FRAMES && TotalBytes(s.node.cache.frames) + |raw| <= ARENA_BYTES
    requires var slot := SlotOf(s.table, c).value;
      slot.state == Replaying && slot.cc != [] && slot.cursor == |s.node.cache.frames| + 1
    ensures var s', slot := OnFrame(codec, s, now, raw, rand), SlotOf(s.table, c).value;
      && ReadBy(s, c, 0, len) == Some([])
      && s'.node.cache.frames == s.node.cache.frames + [Frame(raw, CONFIG_COMPLETE)]
      && ReadBy(s', c, 0, len) == Chunk(slot.cc, 0, len)
  {
    var s', slot, fs := OnFrame(codec, s, now, raw, rand), SlotOf(s.table, c).value, s.node.cache.frames;
    R.TerminatorAgainIffGrown(fs, fs, slot);
    R.TerminatorAgainIffGrown(fs, s'.node.cache.frames, slot);
  }

  /** Published for good: through any run of the proxy, every phone's segment stays as it was. */
  lemma PublishedForGood(codec: Codec, s: System, es: seq<Moment>, nonce: u32)
    requires SystemInv(s) && s.node.cache.ready
    ensures SystemRun(codec, s, es).node.cache.ready
    ensures Segment(SystemRun(codec, s, es).node.cache.frames, nonce) == Segment(s.node.cache.frames, nonce)
  {
    SessionFollowsTrace(codec, s, es);
    PublishedCacheIsStable(codec, s.node, Trace(codec, s, es), nonce);
  }
}
