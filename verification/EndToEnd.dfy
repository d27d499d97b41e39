/** From bytes on the node's serial line to the reads of a phone. */
module EndToEnd {
  import opened Prelude
  import opened Wire
  import opened ConfigCache
  import opened UartRx
  import opened Phones
  import opened Upstream
  import opened Proxy
  import R = Replay
  import opened Watchdogs
  import opened Teardown
  import opened Invariants
  import opened Isolation
  import opened Timing

  // ---------------------------------------------------------------- the boot fetch

  predicate Decodes(codec: Codec, raw: Bytes) { codec.fromRadio(raw).Some? }

  predicate IsMeta(codec: Codec, raw: Bytes) {
    Decodes(codec, raw) && codec.fromRadio(raw).value.variant != PACKET
  }

  /** What a frame contributes to the cache: itself if it is decodable and no live mesh packet. */
  function MetaOf(codec: Codec, raw: Bytes): seq<Frame> {
    if IsMeta(codec, raw) then [Frame(raw, codec.fromRadio(raw).value.variant)] else []
  }

  /** The frames of a burst that belong in the cache. */
  function Meta(codec: Codec, raws: seq<Bytes>): seq<Frame>
    decreases |raws|
  {
    if raws == [] then [] else MetaOf(codec, raws[0]) + Meta(codec, raws[1..])
  }

  function Decodable(codec: Codec, raws: seq<Bytes>): seq<Bytes>
    decreases |raws|
  {
    if raws == [] then []
    else if Decodes(codec, raws[0]) then [raws[0]] + Decodable(codec, raws[1..])
    else Decodable(codec, raws[1..])
  }

  /** A frame that ends the fetch with this nonce. */
  predicate Terminator(codec: Codec, nonce: u32, raw: Bytes) {
    && Decodes(codec, raw) && codec.fromRadio(raw).value.variant == CONFIG_COMPLETE
    && codec.completeNonce(raw) == Some(nonce)
  }

  /** The frames that reach the session in a run of its own events. */
  function Incoming(es: seq<Stamp>): seq<Bytes>
    decreases |es|
  {
    if es == [] then []
    else if es[0].event.FrameIn? then [es[0].event.raw] + Incoming(es[1..])
    else Incoming(es[1..])
  }

  predicate Faithful(codec: Codec, es: seq<Stamp>) {
    forall st :: st in es && st.event.FrameIn? ==> codec.fromRadio(st.event.raw) == Some(st.event.info)
  }

  predicate NoExpiry(es: seq<Stamp>) { forall st :: st in es ==> !st.event.LivenessFire? }

  lemma QuietStep(codec: Codec, u: Node, now: nat, e: NodeEvent)
    requires SessionInv(u.session, u.cache.ready) && u.session.phase == Live && !e.LivenessFire? && !e.FrameIn?
    ensures var u' := NodeStep(codec, u, now, e); u'.session.phase == Live && u'.cache == u.cache
  {
  }

  lemma {:induction false} QuietOnceLive(codec: Codec, u: Node, es: seq<Stamp>)
    requires NodeInv(u) && u.session.phase == Live && Incoming(es) == [] && NoExpiry(es)
    ensures NodeRun(codec, u, es).session.phase == Live && NodeRun(codec, u, es).cache == u.cache
    decreases |es|
  {
    if es != [] {
      assert es[0] in es;
      QuietStep(codec, u, es[0].now, es[0].event);
      NodeStepKeepsInv(codec, u, es[0].now, es[0].event);
      QuietOnceLive(codec, NodeStep(codec, u, es[0].now, es[0].event), es[1..]);
    }
  }

  lemma QuietWhileFetching(codec: Codec, u: Node, now: nat, e: NodeEvent)
    requires NodeInv(u) && u.session.phase == Fetching && !e.FrameIn?
    requires !(e.FetchRetryFire? && Due(u.session.fetchRetryAt, now))
    ensures var u' := NodeStep(codec, u, now, e);
      u'.session.phase == Fetching && u'.session.nonce == u.session.nonce && u'.cache == u.cache
  {
  }

  /** One frame of the boot burst: cached if it is meta, passed by if it is a packet, closing if it is ours. */
  lemma FrameWhileFetching(codec: Codec, u: Node, now: nat, raw: Bytes, rand: u32)
    requires NodeInv(u) && u.session.phase == Fetching && Decodes(codec, raw)
    ensures var u' := NodeStep(codec, u, now, FrameIn(raw, codec.fromRadio(raw).value, rand));
      if Terminator(codec, u.session.nonce, raw) then
        u'.session.phase == Live && u'.cache == Cache(u.cache.frames, true)
      else
        && u'.session.phase == Fetching && u'.session.nonce == u.session.nonce && !u'.cache.ready
        && u'.cache.frames ==
             if IsMeta(codec, raw) then Add(u.cache.frames, Frame(raw, codec.fromRadio(raw).value.variant))
             else u.cache.frames
  {
  }

  /** The selection `sel` after one more frame of the burst. */
  function Offer1(codec: Codec, sel: seq<Frame>, raw: Bytes): seq<Frame> {
    if IsMeta(codec, raw) then Add(sel, Frame(raw, codec.fromRadio(raw).value.variant)) else sel
  }

  function OfferBurst(codec: Codec, sel: seq<Frame>, burst: seq<Bytes>): seq<Frame>
    decreases |burst|
  {
    if burst == [] then sel else OfferBurst(codec, Offer1(codec, sel, burst[0]), burst[1..])
  }

  lemma Offer1IsGreedy(codec: Codec, offered: seq<Frame>, raw: Bytes)
    ensures Offer1(codec, Greedy(offered), raw) == Greedy(offered + MetaOf(codec, raw))
  {
    if IsMeta(codec, raw) {
      GreedyNext(offered, Frame(raw, codec.fromRadio(raw).value.variant));
    } else {
      assert offered + [] == offered;
    }
  }

  lemma MetaHead(codec: Codec, offered: seq<Frame>, burst: seq<Bytes>)
    requires burst != []
    ensures offered + Meta(codec, burst) == (offered + MetaOf(codec, burst[0])) + Meta(codec, burst[1..])
  {
    ConcatAssoc(offered, MetaOf(codec, burst[0]), Meta(codec, burst[1..]));
  }

  /** Frame by frame or all at once: the greedy selection is the same. */
  lemma {:induction false} OfferBurstIsGreedy(
    codec: Codec, offered: seq<Frame>, burst: seq<Bytes>, sel: seq<Frame>, all: seq<Frame>)
    requires sel == Greedy(offered) && all == offered + Meta(codec, burst)
    ensures OfferBurst(codec, sel, burst) == Greedy(all)
    decreases |burst|
  {
    if burst == [] {
      assert all == offered;
    } else {
      var f := MetaOf(codec, burst[0]);
      Offer1IsGreedy(codec, offered, burst[0]);
      MetaHead(codec, offered, burst);
      OfferBurstIsGreedy(codec, offered + f, burst[1..], Offer1(codec, sel, burst[0]), all);
    }
  }

  lemma IncomingHead(es: seq<Stamp>, burst: seq<Bytes>, last: Bytes, after: seq<Bytes>)
    requires es != [] && es[0].event.FrameIn? && Incoming(es) == burst + [last] + after
    ensures if burst == [] then es[0].event.raw == last && Incoming(es[1..]) == after
            else es[0].event.raw == burst[0] && Incoming(es[1..]) == burst[1..] + [last] + after
  {
    assert Incoming(es)[1..] == Incoming(es[1..]);
    if burst == [] {
      assert (burst + [last] + after)[1..] == after;
    } else {
      assert (burst + [last] + after)[1..] == burst[1..] + [last] + after;
    }
  }

  /** A boot fetch that is still to hear `burst`, then its terminator, then anything. */
  ghost predicate UnderWay(codec: Codec, u: Node, es: seq<Stamp>, burst: seq<Bytes>, last: Bytes, after: seq<Bytes>) {
    && NodeInv(u) && u.session.phase == Fetching
    && Faithful(codec, es) && Unretried(codec, u, es) && Incoming(es) == burst + [last] + after
    && (forall r :: r in burst ==> !Terminator(codec, u.session.nonce, r))
    && Terminator(codec, u.session.nonce, last)
  }

  /**
   * The run ends with the cache published and holding `selected`, stray terminators of later
   * recoveries aside; a run that ends quietly, with neither expiry nor frame, ends LIVE with just that.
   */
  ghost predicate Publishes(codec: Codec, u: Node, es: seq<Stamp>, selected: seq<Frame>, quiet: bool) {
    var u' := NodeRun(codec, u, es);
    && u'.cache.ready && R.GrownByTerminators(selected, u'.cache.frames)
    && (quiet ==> u'.session.phase == Live && u'.cache.frames == selected)
  }

  lemma UnderWayQuietly(codec: Codec, u: Node, es: seq<Stamp>, burst: seq<Bytes>, last: Bytes, after: seq<Bytes>)
    requires UnderWay(codec, u, es, burst, last, after) && es != [] && !es[0].event.FrameIn?
    ensures var u' := NodeStep(codec, u, es[0].now, es[0].event);
      UnderWay(codec, u', es[1..], burst, last, after) && u'.cache == u.cache
  {
    NodeStepKeepsInv(codec, u, es[0].now, es[0].event);
    QuietWhileFetching(codec, u, es[0].now, es[0].event);
  }

  lemma UnderWayByFrame(codec: Codec, u: Node, es: seq<Stamp>, burst: seq<Bytes>, last: Bytes, after: seq<Bytes>)
    requires UnderWay(codec, u, es, burst, last, after) && es != [] && es[0].event.FrameIn? && burst != []
    ensures var u' := NodeStep(codec, u, es[0].now, es[0].event);
      && UnderWay(codec, u', es[1..], burst[1..], last, after)
      && u'.cache.frames == Offer1(codec, u.cache.frames, burst[0])
  {
    assert es[0] in es && burst[0] in burst;
    IncomingHead(es, burst, last, after);
    NodeStepKeepsInv(codec, u, es[0].now, es[0].event);
    FrameWhileFetching(codec, u, es[0].now, burst[0], es[0].event.rand);
  }

  lemma ClosingFrame(codec: Codec, u: Node, es: seq<Stamp>, last: Bytes, after: seq<Bytes>, quiet: bool)
    requires UnderWay(codec, u, es, [], last, after) && es != [] && es[0].event.FrameIn?
    requires quiet ==> after == [] && NoExpiry(es)
    ensures Publishes(codec, u, es, u.cache.frames, quiet)
  {
    var u' := NodeStep(codec, u, es[0].now, es[0].event);
    assert es[0] in es;
    IncomingHead(es, [], last, after);
    NodeStepKeepsInv(codec, u, es[0].now, es[0].event);
    FrameWhileFetching(codec, u, es[0].now, last, es[0].event.rand);
    PublishedRun(codec, u', es[1..]);
    if quiet { QuietOnceLive(codec, u', es[1..]); }
  }

  lemma PublishesFrom(codec: Codec, u: Node, es: seq<Stamp>, selected: seq<Frame>, quiet: bool)
    requires es != [] && Publishes(codec, NodeStep(codec, u, es[0].now, es[0].event), es[1..], selected, quiet)
    ensures Publishes(codec, u, es, selected, quiet)
  {
  }

  /**
   * The boot fetch publishes what offering the burst's non-packet frames one by one selects,
   * whatever else the session does meanwhile and whatever arrives after the terminator.
   */
  lemma {:induction false} FetchPublishesBurst(
    codec: Codec, u: Node, es: seq<Stamp>, burst: seq<Bytes>, last: Bytes, after: seq<Bytes>, quiet: bool)
    requires UnderWay(codec, u, es, burst, last, after) && (quiet ==> after == [] && NoExpiry(es))
    ensures Publishes(codec, u, es, OfferBurst(codec, u.cache.frames, burst), quiet)
    decreases |es|
  {
    assert Incoming(es) != [] && es != [];
    var u' := NodeStep(codec, u, es[0].now, es[0].event);
    if !es[0].event.FrameIn? {
      UnderWayQuietly(codec, u, es, burst, last, after);
      FetchPublishesBurst(codec, u', es[1..], burst, last, after, quiet);
      PublishesFrom(codec, u, es, OfferBurst(codec, u.cache.frames, burst), quiet);
    } else if burst == [] {
      ClosingFrame(codec, u, es, last, after, quiet);
    } else {
      UnderWayByFrame(codec, u, es, burst, last, after);
      FetchPublishesBurst(codec, u', es[1..], burst[1..], last, after, quiet);
      PublishesFrom(codec, u, es, OfferBurst(codec, u.cache.frames, burst), quiet);
    }
  }

  // ---------------------------------------------------------------- the receiver's share of a run

  function RxTrace(es: seq<Moment>): seq<RxStamp>
    decreases |es|
  {
    if es == [] then []
    else
      var e := RxEvents(es[0].event);
      if e.Some? then [RxStamp(es[0].now, e.value)] + RxTrace(es[1..]) else RxTrace(es[1..])
  }

  lemma {:induction false} IncomingConcat(a: seq<Stamp>, b: seq<Stamp>)
    ensures Incoming(a + b) == Incoming(a) + Incoming(b)
    decreases |a|
  {
    if a == [] { assert a + b == b; } else { assert (a + b)[1..] == a[1..] + b; IncomingConcat(a[1..], b); }
  }

  lemma {:induction false} DecodableConcat(codec: Codec, a: seq<Bytes>, b: seq<Bytes>)
    ensures Decodable(codec, a + b) == Decodable(codec, a) + Decodable(codec, b)
    decreases |a|
  {
    if a == [] { assert a + b == b; } else { assert (a + b)[1..] == a[1..] + b; DecodableConcat(codec, a[1..], b); }
  }

  lemma {:induction false} FrameTraceIncoming(codec: Codec, now: nat, raws: seq<Bytes>, rands: seq<u32>)
    ensures Incoming(FrameTrace(codec, now, raws, rands)) == Decodable(codec, raws)
    ensures Faithful(codec, FrameTrace(codec, now, raws, rands)) && NoExpiry(FrameTrace(codec, now, raws, rands))
    decreases |raws|
  {
    if raws != [] {
      FrameTraceIncoming(codec, now, raws[1..], Rest(rands));
      var info, rest := codec.fromRadio(raws[0]), FrameTrace(codec, now, raws[1..], Rest(rands));
      if info.Some? { assert ([Stamp(now, FrameIn(raws[0], info.value, Draw(rands)))] + rest)[1..] == rest; }
    }
  }

  /** The liveness watchdog does not come into a run. */
  predicate Unwatched(es: seq<Moment>) { forall m :: m in es ==> !m.event.LivenessDue? }

  lemma StepIncoming(codec: Codec, s: System, now: nat, e: Event)
    ensures var t := StepTrace(codec, s, now, e);
      && Incoming(t) == Decodable(codec, FramesOf(s, e)) && Faithful(codec, t) && (!e.LivenessDue? ==> NoExpiry(t))
  {
    if e.RxWork? {
      FrameTraceIncoming(codec, now, FramesOf(s, e), e.rands);
    } else {
      var ne := NodeEvents(codec, s, e);
      NodeEventsPlain(codec, s, e);
      if ne != [] {
        assert ne == [ne[0]] && ne[0] in ne;
        assert AllAt(now, ne) == [Stamp(now, ne[0])];
        assert [Stamp(now, ne[0])][1..] == [];
      }
    }
  }

  lemma ReceiverOutputStep(codec: Codec, rx: Rx, es: seq<Moment>)
    requires es != []
    ensures var e, rest := es[0].event, es[1..];
      Decodable(codec, RxOutput(rx, RxTrace(es)))
        == Decodable(codec, if e.RxWork? then RxFrames(rx, Work) else [])
         + Decodable(codec, RxOutput(RxAfter(rx, es[0].now, e), RxTrace(rest)))
  {
    var x, rest := RxEvents(es[0].event), es[1..];
    if x.Some? {
      assert ([RxStamp(es[0].now, x.value)] + RxTrace(rest))[1..] == RxTrace(rest);
      DecodableConcat(codec, RxFrames(rx, x.value), RxOutput(RxStep(rx, es[0].now, x.value), RxTrace(rest)));
    }
  }

  /** The session receives, in order, the decodable frames that the receiver emits. */
  lemma {:induction false} SessionHearsReceiver(codec: Codec, s: System, es: seq<Moment>)
    requires SystemInv(s)
    ensures var t := Trace(codec, s, es);
      && Incoming(t) == Decodable(codec, RxOutput(s.rx, RxTrace(es))) && Faithful(codec, t)
      && (Unwatched(es) ==> NoExpiry(t))
    decreases |es|
  {
    if es != [] {
      var now, e, rest := es[0].now, es[0].event, es[1..];
      assert es[0] in es;
      var s' := Step(codec, s, now, e);
      StepKeepsInv(codec, s, now, e);
      ReceiverRunsAlone(codec, s, now, e);
      StepIncoming(codec, s, now, e);
      SessionHearsReceiver(codec, s', rest);
      IncomingConcat(StepTrace(codec, s, now, e), Trace(codec, s', rest));
      ReceiverOutputStep(codec, s.rx, es);
    }
  }

  lemma {:induction false} MetaOfDecodable(codec: Codec, raws: seq<Bytes>)
    ensures Meta(codec, Decodable(codec, raws)) == Meta(codec, raws)
    ensures forall r :: r in Decodable(codec, raws) ==> r in raws
    decreases |raws|
  {
    if raws != [] {
      MetaOfDecodable(codec, raws[1..]);
      if Decodes(codec, raws[0]) {
        assert ([raws[0]] + Decodable(codec, raws[1..]))[1..] == Decodable(codec, raws[1..]);
      }
    }
  }

  /** Bytes on the line: the rest of a frame half received, if there is one, then framed payloads in noise. */
  datatype Line = Line(head: Bytes, noise: seq<Bytes>, framed: seq<Bytes>)

  ghost predicate Carried(l: Line, bytes: Bytes) {
    && |l.noise| == |l.framed| + 1
    && (forall n :: n in l.noise ==> Clean(n)) && (forall r :: r in l.framed ==> FrameSized(r))
    && bytes == l.head + Stream(l.noise, l.framed)
  }

  /** What the line carried: frames, one of them ending the fetch, anything after it. */
  ghost predicate BurstOnTheLine(
    codec: Codec, nonce: u32, dec: Decoder, bytes: Bytes, l: Line, burst: seq<Bytes>, last: Bytes, after: seq<Bytes>)
  {
    && Carried(l, bytes) && Decode(dec, l.head).0 == WaitMagic1
    && Decode(dec, l.head).1 + l.framed == burst + [last] + after
    && (forall r :: r in burst ==> !Terminator(codec, nonce, r)) && Terminator(codec, nonce, last)
  }

  /** The line's bytes reach the decoder promptly after its last work run at `w0`, and are all processed. */
  predicate Received(rx: Rx, es: seq<Moment>, w0: nat) {
    && (rx.dec != WaitMagic1 ==> rx.resyncAt == Some(w0 + RESYNC_MS))
    && Prompt(rx, RxTrace(es), w0) && RxRun(rx, RxTrace(es)).ring == []
  }

  /**
   * A line that stalled or was restarted recovers: from then on the session hears every decodable
   * frame that follows, exactly, whatever was half received before.
   */
  lemma SessionHearsAfterRestart(
    codec: Codec, s: System, now: nat, e: Event, es: seq<Moment>, run: seq<Moment>, l: Line)
    requires SystemInv(s) && (e.RxDown? || (e.RxStalled? && Due(s.rx.resyncAt, now))) && run == [Moment(now, e)] + es
    requires Carried(l, s.rx.ring + Arrived(RxTrace(es))) && l.head == []
    requires Prompt(RxAfter(s.rx, now, e), RxTrace(es), 0) && RxRun(RxAfter(s.rx, now, e), RxTrace(es)).ring == []
    ensures Incoming(Trace(codec, s, run)) == Decodable(codec, l.framed)
  {
    var x: RxEvent := if e.RxDown? then Disabled else Resync;
    assert run[1..] == es;
    assert RxTrace(run) == [RxStamp(now, x)] + RxTrace(es);
    assert [] + Stream(l.noise, l.framed) == Stream(l.noise, l.framed);
    RestartRecovers(s.rx, now, x, RxTrace(es), l.noise, l.framed);
    SessionHearsReceiver(codec, s, run);
  }

  /** The boot fetch has just been opened, or started over, at time `t0`. */
  predicate FetchOpen(u: Node, t0: nat) {
    u.session.phase == Fetching && u.cache.frames == [] && u.session.fetchRetryAt == Some(t0 + FETCH_RETRY_MS)
  }

  lemma ReceiverEmits(
    codec: Codec, rx: Rx, es: seq<Moment>, w0: nat, bytes: Bytes, nonce: u32,
    l: Line, burst: seq<Bytes>, last: Bytes, after: seq<Bytes>)
    requires Received(rx, es, w0) && bytes == rx.ring + Arrived(RxTrace(es))
    requires BurstOnTheLine(codec, nonce, rx.dec, bytes, l, burst, last, after)
    ensures RxOutput(rx, RxTrace(es)) == burst + [last] + after
  {
    var t := RxTrace(es);
    PromptIsUndisturbed(rx, t, w0);
    ChunkingIsInvisible(rx, t);
    FramingRoundTrip(l.noise, l.framed);
    DecodeConcat(rx.dec, l.head, Stream(l.noise, l.framed));
    assert RxOutput(rx, t) + [] == RxOutput(rx, t);
  }

  lemma DecodableParts(codec: Codec, burst: seq<Bytes>, last: Bytes, after: seq<Bytes>)
    requires Decodes(codec, last)
    ensures Decodable(codec, burst + [last] + after) == Decodable(codec, burst) + [last] + Decodable(codec, after)
  {
    DecodableConcat(codec, burst, [last]);
    DecodableConcat(codec, burst + [last], after);
    assert Decodable(codec, [last]) == [last] by { assert [last][1..] == []; }
  }

  /**
   * From serial bytes to published cache: however the line's bytes are chunked and whatever the
   * phones, the transmitter and the timers do meanwhile, as long as bytes come within 250 ms and
   * frames within two seconds of each other, once the receiver has caught up the cache is
   * published and holds the greedy selection of the burst's non-packet frames, followed at most by
   * stray terminators of later recoveries.
   */
  lemma BurstReachesCache(
    codec: Codec, s: System, es: seq<Moment>, t0: nat, w0: nat, bytes: Bytes,
    l: Line, burst: seq<Bytes>, last: Bytes, after: seq<Bytes>)
    requires SystemInv(s) && FetchOpen(s.node, t0)
    requires Steady(codec, s.node, Trace(codec, s, es), t0) && Received(s.rx, es, w0)
    requires bytes == s.rx.ring + Arrived(RxTrace(es))
    requires BurstOnTheLine(codec, s.node.session.nonce, s.rx.dec, bytes, l, burst, last, after)
    ensures var u, selected := SystemRun(codec, s, es).node, Greedy(Meta(codec, burst));
      && u.cache.ready && R.GrownByTerminators(selected, u.cache.frames)
      && (Unwatched(es) && after == [] ==> u.session.phase == Live && u.cache.frames == selected)
  {
    var t, quiet := Trace(codec, s, es), Unwatched(es) && after == [];
    ReceiverEmits(codec, s.rx, es, w0, bytes, s.node.session.nonce, l, burst, last, after);
    SessionHearsReceiver(codec, s, es);
    SteadyBurstIsNotRestarted(codec, s.node, t, t0);
    DecodableParts(codec, burst, last, after);
    MetaOfDecodable(codec, burst);
    FetchPublishesBurst(codec, s.node, t, Decodable(codec, burst), last, Decodable(codec, after), quiet);
    assert Meta(codec, burst) == [] + Meta(codec, Decodable(codec, burst));
    OfferBurstIsGreedy(codec, [], Decodable(codec, burst), [], Meta(codec, burst));
    SessionFollowsTrace(codec, s, es);
  }

  // ---------------------------------------------------------------- the phone's drain

  /** The phone's reads during a run up to its next fresh one: they continue the last one. */
  function Continuation(codec: Codec, s: System, es: seq<Moment>, c: Conn): seq<R.Piece>
    decreases |es|
  {
    if es == [] || IsFreshRead(es[0].event, c) then []
    else
      var e, rest := es[0].event, Continuation(codec, Step(codec, s, es[0].now, es[0].event), es[1..], c);
      if e.Reads? && e.conn == c then [R.Piece(e.offset, e.len, ReadBy(s, c, e.offset, e.len))] + rest else rest
  }

  /** The phone's fresh reads during a run, each with its continuation. */
  function FreshReads(codec: Codec, s: System, es: seq<Moment>, c: Conn): seq<R.Fresh>
    decreases |es|
  {
    if es == [] then []
    else
      var e, s' := es[0].event, Step(codec, s, es[0].now, es[0].event);
      if IsFreshRead(e, c) then
        var pieces := [R.Piece(0, e.len, ReadBy(s, c, 0, e.len))] + Continuation(codec, s', es[1..], c);
        [R.Fresh(|s.node.cache.frames|, pieces)] + FreshReads(codec, s', es[1..], c)
      else FreshReads(codec, s', es[1..], c)
  }

  /** Long reads in runs of the proxy: the reads that continue a fresh one return parts of the packet it staged. */
  lemma {:induction false} ContinuationOfStaged(codec: Codec, s: System, es: seq<Moment>, c: Conn)
    requires SystemInv(s) && SlotOf(s.table, c).Some? && forall m :: m in es ==> m.event != Drops(c)
    ensures R.PartsOf(SlotOf(s.table, c).value.staged, Continuation(codec, s, es, c))
    decreases |es|
  {
    if es != [] && !IsFreshRead(es[0].event, c) {
      assert es[0] in es;
      StagedAfter(codec, s, es[0].now, es[0].event, c);
      StepKeepsInv(codec, s, es[0].now, es[0].event);
      ContinuationOfStaged(codec, Step(codec, s, es[0].now, es[0].event), es[1..], c);
    }
  }

  /** The phone keeps its link and is not answered another want_config. */
  predicate Draining(codec: Codec, s: System, es: seq<Moment>, c: Conn)
    decreases |es|
  {
    es == [] ||
    (&& es[0].event != Drops(c) && !(AsksAgain(codec, es[0].event, c) && s.node.session.phase == Live)
     && Draining(codec, Step(codec, s, es[0].now, es[0].event), es[1..], c))
  }

  lemma {:induction false} DrainingKeepsLink(codec: Codec, s: System, es: seq<Moment>, c: Conn)
    requires Draining(codec, s, es, c)
    ensures forall m :: m in es ==> m.event != Drops(c)
    decreases |es|
  {
    if es != [] { DrainingKeepsLink(codec, Step(codec, s, es[0].now, es[0].event), es[1..], c); }
  }

  predicate AsksAgain(codec: Codec, e: Event, c: Conn) {
    e.Writes? && e.conn == c && codec.toRadio(e.data).Some? && codec.toRadio(e.data).value.WantConfig?
  }

  /** Slots that look the same stand the same. */
  lemma StandingByLooks(fs: seq<Frame>, a: Slot, b: Slot, left: seq<Bytes>, last: nat)
    requires Look(a) == Look(b) && R.Standing(fs, a, left, last)
    ensures R.Standing(fs, b, left, last)
  {
  }

  /** One step of a run during which phone `c` drains its replay. */
  lemma DrainStep(codec: Codec, s: System, now: nat, e: Event, c: Conn)
    requires SystemInv(s) && SlotOf(s.table, c).Some?
    requires e != Drops(c) && !(AsksAgain(codec, e, c) && s.node.session.phase == Live)
    ensures var fs, a, b := s.node.cache.frames, SlotOf(s.table, c).value, SlotOf(Step(codec, s, now, e).table, c);
      && b.Some?
      && Look(b.value) == if e.Reads? && e.conn == c && e.offset == 0 then Look(Stage(fs, a)) else Look(a)
  {
    if Author(e) == Some(c) {
      OwnStep(codec, s, now, e, c);
      OwnDrainEvents(codec, s.node.cache.frames, SlotOf(s.table, c).value, s.node.session.phase, now, e, c);
    } else {
      OthersStep(codec, s, now, e, c);
    }
  }

  /** Short of asking again while LIVE, a phone's own events change its looks only by fresh reads. */
  lemma OwnDrainEvents(codec: Codec, fs: seq<Frame>, a: Slot, phase: Phase, now: nat, e: Event, c: Conn)
    requires Author(e) == Some(c) && !e.Drops? && phase != CacheReady && !(AsksAgain(codec, e, c) && phase == Live)
    ensures Look(Applied(codec, fs, a, OwnEvents(codec, phase, now, e)))
         == if e.Reads? && e.offset == 0 then Look(Stage(fs, a)) else Look(a)
  {
  }

  lemma CacheGrows(codec: Codec, s: System, now: nat, e: Event)
    requires SystemInv(s) && s.node.cache.ready
    ensures StillServes(s.node.cache, Step(codec, s, now, e).node.cache)
  {
    StepFollowsTrace(codec, s, now, e);
    PublishedRun(codec, s.node, StepTrace(codec, s, now, e));
  }

  lemma FollowsFrom(left: seq<Bytes>, cc: Bytes, last: nat, r: R.Fresh, log: seq<R.Fresh>)
    requires left != [] || r.count != last
    requires R.PartsOf(if left != [] then left[0] else cc, r.pieces)
    requires R.Follows(if left != [] then left[1..] else [], cc, r.count, log)
    ensures R.Follows(left, cc, last, [r] + log)
  {
    assert ([r] + log)[1..] == log;
  }

  /** A fresh read and its continuation are of the packet it stages. */
  lemma FreshReadParts(codec: Codec, s: System, es: seq<Moment>, c: Conn)
    requires SystemInv(s) && SlotOf(s.table, c).Some? && es != [] && IsFreshRead(es[0].event, c)
    requires Draining(codec, s, es, c)
    ensures R.PartsOf(Stage(s.node.cache.frames, SlotOf(s.table, c).value).staged,
                      FreshReads(codec, s, es, c)[0].pieces)
  {
    var now, e, s' := es[0].now, es[0].event, Step(codec, s, es[0].now, es[0].event);
    StagedAfter(codec, s, now, e, c);
    StepKeepsInv(codec, s, now, e);
    DrainingKeepsLink(codec, s', es[1..], c);
    ContinuationOfStaged(codec, s', es[1..], c);
  }

  /** A published proxy serves what a replaying phone has left, through recoveries and whatever others do. */
  lemma {:induction false} DrainFollows(codec: Codec, s: System, es: seq<Moment>, c: Conn, left: seq<Bytes>, last: nat)
    requires SystemInv(s) && s.node.cache.ready && Draining(codec, s, es, c) && SlotOf(s.table, c).Some?
    requires R.Standing(s.node.cache.frames, SlotOf(s.table, c).value, left, last)
    ensures R.Follows(left, SlotOf(s.table, c).value.cc, last, FreshReads(codec, s, es, c))
    decreases |es|
  {
    if es != [] {
      var now, e, rest := es[0].now, es[0].event, es[1..];
      var fs, a, s' := s.node.cache.frames, SlotOf(s.table, c).value, Step(codec, s, now, e);
      DrainStep(codec, s, now, e, c);
      CacheGrows(codec, s, now, e);
      StepKeepsInv(codec, s, now, e);
      var fs', b := s'.node.cache.frames, SlotOf(s'.table, c).value;
      if IsFreshRead(e, c) {
        var r := FreshReads(codec, s, es, c)[0];
        R.StageServesHead(fs, a, left, last);
        FreshReadParts(codec, s, es, c);
        if left != [] || |fs| != last {
          var left' := if left != [] then left[1..] else [];
          StandingByLooks(fs, Stage(fs, a), b, left', |fs|);
          R.GrowthKeepsStanding(fs, fs', b, left', |fs|);
          DrainFollows(codec, s', rest, c, left', |fs|);
          FollowsFrom(left, a.cc, last, r, FreshReads(codec, s', rest, c));
        }
      } else {
        StandingByLooks(fs, a, b, left, last);
        R.GrowthKeepsStanding(fs, fs', b, left, last);
        DrainFollows(codec, s', rest, c, left, last);
      }
    }
  }

  /** What a phone asking with its own nonce is to read before its first empty read: segment and terminator. */
  function Answer(codec: Codec, fs: seq<Frame>, nonce: u32): (r: seq<Bytes>)
    requires codec.configComplete(nonce).Some?
    ensures r != []
  {
    BurstFor(fs, nonce) + [codec.configComplete(nonce).value]
  }

  lemma {:induction false} SegmentFramesAreCached(fs: seq<Frame>, nonce: u32, i: nat)
    ensures forall b :: b in SegmentFrom(fs, nonce, i) ==> exists f :: f in fs && f.bytes == b
    decreases |fs| - i
  {
    if i < |fs| {
      SegmentFramesAreCached(fs, nonce, i + 1);
      assert fs[i] in fs;
    }
  }

  /** No packet of an answer is empty, and each fits one full-length read. */
  lemma AnswersAreSized(codec: Codec, fs: seq<Frame>, nonce: u32)
    requires Lawful(codec) && forall f :: f in fs ==> FrameSized(f.bytes)
    ensures codec.configComplete(nonce).Some? && forall p :: p in Answer(codec, fs, nonce) ==> 1 <= |p| <= MAX_PKT
  {
    SegmentFramesAreCached(fs, nonce, 0);
    SegmentIsBurstFor(fs, nonce);
    assert codec.configComplete(nonce).Some?;
  }

  /**
   * A LIVE proxy answers a phone's want_config from its cache, though a recovery may start the
   * moment after: segment, terminator, then empty, with the terminator once more for every fresh
   * read that finds the cache grown since the one before. Every read, fresh or continuing at an
   * offset, returns the requested part of its packet, and one carried through to the end the
   * whole packet. Segment and terminator are those of the nonce it asks with, or of the one it
   * asked with before if it asks with 0.
   */
  lemma PhoneReadsAnswer(
    codec: Codec, s: System, now: nat, c: Conn, data: Bytes, nonce: u32, eff: u32, s': System, es: seq<Moment>)
    requires Lawful(codec) && SystemInv(s) && s.node.session.phase == Live && SlotOf(s.table, c).Some?
    requires codec.toRadio(data) == Some(WantConfig(nonce)) && eff == ArmNonce(SlotOf(s.table, c).value, nonce)
    requires s' == Step(codec, s, now, Writes(c, data)) && Draining(codec, s', es, c)
    ensures codec.configComplete(eff).Some?
    ensures var answer, log := Answer(codec, s.node.cache.frames, eff), FreshReads(codec, s', es, c);
      R.Delivers(answer, log) && R.DeliversWhole(answer, log)
  {
    var e, fs := Writes(c, data), s.node.cache.frames;
    OwnStep(codec, s, now, e, c);
    StepKeepsInv(codec, s, now, e);
    CacheGrows(codec, s, now, e);
    assert codec.configComplete(eff).Some?;
    var answer := Answer(codec, fs, eff);
    R.ArmedReplay(codec, fs, SlotOf(s.table, c).value, nonce, eff);
    SegmentIsBurstFor(fs, eff);
    R.GrowthKeepsStanding(fs, s'.node.cache.frames, SlotOf(s'.table, c).value, answer, 0);
    DrainFollows(codec, s', es, c, answer, 0);
    R.FollowsDelivers(answer, 0, FreshReads(codec, s', es, c));
    R.DeliversInFull(answer, FreshReads(codec, s', es, c));
  }

  // ---------------------------------------------------------------- the stored nonce

  /** The nonce a phone last asked with, other than 0, while the session was LIVE; `n` if it never did. */
  function LastAsked(codec: Codec, s: System, es: seq<Moment>, c: Conn, n: u32): u32
    decreases |es|
  {
    if es == [] then n
    else
      var e := es[0].event;
      var n' := if s.node.session.phase == Live && AsksAgain(codec, e, c) && codec.toRadio(e.data).value.nonce != 0
                then codec.toRadio(e.data).value.nonce else n;
      LastAsked(codec, Step(codec, s, es[0].now, e), es[1..], c, n')
  }

  lemma StoredNonceStep(codec: Codec, s: System, now: nat, e: Event, c: Conn)
    requires SystemInv(s) && SlotOf(s.table, c).Some? && e != Drops(c)
    ensures var a, b := SlotOf(s.table, c).value, SlotOf(Step(codec, s, now, e).table, c);
      && b.Some?
      && b.value.nonce == if s.node.session.phase == Live && AsksAgain(codec, e, c)
                          then ArmNonce(a, codec.toRadio(e.data).value.nonce) else a.nonce
  {
    if Author(e) == Some(c) {
      OwnStep(codec, s, now, e, c);
      OwnEventsKeepNonce(codec, s.node.cache.frames, SlotOf(s.table, c).value, s.node.session.phase, now, e, c);
    } else {
      OthersStep(codec, s, now, e, c);
    }
  }

  lemma OwnEventsKeepNonce(codec: Codec, fs: seq<Frame>, a: Slot, phase: Phase, now: nat, e: Event, c: Conn)
    requires Author(e) == Some(c) && !e.Drops? && phase != CacheReady
    ensures Applied(codec, fs, a, OwnEvents(codec, phase, now, e)).nonce
         == if phase == Live && AsksAgain(codec, e, c) then ArmNonce(a, codec.toRadio(e.data).value.nonce) else a.nonce
  {
  }

  /** In every run, the nonce stored for a phone is the last one it asked with other than 0. */
  lemma {:induction false} StoredNonceIsLastAsked(codec: Codec, s: System, es: seq<Moment>, c: Conn)
    requires SystemInv(s) && SlotOf(s.table, c).Some? && forall m :: m in es ==> m.event != Drops(c)
    ensures var b := SlotOf(SystemRun(codec, s, es).table, c);
      b.Some? && b.value.nonce == LastAsked(codec, s, es, c, SlotOf(s.table, c).value.nonce)
    decreases |es|
  {
    if es != [] {
      assert es[0] in es;
      StoredNonceStep(codec, s, es[0].now, es[0].event, c);
      StepKeepsInv(codec, s, es[0].now, es[0].event);
      StoredNonceIsLastAsked(codec, Step(codec, s, es[0].now, es[0].event), es[1..], c);
    }
  }

  /** The terminator that closes an answer, taken apart again. */
  lemma AnswerEndsWith(codec: Codec, fs: seq<Frame>, nonce: u32)
    requires Lawful(codec)
    ensures codec.configComplete(nonce).Some?
    ensures var answer := Answer(codec, fs, nonce); codec.completeNonce(answer[|answer| - 1]) == Some(nonce)
  {
    assert codec.configComplete(nonce).Some?;
  }

  /**
   * A phone is not always echoed its own nonce: one that asks with `first`, other than 0, does
   * whatever it likes short of asking with another nonce, and then asks with 0, is served the
   * segment and the terminator of `first`.
   */
  lemma AskingWithZeroRepeats(
    codec: Codec, s: System, t1: nat, data1: Bytes, first: u32, s1: System, es: seq<Moment>, s2: System,
    t2: nat, c: Conn, data2: Bytes, s3: System, drain: seq<Moment>)
    requires Lawful(codec) && SystemInv(s) && s.node.session.phase == Live && SlotOf(s.table, c).Some?
    requires codec.toRadio(data1) == Some(WantConfig(first)) && first != 0
    requires codec.toRadio(data2) == Some(WantConfig(0))
    requires s1 == Step(codec, s, t1, Writes(c, data1)) && s2 == SystemRun(codec, s1, es)
    requires (forall m :: m in es ==> m.event != Drops(c)) && LastAsked(codec, s1, es, c, first) == first
    requires s2.node.session.phase == Live
    requires s3 == Step(codec, s2, t2, Writes(c, data2)) && Draining(codec, s3, drain, c)
    ensures codec.configComplete(first).Some?
    ensures var answer := Answer(codec, s2.node.cache.frames, first);
      && R.Delivers(answer, FreshReads(codec, s3, drain, c))
      && codec.completeNonce(answer[|answer| - 1]) == Some(first)
  {
    StepKeepsInv(codec, s, t1, Writes(c, data1));
    EveryReachableState(codec, s1, es);
    StoredNonceStep(codec, s, t1, Writes(c, data1), c);
    StoredNonceIsLastAsked(codec, s1, es, c);
    PhoneReadsAnswer(codec, s2, t2, c, data2, 0, first, s3, drain);
    AnswerEndsWith(codec, s2.node.cache.frames, first);
  }

  // ---------------------------------------------------------------- end to end

  predicate Unstarted(u: Node) { u.session.phase == Boot && !u.session.armed && u.cache == Cache([], false) }

  lemma UnstartedStep(codec: Codec, u: Node, now: nat, e: NodeEvent)
    requires NodeInv(u) && Unstarted(u) && !e.Start?
    ensures Unstarted(NodeStep(codec, u, now, e))
  {
  }

  lemma {:induction false} UnstartedRun(codec: Codec, u: Node, es: seq<Stamp>)
    requires NodeInv(u) && Unstarted(u) && forall st :: st in es ==> !st.event.Start?
    ensures Unstarted(NodeRun(codec, u, es))
    decreases |es|
  {
    if es != [] {
      assert es[0] in es;
      UnstartedStep(codec, u, es[0].now, es[0].event);
      NodeStepKeepsInv(codec, u, es[0].now, es[0].event);
      UnstartedRun(codec, NodeStep(codec, u, es[0].now, es[0].event), es[1..]);
    }
  }

  lemma {:induction false} StartsOnlyAtBoot(codec: Codec, s: System, es: seq<Moment>)
    requires forall m :: m in es ==> !m.event.Boots?
    ensures forall st :: st in Trace(codec, s, es) ==> !st.event.Start?
    decreases |es|
  {
    if es != [] {
      var now, e := es[0].now, es[0].event;
      assert es[0] in es;
      if e.RxWork? { OnlyFramesInFrameTrace(codec, now, FramesOf(s, e), e.rands); }
      assert forall st :: st in StepTrace(codec, s, now, e) ==> !st.event.Start?;
      StartsOnlyAtBoot(codec, Step(codec, s, now, e), es[1..]);
    }
  }

  /**
   * Power-up opens the boot fetch, whatever happens before the session is started: phones can
   * already connect and bytes arrive.
   */
  lemma PowerUpOpensFetch(codec: Codec, before: seq<Moment>, now: nat, rand: u32)
    requires Lawful(codec) && forall m :: m in before ==> !m.event.Boots?
    ensures var s := SystemRun(codec, SYSTEM_INIT, before); var s' := Step(codec, s, now, Boots(rand));
      FetchOpen(s'.node, now) && s'.node.session.nonce == PickNonce(rand) && s'.rx == s.rx
  {
    var s := SystemRun(codec, SYSTEM_INIT, before);
    InitialNode();
    StartsOnlyAtBoot(codec, SYSTEM_INIT, before);
    UnstartedRun(codec, NODE_INIT, Trace(codec, SYSTEM_INIT, before));
    SessionFollowsTrace(codec, SYSTEM_INIT, before);
    NodeRunOfOne(codec, s.node, now, Start(rand));
    assert codec.wantConfig(PickNonce(rand)).Some?;
  }

  /** A retry opens it anew, with the same nonce. */
  lemma RetryOpensFetch(codec: Codec, s: System, now: nat)
    requires s.node.session.phase == Fetching && Due(s.node.session.fetchRetryAt, now)
    ensures var s' := Step(codec, s, now, FetchRetryDue);
      FetchOpen(s'.node, now) && s'.node.session.nonce == s.node.session.nonce && s'.rx == s.rx
  {
    NodeRunOfOne(codec, s.node, now, FetchRetryFire);
  }

  /** What a later want_config is answered with: still the published burst. */
  lemma AnswerIsThePublishedBurst(codec: Codec, s: System, mid: seq<Moment>, fs: seq<Frame>, nonce: u32)
    requires SystemInv(s) && s.node.cache.ready && R.GrownByTerminators(fs, s.node.cache.frames)
    requires codec.configComplete(nonce).Some?
    ensures Answer(codec, SystemRun(codec, s, mid).node.cache.frames, nonce) == Answer(codec, fs, nonce)
  {
    SessionFollowsTrace(codec, s, mid);
    PublishedCacheIsStable(codec, s.node, Trace(codec, s, mid), nonce);
    R.GrowthKeepsSegments(fs, s.node.cache.frames, nonce, 0);
    SegmentIsBurstFor(fs, nonce);
    SegmentIsBurstFor(SystemRun(codec, s, mid).node.cache.frames, nonce);
  }

  lemma {:induction false} MetaIsOfBurst(codec: Codec, burst: seq<Bytes>)
    ensures forall f :: f in Meta(codec, burst) ==> f.bytes in burst
    decreases |burst|
  {
    if burst != [] { MetaIsOfBurst(codec, burst[1..]); }
  }

  /** Nothing reaches a phone but frames of the burst, whole. */
  lemma AnswerIsOfBurst(codec: Codec, burst: seq<Bytes>, nonce: u32)
    requires codec.configComplete(nonce).Some?
    ensures var answer := Answer(codec, Greedy(Meta(codec, burst)), nonce);
      forall k :: 0 <= k < |answer| - 1 ==> answer[k] in burst
  {
    var fs := Greedy(Meta(codec, burst));
    SegmentIsBurstFor(fs, nonce);
    SegmentFramesAreCached(fs, nonce, 0);
    OnlyOfferedIsKept(Meta(codec, burst));
    MetaIsOfBurst(codec, burst);
    var answer := Answer(codec, fs, nonce);
    forall k | 0 <= k < |answer| - 1 ensures answer[k] in burst {
      assert answer[k] in Segment(fs, nonce);
    }
  }

  lemma PrefixIsSized(fs: seq<Frame>, fs': seq<Frame>)
    requires fs <= fs' && forall f :: f in fs' ==> FrameSized(f.bytes)
    ensures forall f :: f in fs ==> FrameSized(f.bytes)
  {
  }

  /**
   * End to end, from power-up: in any run that opens the boot fetch (or starts it over after a
   * retry, be it in the middle of a frame), the node's serial line carries a burst of frames, with
   * mesh packets and noise in between, closed by a terminator for the session's nonce and followed
   * by anything, with less than 250 ms between bytes and two seconds between frames. After any
   * further run that ends LIVE, a phone asks; with nonce 0 it means the nonce it asked with before.
   * Then, whatever happens while it drains, recoveries included, what it reads, in one read per packet or in as
   * many as it takes, is exactly the burst's non-packet frames of its segment, in order (all of
   * them if they fit the cache, else their greedy selection), and the terminator for that nonce,
   * none of them empty, and next nothing, unless the cache has gained a stray terminator since the
   * fresh read before, in which case the terminator is read again.
   */
  lemma EndToEnd(
    codec: Codec, boot: seq<Moment>, s0: System, t0: nat, w0: nat,
    fetch: seq<Moment>, s1: System, bytes: Bytes, l: Line, burst: seq<Bytes>, last: Bytes, after: seq<Bytes>,
    mid: seq<Moment>, s2: System, now: nat, c: Conn, data: Bytes, nonce: u32, eff: u32, s3: System, drain: seq<Moment>)
    requires Lawful(codec)
    requires s0 == SystemRun(codec, SYSTEM_INIT, boot) && FetchOpen(s0.node, t0)
    requires s1 == SystemRun(codec, s0, fetch) && s2 == SystemRun(codec, s1, mid)
    requires Steady(codec, s0.node, Trace(codec, s0, fetch), t0) && Received(s0.rx, fetch, w0)
    requires bytes == s0.rx.ring + Arrived(RxTrace(fetch))
    requires BurstOnTheLine(codec, s0.node.session.nonce, s0.rx.dec, bytes, l, burst, last, after)
    requires s2.node.session.phase == Live && SlotOf(s2.table, c).Some?
    requires codec.toRadio(data) == Some(WantConfig(nonce)) && eff == ArmNonce(SlotOf(s2.table, c).value, nonce)
    requires s3 == Step(codec, s2, now, Writes(c, data)) && Draining(codec, s3, drain, c)
    ensures codec.configComplete(eff).Some?
    ensures var answer, log := Answer(codec, Greedy(Meta(codec, burst)), eff), FreshReads(codec, s3, drain, c);
      && R.Delivers(answer, log) && R.DeliversWhole(answer, log)
      && (forall p :: p in answer ==> p != []) && forall k :: 0 <= k < |answer| - 1 ==> answer[k] in burst
    ensures CacheFits(Meta(codec, burst)) ==> Greedy(Meta(codec, burst)) == Meta(codec, burst)
  {
    InitialSystem();
    EveryReachableState(codec, SYSTEM_INIT, boot);
    EveryReachableState(codec, s0, fetch);
    EveryReachableState(codec, s1, mid);
    BurstReachesCache(codec, s0, fetch, t0, w0, bytes, l, burst, last, after);
    GreedyKeepsAllIff(Meta(codec, burst));
    var selected := Greedy(Meta(codec, burst));
    PhoneReadsAnswer(codec, s2, now, c, data, nonce, eff, s3, drain);
    AnswerIsThePublishedBurst(codec, s1, mid, selected, eff);
    PrefixIsSized(selected, s1.node.cache.frames);
    AnswersAreSized(codec, selected, eff);
    AnswerIsOfBurst(codec, burst, eff);
  }

  // ---------------------------------------------------------------- two rounds

  /** The packets that the first `n` fresh reads and their continuations brought. */
  function Brought(log: seq<R.Fresh>, n: nat): seq<Bytes>
    requires n <= |log|
  {
    seq(n, k requires 0 <= k < n => R.Joined(log[k].pieces))
  }

  /** The first `n` packets were read through to the end. */
  predicate ReadThrough(log: seq<R.Fresh>, n: nat) {
    n <= |log| && forall k :: 0 <= k < n ==> R.LongRead(log[k].pieces)
  }

  lemma BroughtIsSegment(codec: Codec, fs: seq<Frame>, nonce: u32, log: seq<R.Fresh>)
    requires codec.configComplete(nonce).Some? && R.DeliversWhole(Answer(codec, fs, nonce), log)
    requires ReadThrough(log, |Segment(fs, nonce)|)
    ensures Brought(log, |Segment(fs, nonce)|) == Segment(fs, nonce)
  {
    var seg, answer := Segment(fs, nonce), Answer(codec, fs, nonce);
    SegmentIsBurstFor(fs, nonce);
    forall k | 0 <= k < |seg| ensures R.Joined(log[k].pieces) == seg[k] {
      assert R.StillOn(answer, log, k) && R.Expected(answer, log, k) == answer[k] == seg[k];
    }
    assert Brought(log, |seg|) == seg;
  }

  /**
   * Two rounds deliver everything: a phone that asks with 69420, drains its segment, and asks with
   * 69421 and drains that, in reads of any length, has read every frame of the full burst once, the
   * own node_info once more, and nothing else, whatever happens meanwhile as long as it finds the proxy LIVE.
   */
  lemma TwoRoundsDeliverBurst(
    codec: Codec, s: System, c: Conn, full: u32,
    now1: nat, data1: Bytes, s1: System, drain1: seq<Moment>, log1: seq<R.Fresh>,
    s2: System, now2: nat, data2: Bytes, s3: System, drain2: seq<Moment>, log2: seq<R.Fresh>)
    requires Lawful(codec) && SystemInv(s) && s.node.session.phase == Live && SlotOf(s.table, c).Some?
    requires full != ONLY_CONFIG && full != ONLY_NODES
    requires codec.toRadio(data1) == Some(WantConfig(ONLY_CONFIG))
    requires codec.toRadio(data2) == Some(WantConfig(ONLY_NODES))
    requires s1 == Step(codec, s, now1, Writes(c, data1)) && s2 == SystemRun(codec, s1, drain1)
    requires s2.node.session.phase == Live && SlotOf(s2.table, c).Some? && s3 == Step(codec, s2, now2, Writes(c, data2))
    requires Draining(codec, s1, drain1, c) && Draining(codec, s3, drain2, c)
    requires log1 == FreshReads(codec, s1, drain1, c) && log2 == FreshReads(codec, s3, drain2, c)
    requires ReadThrough(log1, |Segment(s.node.cache.frames, ONLY_CONFIG)|)
    requires ReadThrough(log2, |Segment(s.node.cache.frames, ONLY_NODES)|)
    ensures var fs := s.node.cache.frames;
      multiset(Brought(log1, |Segment(fs, ONLY_CONFIG)|)) + multiset(Brought(log2, |Segment(fs, ONLY_NODES)|))
        == multiset(Segment(fs, full)) + OwnFrom(fs, 0)
  {
    var fs := s.node.cache.frames;
    PhoneReadsAnswer(codec, s, now1, c, data1, ONLY_CONFIG, ONLY_CONFIG, s1, drain1);
    BroughtIsSegment(codec, fs, ONLY_CONFIG, log1);
    StepKeepsInv(codec, s, now1, Writes(c, data1));
    EveryReachableState(codec, s1, drain1);
    CacheGrows(codec, s, now1, Writes(c, data1));
    PhoneReadsAnswer(codec, s2, now2, c, data2, ONLY_NODES, ONLY_NODES, s3, drain2);
    AnswerIsThePublishedBurst(codec, s1, drain1, fs, ONLY_NODES);
    BroughtIsSegment(codec, fs, ONLY_NODES, log2);
    TwoRoundsCoverBurst(fs, full, 0);
  }

  // ---------------------------------------------------------------- the keepalive from power-up

  /**
   * From power-up, once the session is started: with work items at most 600 ms late and fewer than
   * 30 keepalives refused in a row, the last packet accepted for the UART (or the start) is never
   * 15 minutes old.
   */
  lemma KeptAliveFromPowerUp(
    codec: Codec, before: seq<Moment>, t0: nat, rand: u32, s: System, es: seq<Moment>,
    t: seq<Stamp>, k: Tally, late: nat, now: nat)
    requires Lawful(codec) && late <= 600 && forall m :: m in before ==> !m.event.Boots?
    requires s == Step(codec, SystemRun(codec, SYSTEM_INIT, before), t0, Boots(rand))
    requires t == Trace(codec, s, es) && KeepalivePunctual(codec, s.node, t, t0, late)
    requires Punctual(SystemRun(codec, s, es).node.session.keepaliveAt, now, late)
    requires k == Notes(codec, s.node, t, Tally(t0, t0, 0, 0)) && k.refused < 30
    ensures now < k.last + 900_000
  {
    var z := SystemRun(codec, SYSTEM_INIT, before);
    InitialSystem();
    EveryReachableState(codec, SYSTEM_INIT, before);
    StartsOnlyAtBoot(codec, SYSTEM_INIT, before);
    UnstartedRun(codec, NODE_INIT, Trace(codec, SYSTEM_INIT, before));
    SessionFollowsTrace(codec, SYSTEM_INIT, before);
    NodeRunOfOne(codec, z.node, t0, Start(rand));
    StartOpensTally(codec, z.node, t0, rand, late);
    SessionFollowsTrace(codec, s, es);
    NodeNeverTimesOut(codec, s.node, t, Tally(t0, t0, 0, 0), late, now);
  }
}
