/** What one phone exchanges live, over runs of the whole proxy: its packets in order, and the id it is reached by. */
module PhoneTraffic {
  import opened Prelude
  import opened Wire
  import opened ConfigCache
  import opened UartRx
  import opened Phones
  import opened Upstream
  import opened Proxy
  import opened Replay
  import opened Teardown
  import opened Invariants
  import opened PhoneRuns
  import opened Isolation
  import opened Routing
  import E = EndToEnd

  // ---------------------------------------------------------------- live packets

  /** The slot events that one system step means for phone `c`. */
  function StepEvents(codec: Codec, s: System, now: nat, e: Event, c: Conn): seq<SlotStamp> {
    PhoneTrace(codec, s.table, StepTableTrace(codec, s, now, e), c)
  }

  lemma StepFollowsTable(codec: Codec, s: System, now: nat, e: Event)
    ensures Step(codec, s, now, e).table == StampedRun(codec, s.table, StepTableTrace(codec, s, now, e))
  {
    if e.RxWork? {
      FramesFollowTableTrace(codec, s, now, FramesOf(s, e), e.rands);
    } else {
      RunIsStamped(codec, s.node.cache.frames, s.table, TableEvents(codec, s, now, e));
    }
  }

  lemma StepFollowsEvents(codec: Codec, s: System, now: nat, e: Event, c: Conn)
    requires SystemInv(s) && SlotOf(s.table, c).Some? && e != Drops(c)
    ensures SlotOf(Step(codec, s, now, e).table, c)
         == Some(SlotRun(codec, SlotOf(s.table, c).value, StepEvents(codec, s, now, e, c)))
  {
    StepFollowsTable(codec, s, now, e);
    StepLosesOnlyOnDrop(codec, s, now, e, c);
    SlotFollowsTrace(codec, s.table, StepTableTrace(codec, s, now, e), c);
  }

  /** Nothing in these table events is a fresh read by `c`, or an offer of nothing. */
  predicate Harmless(x: TableEvent, c: Conn) {
    && !(x.On? && x.conn == c && IsFresh(x.event))
    && (x.Broadcast? || x.Target? ==> x.raw != []) && (x.On? && x.event.Offer? ==> x.event.raw != [])
  }

  predicate AllHarmless(es: seq<TableStamp>, c: Conn) { forall x :: x in es ==> Harmless(x.event, c) }

  lemma {:induction false} HarmlessTrace(codec: Codec, t: Table, es: seq<TableStamp>, c: Conn)
    requires AllHarmless(es, c)
    ensures forall x :: x in PhoneTrace(codec, t, es, c) ==>
              !IsFresh(x.event) && (x.event.Offer? ==> x.event.raw != [])
    decreases |es|
  {
    if es != [] {
      assert es[0] in es;
      HarmlessTrace(codec, TableStep(codec, es[0].fs, t, es[0].event), es[1..], c);
    }
  }

  lemma HarmlessFrame(codec: Codec, s: System, raw: Bytes, c: Conn)
    requires raw != []
    ensures AllHarmless(Stamped(s.node.cache.frames, FrameTableEvents(codec, s, raw)), c)
  {
  }

  lemma {:induction false} HarmlessFrames(codec: Codec, s: System, now: nat, raws: seq<Bytes>, rands: seq<u32>, c: Conn)
    requires forall r :: r in raws ==> r != []
    ensures AllHarmless(FramesTableTrace(codec, s, now, raws, rands), c)
    decreases |raws|
  {
    if raws != [] {
      assert raws[0] in raws;
      HarmlessFrame(codec, s, raws[0], c);
      assert forall r :: r in raws[1..] ==> r in raws;
      HarmlessFrames(codec, OnFrame(codec, s, now, raws[0], Draw(rands)), now, raws[1..], Rest(rands), c);
    }
  }

  lemma HarmlessStep(codec: Codec, s: System, now: nat, e: Event, c: Conn)
    requires SystemInv(s) && !IsFreshRead(e, c) && codec.queueStatus != Some([])
    ensures AllHarmless(StepTableTrace(codec, s, now, e), c)
  {
    if e.RxWork? {
      RxStepKeepsInv(s.rx, now, Work);
      assert forall r :: r in FramesOf(s, e) ==> r != [];
      HarmlessFrames(codec, s, now, FramesOf(s, e), e.rands, c);
    } else {
      HarmlessEvents(codec, s, now, e, c);
    }
  }

  lemma HarmlessEvents(codec: Codec, s: System, now: nat, e: Event, c: Conn)
    requires !IsFreshRead(e, c) && codec.queueStatus != Some([])
    ensures forall x :: x in TableEvents(codec, s, now, e) ==> Harmless(x, c)
  {
  }

  /** The packets accepted for `c` in one step. */
  function AcceptedIn(codec: Codec, s: System, now: nat, e: Event, c: Conn): seq<Bytes> {
    if SlotOf(s.table, c).None? then []
    else Enqueued(codec, SlotOf(s.table, c).value, StepEvents(codec, s, now, e, c))
  }

  /** The packets accepted for `c` in a run, in order. */
  function AcceptedFor(codec: Codec, s: System, es: seq<Moment>, c: Conn): seq<Bytes>
    decreases |es|
  {
    if es == [] then []
    else AcceptedIn(codec, s, es[0].now, es[0].event, c)
         + AcceptedFor(codec, Step(codec, s, es[0].now, es[0].event), es[1..], c)
  }

  predicate NoEmpty(ps: seq<Bytes>) { forall p :: p in ps ==> p != [] }

  /** Without a fresh read a slot's queue only gains. */
  lemma {:induction false} QueueOnlyGains(codec: Codec, a: Slot, es: seq<SlotStamp>)
    requires forall x :: x in es ==> !IsFresh(x.event) && (x.event.Offer? ==> x.event.raw != [])
    ensures SlotRun(codec, a, es).queue == a.queue + Enqueued(codec, a, es) && NoEmpty(Enqueued(codec, a, es))
    decreases |es|
  {
    if es == [] {
      assert a.queue + [] == a.queue;
    } else {
      assert es[0] in es;
      var b := SlotStep(codec, es[0].fs, a, es[0].event);
      QueueOnlyGains(codec, b, es[1..]);
      if es[0].event.Offer? && Takes(a, es[0].event.raw) {
        assert a.queue + ([es[0].event.raw] + Enqueued(codec, b, es[1..]))
            == (a.queue + [es[0].event.raw]) + Enqueued(codec, b, es[1..]);
      }
    }
  }

  /** What a step does to the queue of a phone that makes no fresh read. */
  lemma OtherStepGains(codec: Codec, s: System, now: nat, e: Event, c: Conn)
    requires SystemInv(s) && SlotOf(s.table, c).Some? && e != Drops(c) && !IsFreshRead(e, c)
    requires codec.queueStatus != Some([])
    ensures var a, b := SlotOf(s.table, c).value, SlotOf(Step(codec, s, now, e).table, c);
      && b.Some? && b.value.queue == a.queue + AcceptedIn(codec, s, now, e, c)
      && NoEmpty(AcceptedIn(codec, s, now, e, c))
  {
    StepFollowsEvents(codec, s, now, e, c);
    HarmlessStep(codec, s, now, e, c);
    HarmlessTrace(codec, s.table, StepTableTrace(codec, s, now, e), c);
    QueueOnlyGains(codec, SlotOf(s.table, c).value, StepEvents(codec, s, now, e, c));
  }

  lemma OneEventTrace(codec: Codec, t: Table, fs: seq<Frame>, x: TableEvent, c: Conn)
    ensures PhoneTrace(codec, t, [TableStamp(fs, x)], c)
         == if EventsFor(t, x, c) == [] then [] else [SlotStamp(fs, EventsFor(t, x, c)[0])]
  {
    var es := [TableStamp(fs, x)];
    assert es[1..] == [];
    assert PhoneTrace(codec, TableStep(codec, fs, t, x), [], c) == [];
  }

  lemma ReadAcceptsNothing(codec: Codec, a: Slot, fs: seq<Frame>, len: nat)
    ensures Enqueued(codec, a, [SlotStamp(fs, Read(0, len))]) == []
  {
    assert [SlotStamp(fs, Read(0, len))][1..] == [];
  }

  lemma FreshTrace(codec: Codec, s: System, now: nat, e: Event, c: Conn)
    requires IsFreshRead(e, c)
    ensures StepEvents(codec, s, now, e, c) == [SlotStamp(s.node.cache.frames, Read(0, e.len))]
  {
    var fs, x := s.node.cache.frames, On(c, Read(0, e.len));
    assert TableEvents(codec, s, now, e) == [x];
    assert StepTableTrace(codec, s, now, e) == [TableStamp(fs, x)];
    OneEventTrace(codec, s.table, fs, x, c);
  }

  /** A fresh read stages, and accepts nothing. */
  lemma FreshStepStages(codec: Codec, s: System, now: nat, e: Event, c: Conn)
    requires SystemInv(s) && SlotOf(s.table, c).Some? && IsFreshRead(e, c)
    ensures AcceptedIn(codec, s, now, e, c) == []
    ensures SlotOf(Step(codec, s, now, e).table, c) == Some(Stage(s.node.cache.frames, SlotOf(s.table, c).value))
  {
    OwnStep(codec, s, now, e, c);
    FreshTrace(codec, s, now, e, c);
    ReadAcceptsNothing(codec, SlotOf(s.table, c).value, s.node.cache.frames, e.len);
  }

  /** The phone's fresh reads outside replays during a run, each with its continuation. */
  function LiveReads(codec: Codec, s: System, es: seq<Moment>, c: Conn): seq<Fresh>
    decreases |es|
  {
    if es == [] then []
    else
      var e, s' := es[0].event, Step(codec, s, es[0].now, es[0].event);
      var rest := LiveReads(codec, s', es[1..], c);
      if IsFreshRead(e, c) && !IsReplayRead(s, e, c) then [E.FreshReads(codec, s, es, c)[0]] + rest else rest
  }

  /** The phone stays connected, and asks for at least one byte when it reads. */
  predicate Stays(es: seq<Moment>, c: Conn) {
    forall m :: m in es ==> m.event != Drops(c) && (IsFreshRead(m.event, c) ==> m.event.len >= 1)
  }

  /** One fresh live read with its continuation: the oldest packet, or nothing if none is queued. */
  lemma LiveReadIsOldestPacket(codec: Codec, s: System, es: seq<Moment>, c: Conn)
    requires SystemInv(s) && SlotOf(s.table, c).Some? && Stays(es, c)
    requires es != [] && IsFreshRead(es[0].event, c) && !IsReplayRead(s, es[0].event, c)
    requires NoEmpty(SlotOf(s.table, c).value.queue)
    ensures var a, f := SlotOf(s.table, c).value, E.FreshReads(codec, s, es, c)[0];
      PartsOf(if a.queue == [] then [] else a.queue[0], f.pieces) && (Brings(f) <==> a.queue != [])
  {
    var now, e, a := es[0].now, es[0].event, SlotOf(s.table, c).value;
    var s' := Step(codec, s, now, e);
    assert es[0] in es;
    FreshStepStages(codec, s, now, e, c);
    StepKeepsInv(codec, s, now, e);
    E.ContinuationOfStaged(codec, s', es[1..], c);
    LiveReadIsOldest(s.node.cache.frames, a, e.len);
    var f := E.FreshReads(codec, s, es, c)[0];
    assert PartsOf(Stage(s.node.cache.frames, a).staged, f.pieces);
  }

  /**
   * Live packets in every run of the proxy: what a phone's fresh reads outside replays return, in
   * one part or in several, is what was queued for it and what was accepted for it since, packet
   * by packet in order, up to what is still queued.
   */
  lemma {:induction false} LivePacketsInOrder(codec: Codec, s: System, es: seq<Moment>, c: Conn)
    requires SystemInv(s) && SlotOf(s.table, c).Some? && Stays(es, c) && codec.queueStatus != Some([])
    requires NoEmpty(SlotOf(s.table, c).value.queue)
    ensures var b := SlotOf(SystemRun(codec, s, es).table, c);
      b.Some? && InOrder(SlotOf(s.table, c).value.queue + AcceptedFor(codec, s, es, c),
                         LiveReads(codec, s, es, c), b.value.queue)
    decreases |es|
  {
    var a := SlotOf(s.table, c).value;
    if es == [] {
      assert a.queue + [] == a.queue;
    } else {
      var now, e, rest := es[0].now, es[0].event, es[1..];
      var s' := Step(codec, s, now, e);
      assert es[0] in es;
      StepKeepsInv(codec, s, now, e);
      LivePacketsQueue(codec, s, es, c);
      LivePacketsInOrder(codec, s', rest, c);
      var acc, left := AcceptedFor(codec, s', rest, c), SlotOf(SystemRun(codec, s', rest).table, c).value.queue;
      if IsFreshRead(e, c) {
        FreshStepStages(codec, s, now, e, c);
        FreshStepInOrder(codec, s, es, c, SlotOf(s'.table, c).value, acc, LiveReads(codec, s', rest, c), left);
        assert [] + acc == acc;
      } else {
        OtherStepGains(codec, s, now, e, c);
        ConcatAssoc(a.queue, AcceptedIn(codec, s, now, e, c), acc);
      }
    }
  }

  /** The phone keeps its slot, and no empty packet gets into its queue. */
  lemma LivePacketsQueue(codec: Codec, s: System, es: seq<Moment>, c: Conn)
    requires SystemInv(s) && SlotOf(s.table, c).Some? && Stays(es, c) && codec.queueStatus != Some([])
    requires NoEmpty(SlotOf(s.table, c).value.queue) && es != []
    ensures var b := SlotOf(Step(codec, s, es[0].now, es[0].event).table, c);
      b.Some? && NoEmpty(b.value.queue) && Stays(es[1..], c)
  {
    assert es[0] in es;
    if IsFreshRead(es[0].event, c) {
      StageTakesOldest(s.node.cache.frames, SlotOf(s.table, c).value);
      FreshStepStages(codec, s, es[0].now, es[0].event, c);
    } else {
      OtherStepGains(codec, s, es[0].now, es[0].event, c);
    }
  }

  lemma StageTakesOldest(fs: seq<Frame>, a: Slot)
    ensures Stage(fs, a).queue == if a.state == Replaying || a.queue == [] then a.queue else a.queue[1..]
    ensures NoEmpty(a.queue) ==> NoEmpty(Stage(fs, a).queue)
  {
    if a.queue != [] { assert forall p :: p in a.queue[1..] ==> p in a.queue; }
  }

  lemma LiveReadsHead(codec: Codec, s: System, es: seq<Moment>, c: Conn, log: seq<Fresh>)
    requires es != [] && IsFreshRead(es[0].event, c)
    requires log == LiveReads(codec, Step(codec, s, es[0].now, es[0].event), es[1..], c)
    ensures LiveReads(codec, s, es, c)
         == if IsReplayRead(s, es[0].event, c) then log else [E.FreshReads(codec, s, es, c)[0]] + log
  {
  }

  /** One read put before the reads that follow it. */
  lemma ReadPutFirst(queue: seq<Bytes>, acc: seq<Bytes>, f: Fresh, log: seq<Fresh>, left: seq<Bytes>, rest: seq<Bytes>)
    requires PartsOf(if queue == [] then [] else queue[0], f.pieces) && (Brings(f) <==> queue != [])
    requires rest == (if queue == [] then queue else queue[1..]) && InOrder(rest + acc, log, left)
    ensures InOrder(queue + acc, [f] + log, left)
  {
    if queue != [] { assert (queue + acc)[1..] == queue[1..] + acc; }
    InOrderNext(queue + acc, f, log, left, rest + acc);
  }

  lemma FreshStepInOrder(
    codec: Codec, s: System, es: seq<Moment>, c: Conn, b: Slot, acc: seq<Bytes>, log: seq<Fresh>, left: seq<Bytes>)
    requires SystemInv(s) && SlotOf(s.table, c).Some? && Stays(es, c) && es != [] && IsFreshRead(es[0].event, c)
    requires NoEmpty(SlotOf(s.table, c).value.queue) && b == Stage(s.node.cache.frames, SlotOf(s.table, c).value)
    requires log == LiveReads(codec, Step(codec, s, es[0].now, es[0].event), es[1..], c)
    requires InOrder(b.queue + acc, log, left)
    ensures InOrder(SlotOf(s.table, c).value.queue + acc, LiveReads(codec, s, es, c), left)
  {
    var a := SlotOf(s.table, c).value;
    LiveReadsHead(codec, s, es, c, log);
    StageTakesOldest(s.node.cache.frames, a);
    if !IsReplayRead(s, es[0].event, c) {
      LiveReadIsOldestPacket(codec, s, es, c);
      ReadPutFirst(a.queue, acc, E.FreshReads(codec, s, es, c)[0], log, left, b.queue);
    }
  }

  /** Packets read through to the end: those read, whole, and those still queued are those accepted, in order. */
  lemma LivePacketsInFull(codec: Codec, s: System, es: seq<Moment>, c: Conn)
    requires SystemInv(s) && SlotOf(s.table, c).Some? && Stays(es, c) && codec.queueStatus != Some([])
    requires NoEmpty(SlotOf(s.table, c).value.queue)
    requires AllThrough(LiveReads(codec, s, es, c))
    ensures var b := SlotOf(SystemRun(codec, s, es).table, c);
      b.Some? && Packets(LiveReads(codec, s, es, c)) + b.value.queue
                   == SlotOf(s.table, c).value.queue + AcceptedFor(codec, s, es, c)
  {
    LivePacketsInOrder(codec, s, es, c);
    InOrderInFull(SlotOf(s.table, c).value.queue + AcceptedFor(codec, s, es, c), LiveReads(codec, s, es, c),
                  SlotOf(SystemRun(codec, s, es).table, c).value.queue);
  }

  // ---------------------------------------------------------------- registration

  /** The last 4-byte id the phone registered in a run; `id` if it registered none. */
  function LastRegistered(es: seq<Moment>, c: Conn, id: Bytes): Bytes
    decreases |es|
  {
    if es == [] then id
    else
      var e := es[0].event;
      LastRegistered(es[1..], c, if e.Registers? && e.conn == c && |e.data| == 4 then e.data else id)
  }

  lemma OwnEventsId(codec: Codec, fs: seq<Frame>, a: Slot, phase: Phase, now: nat, e: Event, c: Conn)
    requires Author(e) == Some(c) && !e.Drops?
    ensures Applied(codec, fs, a, OwnEvents(codec, phase, now, e)).id
         == if e.Registers? && |e.data| == 4 then e.data else a.id
  {
  }

  lemma IdStep(codec: Codec, s: System, now: nat, e: Event, c: Conn)
    requires SystemInv(s) && SlotOf(s.table, c).Some? && e != Drops(c)
    ensures var a, b := SlotOf(s.table, c).value, SlotOf(Step(codec, s, now, e).table, c);
      b.Some? && b.value.id == if e.Registers? && e.conn == c && |e.data| == 4 then e.data else a.id
  {
    if Author(e) == Some(c) {
      OwnStep(codec, s, now, e, c);
      OwnEventsId(codec, s.node.cache.frames, SlotOf(s.table, c).value, s.node.session.phase, now, e, c);
    } else {
      OthersStep(codec, s, now, e, c);
    }
  }

  /** In every run of the proxy, the id a phone is reached by is the last one it registered. */
  lemma {:induction false} IdIsLastRegistered(codec: Codec, s: System, es: seq<Moment>, c: Conn)
    requires SystemInv(s) && SlotOf(s.table, c).Some? && forall m :: m in es ==> m.event != Drops(c)
    ensures var b := SlotOf(SystemRun(codec, s, es).table, c);
      b.Some? && b.value.id == LastRegistered(es, c, SlotOf(s.table, c).value.id)
    decreases |es|
  {
    if es != [] {
      assert es[0] in es;
      IdStep(codec, s, es[0].now, es[0].event, c);
      StepKeepsInv(codec, s, es[0].now, es[0].event);
      IdIsLastRegistered(codec, Step(codec, s, es[0].now, es[0].event), es[1..], c);
    }
  }

  /** From power-up: since it connected, and the zero id if it registered none. */
  lemma IdSinceConnect(codec: Codec, before: seq<Moment>, s: System, now: nat, c: Conn, s1: System, es: seq<Moment>)
    requires s == SystemRun(codec, SYSTEM_INIT, before) && s1 == Step(codec, s, now, Connects(c))
    requires SlotOf(s.table, c).None? && SlotOf(s1.table, c).Some? && forall m :: m in es ==> m.event != Drops(c)
    ensures var b := SlotOf(SystemRun(codec, s1, es).table, c);
      b.Some? && b.value.id == LastRegistered(es, c, [0, 0, 0, 0])
  {
    InitialSystem();
    EveryReachableState(codec, SYSTEM_INIT, before);
    StepKeepsInv(codec, s, now, Connects(c));
    OwnConnect(codec, s, now, c);
    IdIsLastRegistered(codec, s1, es, c);
  }

  /** No slot below the phone's is registered under this id. */
  predicate FirstWith(slots: seq<Slot>, c: Conn, id: Bytes) {
    forall j :: 0 <= j < Find(slots, c) ==> slots[j].conn.None? || slots[j].id != id
  }

  /**
   * A registered phone gets what is addressed to it, and nobody else does: after it registered an
   * id other than zero, and for as long as it registers no other and no lower slot holds the same,
   * a proxied packet with that destination is offered to it alone.
   */
  lemma RegisteredPhoneIsReached(
    codec: Codec, s: System, t1: nat, c: Conn, id: Bytes, es: seq<Moment>, s1: System, s2: System,
    now: nat, raw: Bytes, rand: u32, h: P.Header, k: nat)
    requires SystemInv(s) && SlotOf(s.table, c).Some? && |id| == 4 && id != [0, 0, 0, 0]
    requires s1 == Step(codec, s, t1, Registers(c, id)) && s2 == SystemRun(codec, s1, es)
    requires (forall m :: m in es ==> m.event != Drops(c)) && LastRegistered(es, c, id) == id
    requires k == Find(s2.table.slots, c) && FirstWith(s2.table.slots, c, id)
    requires |h.src| == 4 && h.dst == id
    requires codec.fromRadio(raw) == Some(FromRadio(PACKET, true, P.PROXY_PORTNUM, P.Layout(h)))
    ensures var a, b := s2.table.slots, OnFrame(codec, s2, now, raw, rand).table.slots;
      k < |a| && b == a[k := Offered(a[k], raw)]
  {
    IdStep(codec, s, t1, Registers(c, id), c);
    StepKeepsInv(codec, s, t1, Registers(c, id));
    IdIsLastRegistered(codec, s1, es, c);
    EveryReachableState(codec, s1, es);
    HolderIsReached(codec, s2, c, id, now, raw, rand, h, k);
  }

  /** A phone that is the first to hold an id gets what is addressed to that id. */
  lemma HolderIsReached(
    codec: Codec, s: System, c: Conn, id: Bytes, now: nat, raw: Bytes, rand: u32, h: P.Header, k: nat)
    requires SystemInv(s) && SlotOf(s.table, c).Some? && SlotOf(s.table, c).value.id == id && id != [0, 0, 0, 0]
    requires k == Find(s.table.slots, c) && FirstWith(s.table.slots, c, id) && |h.src| == 4 && |id| == 4 && h.dst == id
    requires codec.fromRadio(raw) == Some(FromRadio(PACKET, true, P.PROXY_PORTNUM, P.Layout(h)))
    ensures var a, b := s.table.slots, OnFrame(codec, s, now, raw, rand).table.slots;
      k < |a| && b == a[k := Offered(a[k], raw)]
  {
    var a, b := s.table.slots, OnFrame(codec, s, now, raw, rand).table.slots;
    assert a[k].conn == Some(c) && a[k].id == id;
    BuiltHeaderFindsItsPhone(codec, s, now, raw, rand, h);
    var j: nat :| OfferedToLowest(a, b, id, raw, j);
    OnlyThatOne(a, b, id, raw, j, k);
  }

  lemma OnlyThatOne(a: seq<Slot>, b: seq<Slot>, id: Bytes, raw: Bytes, j: nat, k: nat)
    requires OfferedToLowest(a, b, id, raw, j) && k < |a| && a[k].conn.Some? && a[k].id == id
    requires forall i :: 0 <= i < k ==> a[i].conn.None? || a[i].id != id
    ensures b == a[k := Offered(a[k], raw)]
  {
  }
}
