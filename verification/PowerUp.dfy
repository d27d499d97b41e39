/** States reached from power-up by short runs: a LIVE session, a filling transmit queue, occupied slots. */
module PowerUp {
  import opened Prelude
  import opened Wire
  import opened ConfigCache
  import opened UartRx
  import opened Phones
  import opened Upstream
  import opened Proxy
  import opened Teardown
  import opened Invariants
  import opened Timing
  import opened Boundary
  import opened EndToEnd

  // ---------------------------------------------------------------- short runs

  lemma {:induction false} SystemRunConcat(codec: Codec, s: System, a: seq<Moment>, b: seq<Moment>)
    ensures SystemRun(codec, s, a + b) == SystemRun(codec, SystemRun(codec, s, a), b)
    decreases |a|
  {
    if a == [] {
      assert a + b == b;
    } else {
      assert (a + b)[1..] == a[1..] + b;
      SystemRunConcat(codec, Step(codec, s, a[0].now, a[0].event), a[1..], b);
    }
  }

  lemma OneStep(codec: Codec, s: System, m: Moment)
    ensures SystemRun(codec, s, [m]) == Step(codec, s, m.now, m.event)
  {
    assert [m][1..] == [];
  }

  lemma ThreeSteps(codec: Codec, s: System, a: Moment, b: Moment, d: Moment, s1: System, s2: System)
    requires s1 == Step(codec, s, a.now, a.event) && s2 == Step(codec, s1, b.now, b.event)
    ensures SystemRun(codec, s, [a] + [b] + [d]) == Step(codec, s2, d.now, d.event)
  {
    assert ([a] + [b] + [d])[1..] == [b] + [d] && ([b] + [d])[1..] == [d] && [d][1..] == [];
    assert SystemRun(codec, s2, [d]) == Step(codec, s2, d.now, d.event);
    assert SystemRun(codec, s1, [b] + [d]) == SystemRun(codec, s2, [d]);
  }

  lemma OneSessionEvent(codec: Codec, s: System, now: nat, e: Event, x: NodeEvent)
    requires !e.RxWork? && NodeEvents(codec, s, e) == [x]
    ensures Step(codec, s, now, e).node == NodeStep(codec, s.node, now, x)
  {
    NodeRunOfOne(codec, s.node, now, x);
  }

  lemma OneTableStep(codec: Codec, s: System, now: nat, e: Event, x: TableEvent)
    requires RxEvents(e).None? && NodeEvents(codec, s, e) == [] && TableEvents(codec, s, now, e) == [x]
    ensures Step(codec, s, now, e) == s.(table := TableStep(codec, s.node.cache.frames, s.table, x))
  {
    RunOfOne(codec, s.node.cache.frames, s.table, x);
  }

  // ---------------------------------------------------------------- an empty burst

  lemma OneFrame(codec: Codec, s: System, now: nat, raw: Bytes)
    ensures OnFrames(codec, s, now, [raw], []) == OnFrame(codec, s, now, raw, 0)
  {
    assert [raw][1..] == [];
    assert OnFrames(codec, OnFrame(codec, s, now, raw, 0), now, [], []) == OnFrame(codec, s, now, raw, 0);
  }

  lemma BytesArrive(codec: Codec, s: System, now: nat, bytes: Bytes)
    requires s.rx == RX_INIT && |bytes| <= RING_SIZE
    ensures Step(codec, s, now, RxReady(bytes)) == s.(rx := Rx(bytes, WaitMagic1, None))
  {
    assert [] + bytes[..|bytes|] == bytes;
  }

  /** A frame in the receive ring of an idle decoder is dispatched by the next work run. */
  lemma FrameArrives(codec: Codec, s: System, now: nat, raw: Bytes)
    requires FrameSized(raw) && s.rx == Rx(Encode(raw), WaitMagic1, None)
    ensures var s', z := Step(codec, s, now, RxWork([])), OnFrame(codec, s, now, raw, 0);
      s'.node == z.node && s'.table == z.table && s'.rx == RX_INIT
  {
    FrameDecodes(WaitMagic1, raw);
    assert FramesOf(s, RxWork([])) == [raw];
    OneFrame(codec, s, now, raw);
  }

  /** A terminator for nonce 2. */
  predicate ClosesTwo(codec: Codec, last: Bytes) { FrameSized(last) && Terminator(codec, 2, last) }

  lemma TerminatorArrives(codec: Codec, s: System, last: Bytes)
    requires ClosesTwo(codec, last) && SystemInv(s) && s.node.session.phase == Fetching && s.node.session.nonce == 2
    ensures var s' := OnFrame(codec, s, 0, last, 0);
      && s'.node.session.phase == Live && s'.node.session.livenessAt == Some(LIVENESS_MS)
      && s'.node.tx == s.node.tx && s'.node.cache == Cache(s.node.cache.frames, true) && s'.table == s.table
  {
    assert Deliveries(codec, s.node.session, last, codec.fromRadio(last).value) == [];
  }

  lemma StartsWithTwo(codec: Codec, s: System)
    requires Lawful(codec) && s.node == NODE_INIT
    ensures var s' := Step(codec, s, 0, Boots(2));
      && s'.node.session.phase == Fetching && s'.node.session.nonce == 2 && s'.node.cache.frames == []
      && |s'.node.tx.queue| == 1 && s'.table == s.table && s'.rx == s.rx
  {
    NodeRunOfOne(codec, s.node, 0, Start(2));
    assert codec.wantConfig(2).Some?;
  }

  /** The session starts with nonce 2, and an empty burst closes its fetch. */
  function Opening(last: Bytes): seq<Moment>
    requires FrameSized(last)
  {
    [Moment(0, Boots(2))] + [Moment(0, RxReady(Encode(last)))] + [Moment(0, RxWork([]))]
  }

  /** LIVE over an empty cache, the liveness deadline set at time 0, `k` packets waiting for the UART. */
  ghost predicate LiveAt(s: System, k: nat) {
    && SystemInv(s) && s.node.session.phase == Live && s.node.session.livenessAt == Some(LIVENESS_MS)
    && s.node.cache.frames == [] && s.rx == RX_INIT && |s.node.tx.queue| == k
  }

  lemma OpeningSteps(codec: Codec, s: System, last: Bytes, s1: System, s2: System, s3: System)
    requires Lawful(codec) && ClosesTwo(codec, last) && SystemInv(s) && s.node == NODE_INIT && s.rx == RX_INIT
    requires s1 == Step(codec, s, 0, Boots(2)) && s2 == Step(codec, s1, 0, RxReady(Encode(last)))
    requires s3 == Step(codec, s2, 0, RxWork([]))
    ensures LiveAt(s3, 1) && s3.table == s.table
  {
    StepKeepsInv(codec, s, 0, Boots(2));
    StepKeepsInv(codec, s1, 0, RxReady(Encode(last)));
    StepKeepsInv(codec, s2, 0, RxWork([]));
    StartsWithTwo(codec, s);
    BytesArrive(codec, s1, 0, Encode(last));
    FrameArrives(codec, s2, 0, last);
    TerminatorArrives(codec, s2, last);
  }

  lemma OpeningGoesLive(codec: Codec, s: System, last: Bytes)
    requires Lawful(codec) && ClosesTwo(codec, last) && SystemInv(s) && s.node == NODE_INIT && s.rx == RX_INIT
    ensures var s' := SystemRun(codec, s, Opening(last)); LiveAt(s', 1) && s'.table == s.table
  {
    var s1 := Step(codec, s, 0, Boots(2));
    var s2 := Step(codec, s1, 0, RxReady(Encode(last)));
    ThreeSteps(codec, s, Moment(0, Boots(2)), Moment(0, RxReady(Encode(last))), Moment(0, RxWork([])), s1, s2);
    OpeningSteps(codec, s, last, s1, s2, Step(codec, s2, 0, RxWork([])));
  }

  // ---------------------------------------------------------------- one phone

  /** A phone connects first. */
  function GoLive(c: Conn, last: Bytes): seq<Moment>
    requires FrameSized(last)
  {
    [Moment(0, Connects(c))] + Opening(last)
  }

  /** `c` is connected, idle and has never asked. */
  predicate Idles(t: Table, c: Conn) {
    SlotOf(t, c).Some? && SlotOf(t, c).value.state == Connected && SlotOf(t, c).value.nonce == 0
  }

  lemma ConnectsFirst(codec: Codec, c: Conn)
    ensures var s := Step(codec, SYSTEM_INIT, 0, Connects(c));
      s.node == NODE_INIT && s.rx == RX_INIT && Idles(s.table, c)
  {
    var t := TableStep(codec, [], TABLE_INIT, Connect(c));
    RunOfOne(codec, [], TABLE_INIT, Connect(c));
    assert t.slots[0].conn == Some(c);
    FirstUnique(t.slots, (x: Slot) => x.conn == Some(c), 0);
  }

  lemma LiveFromPowerUp(codec: Codec, c: Conn, last: Bytes)
    requires Lawful(codec) && ClosesTwo(codec, last)
    ensures var s := SystemRun(codec, SYSTEM_INIT, GoLive(c, last)); LiveAt(s, 1) && Idles(s.table, c)
  {
    var s1 := Step(codec, SYSTEM_INIT, 0, Connects(c));
    InitialSystem();
    StepKeepsInv(codec, SYSTEM_INIT, 0, Connects(c));
    ConnectsFirst(codec, c);
    OneStep(codec, SYSTEM_INIT, Moment(0, Connects(c)));
    SystemRunConcat(codec, SYSTEM_INIT, [Moment(0, Connects(c))], Opening(last));
    OpeningGoesLive(codec, s1, last);
  }

  /** A write passed on to the node takes a place in the transmit queue and leaves everything else alone. */
  lemma PassedOn(codec: Codec, s: System, now: nat, c: Conn, p: Bytes, s': System)
    requires SystemInv(s) && Forwardable(codec, p) && |p| <= MAX_PAYLOAD
    requires s' == Step(codec, s, now, Writes(c, p))
    ensures SystemInv(s') && s'.table == s.table
    ensures s'.rx == s.rx && s'.node.cache == s.node.cache
    ensures s'.node.session.livenessAt == s.node.session.livenessAt && s'.node.session.phase == s.node.session.phase
    ensures s'.node.tx.queue == s.node.tx.queue + (if |s.node.tx.queue| < UartTx.QUEUE_DEPTH then [p] else [])
  {
    StepKeepsInv(codec, s, now, Writes(c, p));
    ForwardStep(codec, s, now, c, p);
  }

  /** A phone sends `n` packets before the transmit work item runs. */
  function Sends(c: Conn, p: Bytes, n: nat): seq<Moment> { seq(n, _ => Moment(0, Writes(c, p))) }

  lemma OneMoreQueued(codec: Codec, s: System, k: nat, c: Conn, p: Bytes, s1: System)
    requires LiveAt(s, k) && k < UartTx.QUEUE_DEPTH && Forwardable(codec, p) && |p| <= MAX_PAYLOAD
    requires s1 == Step(codec, s, 0, Writes(c, p))
    ensures LiveAt(s1, k + 1) && s1.table == s.table
  {
    PassedOn(codec, s, 0, c, p, s1);
  }

  lemma SendsSplit(codec: Codec, s: System, n: nat, c: Conn, p: Bytes, s1: System)
    requires n > 0 && s1 == Step(codec, s, 0, Writes(c, p))
    ensures SystemRun(codec, s, Sends(c, p, n)) == SystemRun(codec, s1, Sends(c, p, n - 1))
  {
    assert Sends(c, p, n)[1..] == Sends(c, p, n - 1);
  }

  lemma {:induction false} SendsFill(codec: Codec, s: System, k: nat, n: nat, c: Conn, p: Bytes)
    requires LiveAt(s, k) && k + n <= UartTx.QUEUE_DEPTH && Forwardable(codec, p) && |p| <= MAX_PAYLOAD
    ensures var s' := SystemRun(codec, s, Sends(c, p, n)); LiveAt(s', k + n) && s'.table == s.table
    decreases n
  {
    if n > 0 {
      var s1 := Step(codec, s, 0, Writes(c, p));
      OneMoreQueued(codec, s, k, c, p, s1);
      SendsFill(codec, s1, k + 1, n - 1, c, p);
      SendsSplit(codec, s, n, c, p, s1);
    }
  }

  lemma QueueFills(codec: Codec, c: Conn, last: Bytes, p: Bytes, n: nat)
    requires Lawful(codec) && ClosesTwo(codec, last)
    requires Forwardable(codec, p) && |p| <= MAX_PAYLOAD && n < UartTx.QUEUE_DEPTH
    ensures var s := SystemRun(codec, SYSTEM_INIT, GoLive(c, last) + Sends(c, p, n));
      LiveAt(s, n + 1) && Idles(s.table, c)
  {
    LiveFromPowerUp(codec, c, last);
    SystemRunConcat(codec, SYSTEM_INIT, GoLive(c, last), Sends(c, p, n));
    SendsFill(codec, SystemRun(codec, SYSTEM_INIT, GoLive(c, last)), 1, n, c, p);
  }

  // ---------------------------------------------------------------- the premises of the main theorem

  /** One frame arrives and is processed, at time 0. */
  function Fetch(last: Bytes): seq<Moment>
    requires FrameSized(last)
  {
    [Moment(0, RxReady(Encode(last))), Moment(0, RxWork([]))]
  }

  lemma FetchRxTrace(last: Bytes)
    requires FrameSized(last)
    ensures RxTrace(Fetch(last)) == [RxStamp(0, Ready(Encode(last))), RxStamp(0, Work)]
    ensures Arrived(RxTrace(Fetch(last))) == Encode(last)
  {
    var es := Fetch(last);
    assert es[1..] == [Moment(0, RxWork([]))] && es[1..][1..] == [];
    assert RxTrace(es[1..]) == [RxStamp(0, Work)] + RxTrace([]);
    var t := RxTrace(es);
    assert t[1..] == [RxStamp(0, Work)] && t[1..][1..] == [];
    assert Arrived(t[1..]) == Arrived([]) == [];
    assert Encode(last) + [] == Encode(last);
  }

  lemma FetchIsPrompt(last: Bytes)
    requires FrameSized(last)
    ensures Received(RX_INIT, Fetch(last), 0)
  {
    var r1 := Rx(Encode(last), WaitMagic1, None);
    var t := [RxStamp(0, Ready(Encode(last))), RxStamp(0, Work)];
    FetchRxTrace(last);
    FrameDecodes(WaitMagic1, last);
    assert [] + Encode(last)[..|Encode(last)|] == Encode(last);
    assert RxStep(RX_INIT, 0, Ready(Encode(last))) == r1;
    assert t[1..] == [RxStamp(0, Work)] && t[1..][1..] == [];
    assert Prompt(RxStep(r1, 0, Work), [], 0) && Prompt(r1, t[1..], 0);
    assert RxRun(RxStep(r1, 0, Work), []) == RX_INIT && RxRun(r1, t[1..]) == RX_INIT;
  }

  lemma FetchIsABurst(codec: Codec, last: Bytes)
    requires ClosesTwo(codec, last)
    ensures BurstOnTheLine(codec, 2, WaitMagic1, Encode(last), Line([], [[], []], [last]), [], last, [])
  {
    var noise: seq<Bytes>, framed := [[], []], [last];
    assert noise[1..] == [[]] && framed[1..] == [];
    assert Stream(noise[1..], framed[1..]) == [];
    assert Stream(noise, framed) == [] + Encode(last) + [] == Encode(last);
    assert [] + Encode(last) == Encode(last);
    assert [] + framed == [] + [last] + [];
  }

  /** The session hears one frame, at once. */
  lemma FetchTrace(codec: Codec, s: System, last: Bytes, s1: System)
    requires FrameSized(last) && codec.fromRadio(last).Some? && s.rx == RX_INIT
    requires s1 == Step(codec, s, 0, RxReady(Encode(last)))
    ensures Trace(codec, s, Fetch(last)) == [Stamp(0, FrameIn(last, codec.fromRadio(last).value, 0))]
  {
    var es := Fetch(last);
    BytesArrive(codec, s, 0, Encode(last));
    FrameDecodes(WaitMagic1, last);
    assert es[1..] == [Moment(0, RxWork([]))] && es[1..][1..] == [];
    assert FramesOf(s1, RxWork([])) == [last] && [last][1..] == [];
    var st := Stamp(0, FrameIn(last, codec.fromRadio(last).value, 0));
    assert FrameTrace(codec, 0, [last], []) == [st] + FrameTrace(codec, 0, [], []);
    assert StepTrace(codec, s, 0, RxReady(Encode(last))) == [];
    assert Trace(codec, s1, es[1..])
        == FrameTrace(codec, 0, [last], []) + Trace(codec, Step(codec, s1, 0, RxWork([])), []);
  }

  /**
   * The premises of the end-to-end theorem can be met, whatever the codec: a phone connects, the
   * session starts, a burst of one terminator arrives, and the phone can ask.
   */
  lemma EndToEndApplies(codec: Codec, c: Conn, last: Bytes, s: System, s0: System, s1: System)
    requires Lawful(codec) && ClosesTwo(codec, last)
    requires s == Step(codec, SYSTEM_INIT, 0, Connects(c)) && s0 == Step(codec, s, 0, Boots(2))
    requires s1 == SystemRun(codec, s0, Fetch(last))
    ensures FetchOpen(s0.node, 0) && Steady(codec, s0.node, Trace(codec, s0, Fetch(last)), 0)
    ensures Received(s0.rx, Fetch(last), 0)
    ensures BurstOnTheLine(codec, s0.node.session.nonce, s0.rx.dec, s0.rx.ring + Arrived(RxTrace(Fetch(last))),
                           Line([], [[], []], [last]), [], last, [])
    ensures s1.node.session.phase == Live && SlotOf(s1.table, c).Some?
  {
    ConnectsFirst(codec, c);
    OpensAtZero(codec, s, s0);
    FetchIsPrompt(last);
    FetchRxTrace(last);
    FetchIsABurst(codec, last);
    assert [] + Encode(last) == Encode(last);
    FetchTrace(codec, s0, last, Step(codec, s0, 0, RxReady(Encode(last))));
    OneEventIsSteady(codec, s0.node, Stamp(0, FrameIn(last, codec.fromRadio(last).value, 0)));
    FetchGoesLive(codec, c, last, s, s0, s1);
  }

  lemma OpensAtZero(codec: Codec, s: System, s0: System)
    requires Lawful(codec) && s.node == NODE_INIT && s.rx == RX_INIT && s0 == Step(codec, s, 0, Boots(2))
    ensures FetchOpen(s0.node, 0) && s0.node.session.nonce == 2 && s0.rx == RX_INIT && s0.table == s.table
  {
    NodeRunOfOne(codec, s.node, 0, Start(2));
    assert codec.wantConfig(2).Some?;
  }

  lemma OneEventIsSteady(codec: Codec, u: Node, st: Stamp)
    requires st.now == 0
    ensures Steady(codec, u, [st], 0)
  {
    assert [st][1..] == [];
  }

  lemma FetchGoesLive(codec: Codec, c: Conn, last: Bytes, s: System, s0: System, s1: System)
    requires Lawful(codec) && ClosesTwo(codec, last)
    requires s == Step(codec, SYSTEM_INIT, 0, Connects(c)) && s0 == Step(codec, s, 0, Boots(2))
    requires s1 == SystemRun(codec, s0, Fetch(last))
    ensures s1.node.session.phase == Live && SlotOf(s1.table, c).Some?
  {
    var a := Step(codec, s0, 0, RxReady(Encode(last)));
    InitialSystem();
    StepKeepsInv(codec, SYSTEM_INIT, 0, Connects(c));
    ConnectsFirst(codec, c);
    OpeningSteps(codec, s, last, s0, a, Step(codec, a, 0, RxWork([])));
    TwoSteps(codec, s0, Fetch(last)[0], Fetch(last)[1], a);
    assert Fetch(last) == [Fetch(last)[0], Fetch(last)[1]];
  }

  lemma TwoSteps(codec: Codec, s: System, a: Moment, b: Moment, s1: System)
    requires s1 == Step(codec, s, a.now, a.event)
    ensures SystemRun(codec, s, [a, b]) == Step(codec, s1, b.now, b.event)
  {
    assert [a, b][1..] == [b];
    OneStep(codec, s1, b);
  }

  // ---------------------------------------------------------------- many phones

  function FirstConns(k: nat): multiset<Conn> {
    if k == 0 then multiset{} else FirstConns(k - 1) + multiset{k - 1}
  }

  lemma {:induction false} FirstConnsAreBelow(k: nat, c: Conn)
    requires k <= c
    ensures c !in FirstConns(k)
  {
    if k > 0 { FirstConnsAreBelow(k - 1, c); }
  }

  /** Phones 0 to `k - 1` hold the first slots. */
  function FirstTaken(k: nat): Table
    requires k <= MAX_CONNS
  {
    TABLE_INIT.(
      slots := seq(MAX_CONNS, j requires 0 <= j < MAX_CONNS => if j < k then Allocated(EMPTY_SLOT, j) else EMPTY_SLOT),
      active := k,
      refs := FirstConns(k))
  }

  lemma NextConnects(codec: Codec, fs: seq<Frame>, k: nat, t: Table)
    requires k < MAX_CONNS && t == FirstTaken(k)
    ensures TableStep(codec, fs, t, Connect(k)) == FirstTaken(k + 1)
  {
    FirstConnsAreBelow(k, k);
    FirstUnique(t.slots, (s: Slot) => s.conn == None, k);
    assert t.slots[k := Allocated(t.slots[k], k)] == FirstTaken(k + 1).slots;
  }

  /** From power-up, phones 0 to `k - 1` connect one after the other. */
  function Joined(codec: Codec, k: nat): System {
    if k == 0 then SYSTEM_INIT else Step(codec, Joined(codec, k - 1), 0, Connects(k - 1))
  }

  lemma {:induction false} JoinedIsReachable(codec: Codec, k: nat)
    ensures SystemInv(Joined(codec, k))
  {
    if k == 0 {
      InitialSystem();
    } else {
      JoinedIsReachable(codec, k - 1);
      StepKeepsInv(codec, Joined(codec, k - 1), 0, Connects(k - 1));
    }
  }

  lemma {:induction false} PhonesArrive(codec: Codec, k: nat)
    requires k <= MAX_CONNS
    ensures Joined(codec, k) == SYSTEM_INIT.(table := FirstTaken(k))
  {
    if k == 0 {
      assert FirstTaken(0).slots == TABLE_INIT.slots;
    } else {
      var s := Joined(codec, k - 1);
      PhonesArrive(codec, k - 1);
      OneTableStep(codec, s, 0, Connects(k - 1), Connect(k - 1));
      NextConnects(codec, s.node.cache.frames, k - 1, s.table);
    }
  }
}
