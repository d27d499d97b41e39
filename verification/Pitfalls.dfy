/**
 * Where the code falls short of what its documents promise, as runs from power-up, and exactly
 * when: other phones' packets against a recovery, exhausted slots, the lost liveness watchdog, the
 * stray terminator, nonce 0, the refused disconnect, torn frames.
 */
module Pitfalls {
  import opened Prelude
  import opened Wire
  import opened ConfigCache
  import opened UartRx
  import opened UartTx
  import opened Phones
  import opened Upstream
  import opened Proxy
  import opened Watchdogs
  import opened Timing
  import opened Teardown
  import opened Invariants
  import opened Isolation
  import opened Boundary
  import opened Routing
  import opened EndToEnd
  import opened PowerUp

  // ---------------------------------------------------------------- packets against a recovery

  /** A phone asks for the config and reads once. */
  function AskAndRead(c: Conn, data: Bytes, t1: nat, t2: nat, len: nat): seq<Moment> {
    [Moment(t1, Writes(c, data)), Moment(t2, Reads(c, 0, len))]
  }

  lemma ReadsOfAsking(codec: Codec, s: System, c: Conn, data: Bytes, t1: nat, t2: nat, len: nat)
    ensures var s1 := Step(codec, s, t1, Writes(c, data));
      ReplayReads(codec, s, AskAndRead(c, data, t1, t2, len), c, false)
        == if IsReplayRead(s1, Reads(c, 0, len), c) then [ReadBy(s1, c, 0, len)] else []
  {
    var s1, rest := Step(codec, s, t1, Writes(c, data)), [Moment(t2, Reads(c, 0, len))];
    assert AskAndRead(c, data, t1, t2, len)[1..] == rest && rest[1..] == [];
    var mid := MidAfter(s1, Reads(c, 0, len), c, false);
    assert ReplayReads(codec, Step(codec, s1, t2, Reads(c, 0, len)), [], c, mid) == [];
    assert [ReadBy(s1, c, 0, len)] + [] == [ReadBy(s1, c, 0, len)];
  }

  /** An idle phone that asks gets a replay exactly while the session is LIVE. */
  lemma AskingWorksIffLive(codec: Codec, s: System, c: Conn, data: Bytes, n: u32, t1: nat, t2: nat, len: nat)
    requires Lawful(codec) && SystemInv(s) && codec.toRadio(data) == Some(WantConfig(n))
    requires SlotOf(s.table, c).Some? && SlotOf(s.table, c).value.state != Replaying
    ensures |ReplayReads(codec, s, AskAndRead(c, data, t1, t2, len), c, false)|
         == if s.node.session.phase == Live then 1 else 0
  {
    assert codec.configComplete(ArmNonce(SlotOf(s.table, c).value, n)).Some?;
    WantConfigServedIffLive(codec, s, t1, c, data, n);
    ReadsOfAsking(codec, s, c, data, t1, t2, len);
  }

  function ExpireAskAndRead(now: nat, rand: u32, c: Conn, data: Bytes, t1: nat, t2: nat, len: nat): seq<Moment> {
    [Moment(now, LivenessDue(rand))] + AskAndRead(c, data, t1, t2, len)
  }

  lemma ReadsAfterExpiry(codec: Codec, s: System, now: nat, rand: u32, c: Conn, data: Bytes, t1: nat, t2: nat, len: nat)
    ensures ReplayReads(codec, s, ExpireAskAndRead(now, rand, c, data, t1, t2, len), c, false)
         == ReplayReads(codec, Step(codec, s, now, LivenessDue(rand)), AskAndRead(c, data, t1, t2, len), c, false)
  {
    assert ExpireAskAndRead(now, rand, c, data, t1, t2, len)[1..] == AskAndRead(c, data, t1, t2, len);
  }

  /** After the expiry the session is LIVE exactly if it did not start a recovery, and the phone looks as before. */
  lemma AfterExpiry(codec: Codec, s: System, now: nat, rand: u32, c: Conn)
    requires SystemInv(s) && s.node.session.phase == Live && SlotOf(s.table, c).Some?
    ensures var s' := Step(codec, s, now, LivenessDue(rand));
      && SystemInv(s') && SlotOf(s'.table, c).Some? && Look(SlotOf(s'.table, c).value) == Look(SlotOf(s.table, c).value)
      && (s'.node.session.phase == Live <==> !Recovers(codec, s.node, Stamp(now, LivenessFire(rand))))
  {
    StepKeepsInv(codec, s, now, LivenessDue(rand));
    OthersStep(codec, s, now, LivenessDue(rand), c);
    NodeRunOfOne(codec, s.node, now, LivenessFire(rand));
  }

  /** Two systems that look alike to a phone answer it alike. */
  lemma AlikeAnswerAlike(codec: Codec, s: System, z: System, c: Conn, data: Bytes, t1: nat, t2: nat, len: nat)
    requires Alike(s, z, c) && codec.toRadio(data).Some? && codec.toRadio(data).value.WantConfig?
    ensures ReplayReads(codec, s, AskAndRead(c, data, t1, t2, len), c, false)
         == ReplayReads(codec, z, AskAndRead(c, data, t1, t2, len), c, false)
  {
    assert StepTrace(codec, s, t1, Writes(c, data)) == [];
    BothStep(codec, s, z, t1, Writes(c, data), c);
    var s1, z1 := Step(codec, s, t1, Writes(c, data)), Step(codec, z, t1, Writes(c, data));
    SameRead(codec, s1, z1, Reads(c, 0, len), c, false);
    ReadsOfAsking(codec, s, c, data, t1, t2, len);
    ReadsOfAsking(codec, z, c, data, t1, t2, len);
  }

  /** Both recover, or neither: the phone's question is answered alike. */
  lemma AlikeAfterExpiry(
    codec: Codec, s: System, z: System, now: nat, rand: u32, c: Conn, data: Bytes, t1: nat, t2: nat, len: nat)
    requires Alike(s, z, c) && codec.toRadio(data).Some? && codec.toRadio(data).value.WantConfig?
    requires var st := Stamp(now, LivenessFire(rand)); Recovers(codec, s.node, st) == Recovers(codec, z.node, st)
    ensures var run := ExpireAskAndRead(now, rand, c, data, t1, t2, len);
      ReplayReads(codec, s, run, c, false) == ReplayReads(codec, z, run, c, false)
  {
    var e, st := LivenessDue(rand), Stamp(now, LivenessFire(rand));
    assert StepTrace(codec, s, now, e) == [st] && [st][1..] == [];
    BothStep(codec, s, z, now, e, c);
    AlikeAnswerAlike(codec, Step(codec, s, now, e), Step(codec, z, now, e), c, data, t1, t2, len);
    ReadsAfterExpiry(codec, s, now, rand, c, data, t1, t2, len);
    ReadsAfterExpiry(codec, z, now, rand, c, data, t1, t2, len);
  }

  /** The phone gets a replay exactly if the expiry did not start a recovery. */
  lemma ReplayUnlessRecovery(
    codec: Codec, s: System, now: nat, rand: u32, c: Conn, data: Bytes, n: u32, t1: nat, t2: nat, len: nat)
    requires Lawful(codec) && SystemInv(s) && s.node.session.phase == Live && codec.toRadio(data) == Some(WantConfig(n))
    requires SlotOf(s.table, c).Some? && SlotOf(s.table, c).value.state != Replaying
    ensures |ReplayReads(codec, s, ExpireAskAndRead(now, rand, c, data, t1, t2, len), c, false)|
         == if Recovers(codec, s.node, Stamp(now, LivenessFire(rand))) then 0 else 1
  {
    AfterExpiry(codec, s, now, rand, c);
    ReadsAfterExpiry(codec, s, now, rand, c, data, t1, t2, len);
    AskingWorksIffLive(codec, Step(codec, s, now, LivenessDue(rand)), c, data, n, t1, t2, len);
  }

  /**
   * Exactly when packets of other phones show: take two systems that look alike to an idle phone,
   * one of them with other phones' packets on its way to the node. After the liveness watchdog's
   * handler has run, the phone's question is answered alike if and only if both started a
   * recovery, or neither.
   */
  lemma RecoveryShowsIff(
    codec: Codec, s: System, z: System, now: nat, rand: u32, c: Conn, data: Bytes, n: u32, t1: nat, t2: nat, len: nat)
    requires Lawful(codec) && Alike(s, z, c) && codec.toRadio(data) == Some(WantConfig(n))
    requires s.node.session.phase == Live && SlotOf(s.table, c).Some? && SlotOf(s.table, c).value.state != Replaying
    ensures var run, st := ExpireAskAndRead(now, rand, c, data, t1, t2, len), Stamp(now, LivenessFire(rand));
      (ReplayReads(codec, s, run, c, false) == ReplayReads(codec, z, run, c, false))
      <==> (Recovers(codec, s.node, st) <==> Recovers(codec, z.node, st))
  {
    var st := Stamp(now, LivenessFire(rand));
    if Recovers(codec, s.node, st) == Recovers(codec, z.node, st) {
      AlikeAfterExpiry(codec, s, z, now, rand, c, data, t1, t2, len);
    } else {
      ReplayUnlessRecovery(codec, s, now, rand, c, data, n, t1, t2, len);
      ReplayUnlessRecovery(codec, z, now, rand, c, data, n, t1, t2, len);
    }
  }

  /**
   * Phones' packets can interfere: in every LIVE state whose liveness watchdog is due and whose
   * transmit queue has one place left, another phone's packet takes it, no recovery can start, and
   * a phone that asks next is served, while without that packet it would be ignored.
   */
  lemma PacketsCanInterfere(
    codec: Codec, s: System, t0: nat, other: Conn, p: Bytes, es: seq<Moment>,
    now: nat, rand: u32, c: Conn, data: Bytes, n: u32, t1: nat, t2: nat, len: nat)
    requires Lawful(codec) && SystemInv(s) && s.node.session.phase == Live && Due(s.node.session.livenessAt, now)
    requires |s.node.tx.queue| == UartTx.QUEUE_DEPTH - 1
    requires other != c && Forwardable(codec, p) && |p| <= MAX_PAYLOAD
    requires codec.toRadio(data) == Some(WantConfig(n))
    requires SlotOf(s.table, c).Some? && SlotOf(s.table, c).value.state != Replaying
    requires es == [Moment(t0, Writes(other, p))] + ExpireAskAndRead(now, rand, c, data, t1, t2, len)
    ensures ReplayReads(codec, s, es, c, false) != ReplayReads(codec, s, Erase(es, c), c, false)
  {
    var run, s1 := ExpireAskAndRead(now, rand, c, data, t1, t2, len), Step(codec, s, t0, Writes(other, p));
    ErasedFirst(codec, s, Moment(t0, Writes(other, p)), run, c);
    ErasedStep(codec, s, s, t0, Writes(other, p), c);
    PassedOn(codec, s, t0, other, p, s1);
    RecoversIffRoom(codec, s.node, now, rand);
    RecoversIffRoom(codec, s1.node, now, rand);
    RecoveryShowsIff(codec, s1, s, now, rand, c, data, n, t1, t2, len);
  }

  /** A due expiry starts a recovery exactly if the transmit queue has room. */
  lemma RecoversIffRoom(codec: Codec, u: Node, now: nat, rand: u32)
    requires Lawful(codec) && u.session.phase == Live && Due(u.session.livenessAt, now)
    ensures Recovers(codec, u, Stamp(now, LivenessFire(rand))) <==> |u.tx.queue| < UartTx.QUEUE_DEPTH
  {
    assert codec.wantConfig(PickNonce(rand)).Some?;
  }

  /** A run that starts with another phone's step, and the rest of it. */
  lemma ErasedFirst(codec: Codec, s: System, m: Moment, run: seq<Moment>, c: Conn)
    requires Foreign(m.event, c) && forall x :: x in run ==> !Foreign(x.event, c)
    ensures Erase([m] + run, c) == run
    ensures ReplayReads(codec, s, [m] + run, c, false)
         == ReplayReads(codec, Step(codec, s, m.now, m.event), run, c, false)
  {
    assert ([m] + run)[1..] == run;
    ErasureKeeps(run, c);
  }

  lemma {:induction false} ErasureKeeps(es: seq<Moment>, c: Conn)
    requires forall m :: m in es ==> !Foreign(m.event, c)
    ensures Erase(es, c) == es
    decreases |es|
  {
    if es != [] {
      assert es[0] in es;
      ErasureKeeps(es[1..], c);
    }
  }

  // ---------------------------------------------------------------- ... from power-up

  /** Non-interference fails from power-up: two packets of the phone's own and one of another phone's suffice. */
  lemma PacketsInterfereFromPowerUp(
    codec: Codec, c: Conn, other: Conn, last: Bytes, p: Bytes, s: System,
    es: seq<Moment>, rand: u32, data: Bytes, n: u32)
    requires Lawful(codec) && ClosesTwo(codec, last) && Forwardable(codec, p) && |p| <= MAX_PAYLOAD && other != c
    requires codec.toRadio(data) == Some(WantConfig(n))
    requires s == SystemRun(codec, SYSTEM_INIT, GoLive(c, last) + Sends(c, p, 2))
    requires es == [Moment(0, Writes(other, p))]
                   + ExpireAskAndRead(LIVENESS_MS, rand, c, data, LIVENESS_MS, LIVENESS_MS, MAX_PKT)
    ensures SystemInv(s) && ReplayReads(codec, s, es, c, false) != ReplayReads(codec, s, Erase(es, c), c, false)
  {
    QueueFills(codec, c, last, p, 2);
    PacketsCanInterfere(codec, s, 0, other, p, es, LIVENESS_MS, rand, c, data, n, LIVENESS_MS, LIVENESS_MS, MAX_PKT);
  }

  // ---------------------------------------------------------------- slots

  function ConnectAskAndRead(c: Conn, data: Bytes, t1: nat, t2: nat, len: nat): seq<Moment> {
    [Moment(t1, Connects(c))] + AskAndRead(c, data, t1, t2, len)
  }

  lemma ReadsAfterConnect(codec: Codec, s: System, c: Conn, data: Bytes, t1: nat, t2: nat, len: nat, s1: System)
    requires s1 == Step(codec, s, t1, Connects(c))
    ensures ReplayReads(codec, s, ConnectAskAndRead(c, data, t1, t2, len), c, false)
         == ReplayReads(codec, s1, AskAndRead(c, data, t1, t2, len), c, false)
  {
    assert ConnectAskAndRead(c, data, t1, t2, len)[1..] == AskAndRead(c, data, t1, t2, len);
  }

  /** A phone without a slot is not answered at all. */
  lemma NoSlotNoReplay(codec: Codec, s: System, c: Conn, data: Bytes, t1: nat, t2: nat, len: nat)
    requires SystemInv(s) && SlotOf(s.table, c).None?
    ensures ReplayReads(codec, s, AskAndRead(c, data, t1, t2, len), c, false) == []
  {
    StepStaysWithout(codec, s, t1, Writes(c, data), c);
    ReadsOfAsking(codec, s, c, data, t1, t2, len);
  }

  /** A phone that connects to a LIVE proxy and asks gets a replay exactly if it gets a slot. */
  lemma ReplayIffAdmitted(codec: Codec, s: System, c: Conn, data: Bytes, n: u32, t1: nat, t2: nat, len: nat)
    requires Lawful(codec) && SystemInv(s) && s.node.session.phase == Live && SlotOf(s.table, c).None?
    requires codec.toRadio(data) == Some(WantConfig(n))
    ensures |ReplayReads(codec, s, ConnectAskAndRead(c, data, t1, t2, len), c, false)|
         == if Admits(s.table, c) then 1 else 0
  {
    var s1 := Step(codec, s, t1, Connects(c));
    StepKeepsInv(codec, s, t1, Connects(c));
    PhoneStepKeepsShared(codec, s, t1, Connects(c));
    OwnConnect(codec, s, t1, c);
    ReadsAfterConnect(codec, s, c, data, t1, t2, len, s1);
    if Admits(s.table, c) {
      AskingWorksIffLive(codec, s1, c, data, n, t1, t2, len);
    } else {
      NoSlotNoReplay(codec, s1, c, data, t1, t2, len);
    }
  }

  lemma AlikeAfterConnect(codec: Codec, s: System, z: System, c: Conn, data: Bytes, t1: nat, t2: nat, len: nat)
    requires Alike(s, z, c) && SameAdmission(s, z, Connects(c), c)
    requires codec.toRadio(data).Some? && codec.toRadio(data).value.WantConfig?
    ensures var run := ConnectAskAndRead(c, data, t1, t2, len);
      ReplayReads(codec, s, run, c, false) == ReplayReads(codec, z, run, c, false)
  {
    var s1, z1 := Step(codec, s, t1, Connects(c)), Step(codec, z, t1, Connects(c));
    assert StepTrace(codec, s, t1, Connects(c)) == [];
    BothStep(codec, s, z, t1, Connects(c), c);
    ReadsAfterConnect(codec, s, c, data, t1, t2, len, s1);
    ReadsAfterConnect(codec, z, c, data, t1, t2, len, z1);
    AlikeAnswerAlike(codec, s1, z1, c, data, t1, t2, len);
  }

  /**
   * Exactly when other phones' connections show: to a phone that connects to a LIVE proxy and
   * asks, two systems that looked alike answer alike if and only if both have a slot for it, or
   * neither has.
   */
  lemma AdmissionShowsIff(
    codec: Codec, s: System, z: System, c: Conn, data: Bytes, n: u32, t1: nat, t2: nat, len: nat)
    requires Lawful(codec) && Alike(s, z, c) && codec.toRadio(data) == Some(WantConfig(n))
    requires s.node.session.phase == Live && SlotOf(s.table, c).None?
    ensures var run := ConnectAskAndRead(c, data, t1, t2, len);
      (ReplayReads(codec, s, run, c, false) == ReplayReads(codec, z, run, c, false))
      <==> (Admits(s.table, c) <==> Admits(z.table, c))
  {
    if Admits(s.table, c) == Admits(z.table, c) {
      AlikeAfterConnect(codec, s, z, c, data, t1, t2, len);
    } else {
      ReplayIffAdmitted(codec, s, c, data, n, t1, t2, len);
      ReplayIffAdmitted(codec, z, c, data, n, t1, t2, len);
    }
  }

  /**
   * Slots can run out, if the stack's pool is larger than the slot table: in every LIVE state with
   * a single free slot, another phone that connects first takes it, and a phone that connects next
   * is never served, while without the other it would be.
   */
  lemma ConnectionsCanInterfere(
    codec: Codec, s: System, other: Conn, es: seq<Moment>, c: Conn, data: Bytes, n: u32,
    t0: nat, t1: nat, t2: nat, len: nat)
    requires Lawful(codec) && SystemInv(s) && s.node.session.phase == Live && codec.toRadio(data) == Some(WantConfig(n))
    requires other != c && SlotOf(s.table, c).None? && Admits(s.table, c) && Admits(s.table, other)
    requires forall j :: 0 <= j < |s.table.slots| && s.table.slots[j].conn.None? ==> j == FirstFree(s.table.slots)
    requires es == [Moment(t0, Connects(other))] + ConnectAskAndRead(c, data, t1, t2, len)
    ensures ReplayReads(codec, s, es, c, false) != ReplayReads(codec, s, Erase(es, c), c, false)
  {
    var run, s1 := ConnectAskAndRead(c, data, t1, t2, len), Step(codec, s, t0, Connects(other));
    ErasedFirst(codec, s, Moment(t0, Connects(other)), run, c);
    ErasedStep(codec, s, s, t0, Connects(other), c);
    OneTableStep(codec, s, t0, Connects(other), Connect(other));
    LastSlotTaken(codec, s.node.cache.frames, s.table, other, c);
    StepStaysWithout(codec, s, t0, Connects(other), c);
    AdmissionShowsIff(codec, s1, s, c, data, n, t1, t2, len);
  }

  lemma LastSlotTaken(codec: Codec, fs: seq<Frame>, t: Table, other: Conn, c: Conn)
    requires Admits(t, other)
    requires forall j :: 0 <= j < |t.slots| && t.slots[j].conn.None? ==> j == FirstFree(t.slots)
    ensures !Admits(TableStep(codec, fs, t, Connect(other)), c)
  {
  }

  /** ... from power-up: five phones are connected, a sixth comes, and phone 6 finds no slot. */
  lemma SlotsRunOutFromPowerUp(
    codec: Codec, last: Bytes, s: System, es: seq<Moment>, data: Bytes, n: u32, t1: nat, t2: nat, len: nat)
    requires Lawful(codec) && ClosesTwo(codec, last) && codec.toRadio(data) == Some(WantConfig(n))
    requires s == SystemRun(codec, Joined(codec, MAX_CONNS - 1), Opening(last))
    requires es == [Moment(t1, Connects(5))] + ConnectAskAndRead(6, data, t1, t2, len)
    ensures SystemInv(s) && ReplayReads(codec, s, es, 6, false) != ReplayReads(codec, s, Erase(es, 6), 6, false)
  {
    JoinedIsReachable(codec, MAX_CONNS - 1);
    PhonesArrive(codec, MAX_CONNS - 1);
    OpeningGoesLive(codec, Joined(codec, MAX_CONNS - 1), last);
    OneSlotLeft(s.table);
    ConnectionsCanInterfere(codec, s, 5, es, 6, data, n, t1, t1, t2, len);
  }

  lemma OneSlotLeft(t: Table)
    requires t == FirstTaken(MAX_CONNS - 1)
    ensures SlotOf(t, 6).None? && Admits(t, 6) && Admits(t, 5)
    ensures forall j :: 0 <= j < |t.slots| && t.slots[j].conn.None? ==> j == FirstFree(t.slots)
  {
    FirstConnsAreBelow(MAX_CONNS - 1, 5);
    FirstConnsAreBelow(MAX_CONNS - 1, 6);
    FirstUnique(t.slots, (s: Slot) => s.conn == None, MAX_CONNS - 1);
    FirstUnique(t.slots, (s: Slot) => s.conn == Some(6), MAX_CONNS);
  }

  // ---------------------------------------------------------------- the lost watchdog

  /** The expiry of a LIVE session's watchdog: lost exactly if the queue is full. */
  lemma ExpiryLosesIffFull(codec: Codec, s: System, now: nat, rand: u32)
    requires Lawful(codec) && SystemInv(s) && s.node.session.phase == Live && Due(s.node.session.livenessAt, now)
    ensures var u := Step(codec, s, now, LivenessDue(rand)).node;
      u.session.phase == Live && u.session.livenessAt.None? <==> |s.node.tx.queue| >= UartTx.QUEUE_DEPTH
  {
    NodeRunOfOne(codec, s.node, now, LivenessFire(rand));
    assert codec.wantConfig(PickNonce(rand)).Some?;
  }

  /**
   * The liveness watchdog can be lost: from power-up, three packets of a phone's fill the transmit
   * queue, the expiry cannot ask, and whatever happens then, as long as the node sends only
   * replies to keepalives, it is never asked again.
   */
  lemma WatchdogLostFromPowerUp(
    codec: Codec, c: Conn, last: Bytes, p: Bytes, rand: u32, s: System, s1: System, es: seq<Moment>)
    requires Lawful(codec) && ClosesTwo(codec, last) && Forwardable(codec, p) && |p| <= MAX_PAYLOAD
    requires s == SystemRun(codec, SYSTEM_INIT, GoLive(c, last) + Sends(c, p, 3))
    requires s1 == Step(codec, s, LIVENESS_MS, LivenessDue(rand))
    requires OnlyReplies(codec, s1.node, Trace(codec, s1, es), s1.node.session.keepalivePending)
    ensures var v := SystemRun(codec, s1, es).node;
      && v.session.phase == Live && v.session.livenessAt.None? && s1.node.tx.accepted <= v.tx.accepted
      && forall k :: |s1.node.tx.accepted| <= k < |v.tx.accepted| ==>
           !(codec.toRadio(v.tx.accepted[k]).Some? && codec.toRadio(v.tx.accepted[k]).value.WantConfig?)
  {
    QueueFills(codec, c, last, p, 3);
    ExpiryLosesIffFull(codec, s, LIVENESS_MS, rand);
    StepKeepsInv(codec, s, LIVENESS_MS, LivenessDue(rand));
    var t := Trace(codec, s1, es);
    LostForGood(codec, s1.node, t);
    SessionFollowsTrace(codec, s1, es);
    TraceForwardsPass(codec, s1, es);
  }

  // ---------------------------------------------------------------- the stray terminator

  /** A phone asks over an empty cache. */
  lemma AsksOverNothing(codec: Codec, s: System, c: Conn, data: Bytes, n: u32, s1: System)
    requires Lawful(codec) && LiveAt(s, 1) && Idles(s.table, c) && codec.toRadio(data) == Some(WantConfig(n)) && n != 0
    requires s1 == Step(codec, s, 0, Writes(c, data))
    ensures LiveAt(s1, 1) && SlotOf(s1.table, c).Some? && codec.configComplete(n).Some?
    ensures Look(SlotOf(s1.table, c).value) == View(Replaying, n, 0, codec.configComplete(n).value)
  {
    assert codec.configComplete(n).Some?;
    StepKeepsInv(codec, s, 0, Writes(c, data));
    WantConfigServedIffLive(codec, s, 0, c, data, n);
    ReceiverRunsAlone(codec, s, 0, Writes(c, data));
  }

  /** Its first read is the terminator, and it stands one past the cache. */
  lemma ReadsTerminator(codec: Codec, s: System, c: Conn, n: u32, cc: Bytes, len: nat, s': System)
    requires LiveAt(s, 1) && SlotOf(s.table, c).Some? && Look(SlotOf(s.table, c).value) == View(Replaying, n, 0, cc)
    requires s' == Step(codec, s, 0, Reads(c, 0, len))
    ensures LiveAt(s', 1) && ReadBy(s, c, 0, len) == Chunk(cc, 0, len)
    ensures SlotOf(s'.table, c).Some? && Look(SlotOf(s'.table, c).value) == View(Replaying, n, 1, cc)
  {
    StepKeepsInv(codec, s, 0, Reads(c, 0, len));
    OneTableStep(codec, s, 0, Reads(c, 0, len), On(c, Read(0, len)));
    OwnStep(codec, s, 0, Reads(c, 0, len), c);
  }

  lemma ExpiresIntoThree(codec: Codec, u: Node, u': Node)
    requires Lawful(codec) && u.session.phase == Live && Due(u.session.livenessAt, LIVENESS_MS)
    requires |u.tx.queue| < UartTx.QUEUE_DEPTH && u' == NodeStep(codec, u, LIVENESS_MS, LivenessFire(3))
    ensures u'.session.phase == Refetching && u'.session.nonce == 3 && u'.cache == u.cache
  {
    assert codec.wantConfig(3).Some?;
  }

  /** The recovery that follows changes the nonce, and nothing for the phone. */
  lemma RecoversWithThree(codec: Codec, s: System, c: Conn, s': System)
    requires Lawful(codec) && LiveAt(s, 1) && SlotOf(s.table, c).Some?
    requires s' == Step(codec, s, LIVENESS_MS, LivenessDue(3))
    ensures SystemInv(s') && s'.node.session.phase == Refetching && s'.node.session.nonce == 3
    ensures s'.node.cache.frames == [] && s'.rx == RX_INIT
    ensures SlotOf(s'.table, c).Some? && Look(SlotOf(s'.table, c).value) == Look(SlotOf(s.table, c).value)
  {
    AfterExpiry(codec, s, LIVENESS_MS, 3, c);
    ReceiverRunsAlone(codec, s, LIVENESS_MS, LivenessDue(3));
    OneSessionEvent(codec, s, LIVENESS_MS, LivenessDue(3), LivenessFire(3));
    ExpiresIntoThree(codec, s.node, s'.node);
  }

  /**
   * The stray terminator, from power-up: a phone has read its terminator, a recovery starts, and
   * the node repeats the terminator of the boot fetch. The phone's next read, empty before that
   * frame, is its terminator again.
   */
  lemma TerminatorRepeatsFromPowerUp(
    codec: Codec, c: Conn, last: Bytes, data: Bytes, n: u32, len: nat,
    s: System, s1: System, s2: System, s3: System, s4: System, s5: System)
    requires Lawful(codec) && ClosesTwo(codec, last) && codec.toRadio(data) == Some(WantConfig(n)) && n != 0
    requires s == SystemRun(codec, SYSTEM_INIT, GoLive(c, last))
    requires s1 == Step(codec, s, 0, Writes(c, data)) && s2 == Step(codec, s1, 0, Reads(c, 0, len))
    requires s3 == Step(codec, s2, LIVENESS_MS, LivenessDue(3))
    requires s4 == Step(codec, s3, LIVENESS_MS, RxReady(Encode(last)))
    requires s5 == Step(codec, s4, LIVENESS_MS, RxWork([]))
    ensures codec.configComplete(n).Some?
    ensures ReadBy(s1, c, 0, len) == Chunk(codec.configComplete(n).value, 0, len)
    ensures ReadBy(s3, c, 0, len) == Some([])
    ensures ReadBy(s5, c, 0, len) == Chunk(codec.configComplete(n).value, 0, len)
  {
    LiveFromPowerUp(codec, c, last);
    AsksOverNothing(codec, s, c, data, n, s1);
    ReadsTerminator(codec, s1, c, n, codec.configComplete(n).value, len, s2);
    RecoversWithThree(codec, s2, c, s3);
    assert |codec.configComplete(n).value| >= 1;
    StrayTerminatorArrives(codec, s3, c, last, n, codec.configComplete(n).value, len, s4, s5);
  }

  /** The frame arrives during the recovery. */
  lemma StrayTerminatorArrives(
    codec: Codec, s: System, c: Conn, last: Bytes, n: u32, cc: Bytes, len: nat, s1: System, s2: System)
    requires ClosesTwo(codec, last) && SystemInv(s) && s.node.session.phase == Refetching && s.node.session.nonce == 3
    requires s.node.cache.frames == [] && s.rx == RX_INIT && cc != []
    requires SlotOf(s.table, c).Some? && Look(SlotOf(s.table, c).value) == View(Replaying, n, 1, cc)
    requires s1 == Step(codec, s, LIVENESS_MS, RxReady(Encode(last))) && s2 == Step(codec, s1, LIVENESS_MS, RxWork([]))
    ensures ReadBy(s, c, 0, len) == Some([]) && ReadBy(s2, c, 0, len) == Chunk(cc, 0, len)
  {
    BytesArrive(codec, s, LIVENESS_MS, Encode(last));
    FrameArrives(codec, s1, LIVENESS_MS, last);
    StepKeepsInv(codec, s, LIVENESS_MS, RxReady(Encode(last)));
    StrayTerminatorRepeats(codec, s1, LIVENESS_MS, last, 0, c, len);
  }

  // ---------------------------------------------------------------- nonce 0

  lemma AnswerOverNothing(codec: Codec, n: u32)
    requires codec.configComplete(n).Some?
    ensures Answer(codec, [], n) == [codec.configComplete(n).value]
  {
  }

  /** A phone is not always echoed its own nonce, from power-up: it asks with 7, then with 0, and reads 7. */
  lemma ZeroIsNotEchoed(
    codec: Codec, c: Conn, last: Bytes, data: Bytes, zero: Bytes, s: System, s1: System, s2: System, drain: seq<Moment>)
    requires Lawful(codec) && ClosesTwo(codec, last)
    requires codec.toRadio(data) == Some(WantConfig(7)) && codec.toRadio(zero) == Some(WantConfig(0))
    requires s == SystemRun(codec, SYSTEM_INIT, GoLive(c, last)) && s1 == Step(codec, s, 0, Writes(c, data))
    requires s2 == Step(codec, s1, 0, Writes(c, zero)) && Draining(codec, s2, drain, c)
    ensures codec.configComplete(7).Some? && codec.completeNonce(codec.configComplete(7).value) == Some(7)
    ensures R.Delivers([codec.configComplete(7).value], FreshReads(codec, s2, drain, c))
  {
    LiveFromPowerUp(codec, c, last);
    AsksOverNothing(codec, s, c, data, 7, s1);
    AskingWithZeroRepeats(codec, s, 0, data, 7, s1, [], s1, 0, c, zero, s2, drain);
    AnswerOverNothing(codec, 7);
  }

  // ---------------------------------------------------------------- the refused disconnect

  lemma AsksToLeave(codec: Codec, fs: seq<Frame>, t: Table, c: Conn, t': Table)
    requires TableInv(t) && t.slots[0].conn == Some(c) && t' == TableStep(codec, fs, t, On(c, Leave(0)))
    ensures TableInv(t') && t'.slots[0] == t.slots[0].(leaving := true, teardownAt := Some(TEARDOWN_MS))
    ensures t'.handler == t.handler && t'.dropped == t.dropped
  {
    FindIs(t.slots, c, 0);
    TableStepKeepsInv(codec, fs, t, On(c, Leave(0)));
  }

  /** The grace period is over, and the handler takes its reference. */
  lemma HandlerTakesUp(codec: Codec, fs: seq<Frame>, t: Table, c: Conn, t': Table, t'': Table)
    requires TableInv(t) && t.handler == HandlerIdle && t.slots[0].conn == Some(c) && t.slots[0].leaving
    requires t.slots[0].teardownAt == Some(TEARDOWN_MS)
    requires t' == TableStep(codec, fs, t, TeardownFire(0, TEARDOWN_MS)) && t'' == TableStep(codec, fs, t', HandlerLock)
    ensures TableInv(t'') && t''.handler == HoldingRef(c) && t''.dropped == t.dropped
    ensures SlotOf(t'', c) == Some(t.slots[0].(teardownAt := None))
  {
    TableStepKeepsInv(codec, fs, t, TeardownFire(0, TEARDOWN_MS));
    TableStepKeepsInv(codec, fs, t', HandlerLock);
    assert t''.slots[0] == t.slots[0].(teardownAt := None);
    FindIs(t''.slots, c, 0);
  }

  lemma TeardownSteps(codec: Codec, s2: System, s3: System, s4: System, s5: System, ok: bool)
    requires s3 == Step(codec, s2, TEARDOWN_MS, TeardownDue(0)) && s4 == Step(codec, s3, TEARDOWN_MS, TeardownLocks)
    requires s5 == Step(codec, s4, TEARDOWN_MS, TeardownDisconnects(ok))
    ensures var fs := s2.node.cache.frames;
      && s3.table == TableStep(codec, fs, s2.table, TeardownFire(0, TEARDOWN_MS))
      && s4.table == TableStep(codec, fs, s3.table, HandlerLock)
      && s5.table == TableStep(codec, fs, s4.table, HandlerDisconnect(ok))
  {
    OneTableStep(codec, s2, TEARDOWN_MS, TeardownDue(0), TeardownFire(0, TEARDOWN_MS));
    OneTableStep(codec, s3, TEARDOWN_MS, TeardownLocks, HandlerLock);
    OneTableStep(codec, s4, TEARDOWN_MS, TeardownDisconnects(ok), HandlerDisconnect(ok));
  }

  lemma LeavingSteps(codec: Codec, c: Conn, bye: Bytes, s1: System, s2: System)
    requires codec.toRadio(bye) == Some(Disconnect)
    requires s1 == Step(codec, SYSTEM_INIT, 0, Connects(c)) && s2 == Step(codec, s1, 0, Writes(c, bye))
    ensures s2.node.cache.frames == []
    ensures s1.table == TableStep(codec, [], TABLE_INIT, Connect(c))
    ensures s2.table == TableStep(codec, [], s1.table, On(c, Leave(0)))
  {
    OneTableStep(codec, SYSTEM_INIT, 0, Connects(c), Connect(c));
    OneTableStep(codec, s1, 0, Writes(c, bye), On(c, Leave(0)));
  }

  /**
   * A phone can be forgotten, from power-up: it connects, says it is leaving, the grace period
   * passes, and the stack refuses the disconnect. Whatever happens then, until it asks again or
   * its link is lost, nothing drops it and nothing is queued for it.
   */
  lemma PhoneForgottenFromPowerUp(
    codec: Codec, c: Conn, bye: Bytes,
    s1: System, s2: System, s3: System, s4: System, s5: System, es: seq<TableStamp>)
    requires codec.toRadio(bye) == Some(Disconnect)
    requires s1 == Step(codec, SYSTEM_INIT, 0, Connects(c)) && s2 == Step(codec, s1, 0, Writes(c, bye))
    requires s3 == Step(codec, s2, TEARDOWN_MS, TeardownDue(0)) && s4 == Step(codec, s3, TEARDOWN_MS, TeardownLocks)
    requires s5 == Step(codec, s4, TEARDOWN_MS, TeardownDisconnects(false))
    requires forall x :: x in es ==>
               x.event != Phones.Lost(c) && !(x.event.On? && x.event.conn == c && x.event.event.Leave?)
    ensures var t := StampedRun(codec, s5.table, es);
      Forgotten(t, c) && c !in t.dropped && SlotOf(t, c).value.queue == []
  {
    LeavingSteps(codec, c, bye, s1, s2);
    TeardownSteps(codec, s2, s3, s4, s5, false);
    RefusedFromStart(codec, [], c, s1.table, s2.table, s3.table, s4.table, s5.table);
    ForgottenForGood(codec, s5.table, es, c);
  }

  /** As it should be: the stack obeys, and the phone that said it was leaving is dropped. */
  lemma PhoneDroppedFromPowerUp(
    codec: Codec, c: Conn, bye: Bytes, s1: System, s2: System, s3: System, s4: System, s5: System)
    requires codec.toRadio(bye) == Some(Disconnect)
    requires s1 == Step(codec, SYSTEM_INIT, 0, Connects(c)) && s2 == Step(codec, s1, 0, Writes(c, bye))
    requires s3 == Step(codec, s2, TEARDOWN_MS, TeardownDue(0)) && s4 == Step(codec, s3, TEARDOWN_MS, TeardownLocks)
    requires s5 == Step(codec, s4, TEARDOWN_MS, TeardownDisconnects(true))
    ensures c in s5.table.dropped && s5.table.handler == HandlerIdle
    ensures s2.table.slots != []
    ensures !Due(s2.table.slots[0].teardownAt, 249) && Due(s2.table.slots[0].teardownAt, 250)
  {
    LeavingSteps(codec, c, bye, s1, s2);
    TeardownSteps(codec, s2, s3, s4, s5, true);
    DroppedFromStart(codec, [], c, s1.table, s2.table, s3.table, s4.table, s5.table);
  }

  lemma DroppedFromStart(codec: Codec, fs: seq<Frame>, c: Conn, t1: Table, t2: Table, t3: Table, t4: Table, t5: Table)
    requires t1 == TableStep(codec, fs, TABLE_INIT, Connect(c)) && t2 == TableStep(codec, fs, t1, On(c, Leave(0)))
    requires t3 == TableStep(codec, fs, t2, TeardownFire(0, TEARDOWN_MS)) && t4 == TableStep(codec, fs, t3, HandlerLock)
    requires t5 == TableStep(codec, fs, t4, HandlerDisconnect(true))
    ensures c in t5.dropped && t5.handler == HandlerIdle
    ensures |t2.slots| > 0 && t2.slots[0].teardownAt == Some(TEARDOWN_MS)
  {
    FirstSlotTaken(codec, fs, c, t1);
    AsksToLeave(codec, fs, t1, c, t2);
    HandlerTakesUp(codec, fs, t2, c, t3, t4);
    ObeyedNow(codec, fs, t4, c, t5);
  }

  lemma ObeyedNow(codec: Codec, fs: seq<Frame>, t: Table, c: Conn, t': Table)
    requires t.handler == HoldingRef(c) && t' == TableStep(codec, fs, t, HandlerDisconnect(true))
    ensures c in t'.dropped && t'.handler == HandlerIdle
  {
  }

  lemma FirstSlotTaken(codec: Codec, fs: seq<Frame>, c: Conn, t1: Table)
    requires t1 == TableStep(codec, fs, TABLE_INIT, Connect(c))
    ensures TableInv(t1) && t1.slots[0] == Allocated(EMPTY_SLOT, c) && t1.handler == HandlerIdle && t1.dropped == {}
  {
    InitialTable();
    TableStepKeepsInv(codec, fs, TABLE_INIT, Connect(c));
  }

  lemma RefusedFromStart(codec: Codec, fs: seq<Frame>, c: Conn, t1: Table, t2: Table, t3: Table, t4: Table, t5: Table)
    requires t1 == TableStep(codec, fs, TABLE_INIT, Connect(c)) && t2 == TableStep(codec, fs, t1, On(c, Leave(0)))
    requires t3 == TableStep(codec, fs, t2, TeardownFire(0, TEARDOWN_MS)) && t4 == TableStep(codec, fs, t3, HandlerLock)
    requires t5 == TableStep(codec, fs, t4, HandlerDisconnect(false))
    ensures TableInv(t5) && Forgotten(t5, c) && SlotOf(t5, c).value.queue == []
  {
    FirstSlotTaken(codec, fs, c, t1);
    AsksToLeave(codec, fs, t1, c, t2);
    HandlerTakesUp(codec, fs, t2, c, t3, t4);
    RefusedNow(codec, fs, t4, c, t5);
  }

  lemma RefusedNow(codec: Codec, fs: seq<Frame>, t: Table, c: Conn, t': Table)
    requires TableInv(t) && t.handler == HoldingRef(c) && SlotOf(t, c).Some? && SlotOf(t, c).value.teardownAt.None?
    requires c !in t.dropped && t' == TableStep(codec, fs, t, HandlerDisconnect(false))
    ensures TableInv(t') && Forgotten(t', c) && SlotOf(t', c) == SlotOf(t, c)
  {
    TableStepKeepsInv(codec, fs, t, HandlerDisconnect(false));
    RefusedDisconnectForgets(codec, fs, t, false, c);
  }

  // ---------------------------------------------------------------- torn frames

  /** Boot, and the want_config is on the line. */
  lemma WaitingPacketStarts(t: Pump, p: Bytes, t': Pump)
    requires PumpInv(t) && t.worker == Idle && t.workQueued && t.inFlight.None? && t.queue == [p]
    requires t' == RunWorker(t, true)
    ensures PumpInv(t') && t'.worker == Idle && t'.inFlight == Some(p) && t'.queue == [] && t'.wire == t.wire
  {
    WakeupMakesProgress(t);
    WorkerKeepsInv(t, true);
    WireUntouched(t, [], true);
  }

  lemma FirstPacket(wc: Bytes, t: Pump)
    requires |wc| <= MAX_PAYLOAD && t == RunWorker(Send(TX_INIT, wc), true)
    ensures PumpInv(t) && t.worker == Idle && t.inFlight == Some(wc) && t.queue == [] && t.wire == []
  {
    SendKeepsInv(TX_INIT, wc);
    WaitingPacketStarts(Send(TX_INIT, wc), wc, t);
  }

  lemma FirstTransmission(codec: Codec, rand: u32, wc: Bytes)
    requires codec.wantConfig(PickNonce(rand)) == Some(wc)
    ensures NodeStep(codec, NodeStep(codec, NODE_INIT, 0, Start(rand)), 0, TxWork(true)).tx
         == RunWorker(Send(TX_INIT, wc), true)
  {
  }

  /** Boot, the want_config is aborted; then a write, which goes out whole. */
  function Tear(rand: u32, sent: nat): seq<Moment> {
    [Moment(0, Boots(rand))] + [Moment(0, TxWorkRuns(true))] + [Moment(0, TxAborts(sent))]
  }

  function WriteOut(c: Conn, q: Bytes): seq<Moment> {
    [Moment(0, Writes(c, q))] + [Moment(0, TxWorkRuns(true))] + [Moment(0, TxCompletes)]
  }

  /** Three system steps that are one session event each. */
  lemma ThreeSessionEvents(
    codec: Codec, s: System, a: Event, b: Event, d: Event, x: NodeEvent,
    y: NodeEvent, z: NodeEvent, s1: System, s2: System)
    requires s1 == Step(codec, s, 0, a) && s2 == Step(codec, s1, 0, b) && !a.RxWork? && !b.RxWork? && !d.RxWork?
    requires NodeEvents(codec, s, a) == [x] && NodeEvents(codec, s1, b) == [y] && NodeEvents(codec, s2, d) == [z]
    ensures SystemRun(codec, s, [Moment(0, a)] + [Moment(0, b)] + [Moment(0, d)]).node
         == NodeStep(codec, NodeStep(codec, NodeStep(codec, s.node, 0, x), 0, y), 0, z)
  {
    ThreeSteps(codec, s, Moment(0, a), Moment(0, b), Moment(0, d), s1, s2);
    OneSessionEvent(codec, s, 0, a, x);
    OneSessionEvent(codec, s1, 0, b, y);
    OneSessionEvent(codec, s2, 0, d, z);
  }

  lemma TearRuns(codec: Codec, rand: u32, sent: nat, u: Node)
    requires u == NodeStep(codec, NodeStep(codec, NODE_INIT, 0, Start(rand)), 0, TxWork(true))
    ensures SystemRun(codec, SYSTEM_INIT, Tear(rand, sent)).node == NodeStep(codec, u, 0, TxAborted(sent))
  {
    var s1 := Step(codec, SYSTEM_INIT, 0, Boots(rand));
    ThreeSessionEvents(codec, SYSTEM_INIT, Boots(rand), TxWorkRuns(true), TxAborts(sent),
                       Start(rand), TxWork(true), TxAborted(sent), s1, Step(codec, s1, 0, TxWorkRuns(true)));
  }

  lemma WriteOutEvents(codec: Codec, s: System, c: Conn, q: Bytes)
    requires codec.toRadio(q).None?
    ensures SystemRun(codec, s, WriteOut(c, q)).node
         == NodeStep(codec, NodeStep(codec, NodeStep(codec, s.node, 0, Forward(q, false)), 0, TxWork(true)), 0, TxDone)
  {
    var s1 := Step(codec, s, 0, Writes(c, q));
    ThreeSessionEvents(codec, s, Writes(c, q), TxWorkRuns(true), TxCompletes,
                       Forward(q, false), TxWork(true), TxDone, s1, Step(codec, s1, 0, TxWorkRuns(true)));
  }

  lemma WriteOutPump(codec: Codec, u: Node, q: Bytes)
    ensures NodeStep(codec, NodeStep(codec, NodeStep(codec, u, 0, Forward(q, false)), 0, TxWork(true)), 0, TxDone).tx
         == TxStep(RunWorker(Send(u.tx, q), true), Done)
  {
  }

  lemma WriteOutRuns(codec: Codec, s: System, c: Conn, q: Bytes)
    requires codec.toRadio(q).None?
    ensures SystemRun(codec, s, WriteOut(c, q)).node.tx == TxStep(RunWorker(Send(s.node.tx, q), true), Done)
  {
    WriteOutEvents(codec, s, c, q);
    WriteOutPump(codec, s.node, q);
  }

  /** The boot want_config was on the line, and was cut. */
  lemma TornFromPowerUp(codec: Codec, rand: u32, wc: Bytes, sent: nat, s: System, t: Pump)
    requires codec.wantConfig(PickNonce(rand)) == Some(wc) && t == RunWorker(Send(TX_INIT, wc), true)
    requires s == SystemRun(codec, SYSTEM_INIT, Tear(rand, sent))
    ensures s.node.tx == TxStep(t, Abort(sent))
  {
    var u := NodeStep(codec, NodeStep(codec, NODE_INIT, 0, Start(rand)), 0, TxWork(true));
    TearRuns(codec, rand, sent, u);
    FirstTransmission(codec, rand, wc);
    AbortEvent(codec, u, sent);
  }

  lemma AbortEvent(codec: Codec, u: Node, sent: nat)
    ensures NodeStep(codec, u, 0, TxAborted(sent)).tx == TxStep(u.tx, Abort(sent))
  {
  }

  /**
   * A torn frame breaks the boundary, from power-up: the boot want_config is aborted four bytes
   * short of its end, and a phone writes an undecodable payload that happens to be the frame of
   * some message `m`. It is passed on unchanged, as it must, and the node decodes `m`, be it a
   * disconnect or a phone's want_config.
   */
  lemma TornFrameBreaksBoundary(codec: Codec, rand: u32, wc: Bytes, c: Conn, m: Bytes, s: System, s': System)
    requires Lawful(codec) && codec.wantConfig(PickNonce(rand)) == Some(wc) && |wc| >= 4
    requires 1 <= |m| && |m| + 4 <= MAX_PAYLOAD && codec.toRadio(Encode(m)).None?
    requires s == SystemRun(codec, SYSTEM_INIT, Tear(rand, |wc|)) && s' == SystemRun(codec, s, WriteOut(c, Encode(m)))
    ensures m in Decode(WaitMagic1, s'.node.tx.wire).1
  {
    assert |wc| <= MAX_PAYLOAD;
    var t := RunWorker(Send(TX_INIT, wc), true);
    TornFromPowerUp(codec, rand, wc, |wc|, s, t);
    FirstPacket(wc, t);
    WriteOutRuns(codec, s, c, Encode(m));
    WireAfterAbort(t, wc, |wc|, Encode(m));
    TornLineSmuggles([], wc, |wc|, [], m);
    assert [] + Encode(m) == Encode(m);
  }
}
