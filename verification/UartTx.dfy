/**
 * UART transmission (src/uart_meshtastic.c): callers put packets on a message queue and submit a
 * work item; the work item starts one transmission at a time; the completion interrupt
 * re-submits it. Steps are as fine as the context switches: a caller can be interrupted between
 * its put and its submit, and the interrupt can fire anywhere inside the handler.
 */
module UartTx {
  import opened Prelude
  import opened UartRx

  const QUEUE_DEPTH := 4

  /** Where the work handler stands. */
  datatype Worker =
    | Idle
    | Entered                  // running, `tx_in_progress` not yet tested
    | PastGuard                // saw no transmission in progress
    | Holding(payload: Bytes)  // took an entry off the queue, not yet handed to the driver

  /** The last eight fields are history: they record what happened and are read by no operation. */
  datatype Pump = Pump(
    queue: seq<Bytes>,
    inFlight: Option<Bytes>,   // `tx_in_progress`, and whose bytes the driver is sending
    workQueued: bool,
    owed: nat,                 // callers between their put and their submit
    worker: Worker,
    frameBuf: Bytes,
    accepted: seq<Bytes>,
    started: seq<Bytes>,       // taken off the queue and handed to the driver, in order
    completed: seq<Bytes>,
    aborted: nat,
    failed: nat,               // starts the driver refused
    torn: nat,                 // aborts that left the receiver inside a frame
    arrived: seq<Bytes>,       // packets whose last byte went out, in order
    wire: Bytes)               // bytes put on the line, by aborted transmissions too

  /** `Abort` carries the number of bytes the driver had sent when it gave up. */
  datatype TxEvent = Put(payload: Bytes) | Submit | Enter | Check | Take | Launch(ok: bool) | Done | Abort(sent: nat)

  const TX_INIT := Pump([], None, false, 0, Idle, [], [], [], [], 0, 0, 0, [], [])

  function Cut(frame: Bytes, sent: nat): Bytes { if sent < |frame| then frame[..sent] else frame }

  /** Cutting the frame here leaves a receiver past its magic bytes and short of its end. */
  predicate Tears(frame: Bytes, sent: nat) { 2 <= sent < |frame| }

  predicate Accepts(t: Pump, p: Bytes) { |p| <= MAX_PAYLOAD && |t.queue| < QUEUE_DEPTH }

  function TxStep(t: Pump, e: TxEvent): Pump {
    match e
    case Put(p) =>
      if Accepts(t, p) then t.(queue := t.queue + [p], owed := t.owed + 1, accepted := t.accepted + [p]) else t
    case Submit => if t.owed > 0 then t.(owed := t.owed - 1, workQueued := true) else t
    case Enter => if t.workQueued && t.worker == Idle then t.(workQueued := false, worker := Entered) else t
    case Check =>
      if t.worker != Entered then t else t.(worker := if t.inFlight.Some? then Idle else PastGuard)
    case Take =>
      if t.worker != PastGuard then t
      else if t.queue == [] then t.(worker := Idle)
      else t.(worker := Holding(t.queue[0]), queue := t.queue[1..])
    case Launch(ok) =>
      if !t.worker.Holding? then t
      else
        var p := t.worker.payload;
        var t' := t.(worker := Idle, started := t.started + [p], frameBuf := FrameOf(p));
        if ok then t'.(inFlight := Some(p)) else t'.(failed := t.failed + 1, workQueued := true)
    case Done =>
      if t.inFlight.None? then t
      else t.(inFlight := None, workQueued := true,
              completed := t.completed + [t.inFlight.value], arrived := t.arrived + [t.inFlight.value],
              wire := t.wire + t.frameBuf)
    case Abort(sent) =>
      if t.inFlight.None? then t
      else t.(inFlight := None, workQueued := true, aborted := t.aborted + 1,
              torn := t.torn + (if Tears(t.frameBuf, sent) then 1 else 0),
              arrived := t.arrived + (if sent >= |t.frameBuf| then [t.inFlight.value] else []),
              wire := t.wire + Cut(t.frameBuf, sent))
  }

  /** The frame laid out for a queued packet (queued packets never exceed the payload limit). */
  function FrameOf(p: Bytes): Bytes { if |p| <= MAX_PAYLOAD then Encode(p) else [] }

  function TxRun(t: Pump, es: seq<TxEvent>): Pump
    decreases |es|
  {
    if es == [] then t else TxRun(TxStep(t, es[0]), es[1..])
  }

  /** `uart_meshtastic_tx` when its caller is not interrupted. */
  function Send(t: Pump, p: Bytes): Pump {
    if Accepts(t, p) then TxStep(TxStep(t, Put(p)), Submit) else t
  }

  /** One uninterrupted run of the work handler. */
  function RunWorker(t: Pump, ok: bool): Pump {
    TxStep(TxStep(TxStep(TxStep(t, Enter), Check), Take), Launch(ok))
  }

  // ---------------------------------------------------------------- invariant

  function Held(t: Pump): seq<Bytes> { if t.worker.Holding? then [t.worker.payload] else [] }

  /** Conservation and FIFO order. */
  ghost predicate Conserves(t: Pump) {
    && t.accepted == t.started + Held(t) + t.queue
    && |t.started| == |t.completed| + t.aborted + t.failed + (if t.inFlight.Some? then 1 else 0)
    && |t.queue| <= QUEUE_DEPTH
    && (forall p :: p in t.accepted ==> |p| <= MAX_PAYLOAD)
    && (forall p :: p in t.completed || p in t.arrived ==> p in t.accepted)
    && t.torn <= t.aborted && (t.aborted == 0 ==> t.arrived == t.completed)
  }

  /** A waiting packet has somebody who will come for it. */
  predicate NoLostWakeup(t: Pump) {
    t.queue != [] ==> t.inFlight.Some? || t.workQueued || t.owed > 0 || t.worker != Idle
  }

  /** The frame buffer belongs to the transmission in flight, which is the last one started. */
  predicate BufferOwned(t: Pump) {
    t.inFlight.Some? ==>
      && t.worker in {Idle, Entered}
      && t.started != [] && t.started[|t.started| - 1] == t.inFlight.value
      && t.frameBuf == FrameOf(t.inFlight.value)
  }

  ghost predicate PumpInv(t: Pump) { Conserves(t) && NoLostWakeup(t) && BufferOwned(t) }

  /** The end of a transmission, completed or aborted. */
  lemma ConservesEnd(t: Pump, e: TxEvent)
    requires Conserves(t) && BufferOwned(t) && (e.Done? || e.Abort?)
    ensures Conserves(TxStep(t, e))
  {
    if t.inFlight.Some? {
      var p := t.inFlight.value;
      assert p in t.accepted;
      assert forall q :: q in t.arrived + [p] ==> q in t.arrived || q == p;
    }
  }

  /** A packet on its way from the queue to the driver. */
  lemma ConservesHandover(t: Pump, e: TxEvent)
    requires Conserves(t) && BufferOwned(t) && (e.Take? || e.Launch?)
    ensures Conserves(TxStep(t, e))
  {
    if e.Take? && t.worker == PastGuard && t.queue != [] {
      assert t.started + [t.queue[0]] + t.queue[1..] == t.started + Held(t) + t.queue;
    } else if e.Launch? && t.worker.Holding? {
      assert t.started + [t.worker.payload] + t.queue == t.started + Held(t) + t.queue;
    }
  }

  lemma ConservesStep(t: Pump, e: TxEvent)
    requires Conserves(t) && BufferOwned(t)
    ensures Conserves(TxStep(t, e))
  {
    match e {
      case Put(p) => assert Accepts(t, p) ==> t.started + Held(t) + (t.queue + [p]) == t.accepted + [p];
      case Take => ConservesHandover(t, e);
      case Launch(_) => ConservesHandover(t, e);
      case Done => ConservesEnd(t, e);
      case Abort(_) => ConservesEnd(t, e);
      case _ =>
    }
  }

  lemma WakeupStep(t: Pump, e: TxEvent)
    requires NoLostWakeup(t) && BufferOwned(t)
    ensures NoLostWakeup(TxStep(t, e)) && BufferOwned(TxStep(t, e))
  {
  }

  lemma PumpStepKeepsInv(t: Pump, e: TxEvent)
    requires PumpInv(t)
    ensures PumpInv(TxStep(t, e))
  {
    ConservesStep(t, e);
    WakeupStep(t, e);
  }

  /**
   * Over every interleaving of callers, the work item and its interrupts: no wakeup is lost, the
   * frame buffer always holds the transmission in flight, packets are started in the order
   * accepted, and every accepted packet is completed, aborted, refused by the driver, in flight,
   * in the handler's hands, or still queued.
   */
  lemma {:induction false} PumpRunKeepsInv(t: Pump, es: seq<TxEvent>)
    requires PumpInv(t)
    ensures PumpInv(TxRun(t, es))
    decreases |es|
  {
    if es != [] {
      PumpStepKeepsInv(t, es[0]);
      PumpRunKeepsInv(TxStep(t, es[0]), es[1..]);
    }
  }

  /** A start hands the driver the frame of the oldest packet not yet started, on an idle line. */
  lemma StartsOldestPacket(t: Pump, ok: bool)
    requires PumpInv(t) && t.worker.Holding?
    ensures var t' := TxStep(t, Launch(ok));
      && t.inFlight.None?
      && |t.started| < |t.accepted|
      && t'.started == t.started + [t.accepted[|t.started|]]
      && t'.frameBuf == Encode(t.accepted[|t.started|])
  {
    assert t.accepted[|t.started|] == t.worker.payload;
    assert t.worker.payload in t.accepted;
  }

  /** From any reachable state, an uninterrupted handler run starts the head of a waiting queue. */
  lemma WakeupMakesProgress(t: Pump)
    requires PumpInv(t) && t.worker == Idle && t.workQueued && t.inFlight.None? && t.queue != []
    ensures var t' := RunWorker(t, true);
      && t'.inFlight == Some(t.queue[0])
      && t'.queue == t.queue[1..]
      && t'.frameBuf == FrameOf(t.queue[0])
  {
  }

  /** A handler run uses up the submission that caused it; without a start nothing is left to do. */
  lemma SubmissionIsUsedUp(t: Pump, ok: bool)
    requires t.worker == Idle && t.workQueued
    ensures var t' := RunWorker(t, ok);
      && t'.worker == Idle
      && (t'.workQueued <==> !ok && t.inFlight.None? && t.queue != [])
      && (t.inFlight.Some? || t.queue == [] ==> t' == t.(workQueued := false))
  {
  }

  /** One handler run and the completion of the transmission it starts. */
  function Round(t: Pump): Pump { TxStep(RunWorker(t, true), Done) }

  function Rounds(t: Pump, n: nat): Pump
    decreases n
  {
    if n == 0 then t else Rounds(Round(t), n - 1)
  }

  /** Nothing is on the line, and the work item is about to look for something to send. */
  ghost predicate AboutToSend(t: Pump) { PumpInv(t) && t.worker == Idle && t.workQueued && t.inFlight.None? }

  lemma RoundSendsHead(t: Pump, t1: Pump, t': Pump)
    requires AboutToSend(t) && t.queue != [] && t1 == RunWorker(t, true) && t' == TxStep(t1, Done)
    ensures AboutToSend(t') && t'.queue == t.queue[1..] && t'.completed == t.completed + [t.queue[0]]
  {
    RoundKeepsInv(t, TxStep(t, Enter), TxStep(TxStep(t, Enter), Check), t1);
    WakeupMakesProgress(t);
    PumpStepKeepsInv(t1, Done);
  }

  lemma RoundKeepsInv(t: Pump, t1: Pump, t2: Pump, t4: Pump)
    requires PumpInv(t) && t1 == TxStep(t, Enter) && t2 == TxStep(t1, Check)
    requires t4 == TxStep(TxStep(t2, Take), Launch(true))
    ensures PumpInv(t4)
  {
    PumpStepKeepsInv(t, Enter);
    PumpStepKeepsInv(t1, Check);
    PumpStepKeepsInv(t2, Take);
    PumpStepKeepsInv(TxStep(t2, Take), Launch(true));
  }

  lemma HeadAndTail(a: seq<Bytes>, q: seq<Bytes>)
    requires q != []
    ensures a + [q[0]] + q[1..] == a + q
  {
  }

  /** A line that completes its transmissions empties the queue, packet by packet, in order. */
  lemma {:induction false} QueueDrains(t: Pump, n: nat, t': Pump)
    requires AboutToSend(t) && n == |t.queue| && t' == Rounds(t, n)
    ensures t'.queue == [] && t'.completed == t.completed + t.queue
    decreases n
  {
    if n > 0 {
      var t1 := Round(t);
      RoundSendsHead(t, RunWorker(t, true), t1);
      QueueDrains(t1, n - 1, t');
      HeadAndTail(t.completed, t.queue);
    }
  }

  // ---------------------------------------------------------------- what the node receives

  function NonEmpty(ps: seq<Bytes>): seq<Bytes> {
    if ps == [] then []
    else NonEmpty(ps[..|ps| - 1]) + (if |ps[|ps| - 1]| > 0 then [ps[|ps| - 1]] else [])
  }

  lemma EmptyFrameIsIgnored(d: Decoder)
    requires Hunting(d)
    ensures Decode(d, Encode([])) == (WaitMagic1, [])
  {
    assert Encode([]) == [MAGIC1] + ([MAGIC2] + ([0] + ([0] + [])));
    DecodeStep(d, MAGIC1, [MAGIC2] + ([0] + ([0] + [])));
    DecodeStep(WaitMagic2, MAGIC2, [0] + ([0] + []));
    DecodeStep(WaitLenHi, 0, [0] + []);
    DecodeStep(WaitLenLo(0), 0, []);
  }

  /** A receiver with the same framing makes these packets out of the bytes sent, and is between frames. */
  ghost predicate Carries(wire: Bytes, ps: seq<Bytes>) {
    Hunting(Decode(WaitMagic1, wire).0) && Decode(WaitMagic1, wire).1 == NonEmpty(ps)
  }

  /** As long as no abort tore a frame, the receiver has the packets that went out. */
  ghost predicate WireInv(t: Pump) { t.torn == 0 ==> Carries(t.wire, t.arrived) }

  lemma CarriesOneMore(wire: Bytes, ps: seq<Bytes>, p: Bytes)
    requires Carries(wire, ps) && |p| <= MAX_PAYLOAD
    ensures Carries(wire + Encode(p), ps + [p])
  {
    var d := Decode(WaitMagic1, wire).0;
    if |p| > 0 { FrameDecodes(d, p); } else { EmptyFrameIsIgnored(d); }
    DecodeConcat(WaitMagic1, wire, Encode(p));
    assert (ps + [p])[..|ps|] == ps;
  }

  /** Nothing, or only the first magic byte, leaves the receiver between frames. */
  lemma CarriesStub(wire: Bytes, ps: seq<Bytes>, p: Bytes, sent: nat)
    requires Carries(wire, ps) && |p| <= MAX_PAYLOAD && sent <= 1
    ensures Carries(wire + Cut(Encode(p), sent), ps)
  {
    var d, stub := Decode(WaitMagic1, wire).0, Cut(Encode(p), sent);
    assert stub == if sent == 0 then [] else [MAGIC1] + [];
    if sent == 1 { DecodeStep(d, MAGIC1, []); }
    DecodeConcat(WaitMagic1, wire, stub);
  }

  lemma WireStep(t: Pump, e: TxEvent)
    requires PumpInv(t) && WireInv(t)
    ensures WireInv(TxStep(t, e))
  {
    var t' := TxStep(t, e);
    if t.inFlight.Some? && (e.Done? || e.Abort?) && t'.torn == 0 {
      var p := t.inFlight.value;
      assert p in t.accepted;
      if e.Done? || e.sent >= |t.frameBuf| {
        CarriesOneMore(t.wire, t.arrived, p);
      } else {
        CarriesStub(t.wire, t.arrived, p, e.sent);
        assert t.arrived + [] == t.arrived;
      }
    }
  }

  /**
   * A node running the same framing decodes the bytes on the line back into exactly the packets
   * whose last byte went out (a zero-length packet is framed but ignored by the receiver), as
   * long as no aborted transmission tore a frame.
   */
  lemma {:induction false} NodeReceivesArrivedPackets(t: Pump, es: seq<TxEvent>)
    requires PumpInv(t) && WireInv(t)
    ensures WireInv(TxRun(t, es))
    decreases |es|
  {
    if es != [] {
      PumpStepKeepsInv(t, es[0]);
      WireStep(t, es[0]);
      NodeReceivesArrivedPackets(TxStep(t, es[0]), es[1..]);
    }
  }

  // ---------------------------------------------------------------- torn frames

  /** The receiver will take any packet sent next for what it is. */
  ghost predicate Receptive(d: Decoder) {
    forall q: Bytes :: 1 <= |q| <= MAX_PAYLOAD ==> Decode(d, Encode(q)).1 == [q]
  }

  lemma {:induction false} PayloadGrows(n: nat, got: Bytes, rest: Bytes)
    requires |got| + |rest| < n
    ensures Decode(WaitPayload(n, got), rest) == (WaitPayload(n, got + rest), [])
    decreases |rest|
  {
    if rest == [] {
      assert got + rest == got;
    } else {
      PayloadGrows(n, got + [rest[0]], rest[1..]);
      assert got + [rest[0]] + rest[1..] == got + rest;
    }
  }

  lemma TwoBytesLeave()
    ensures Decode(WaitMagic1, [MAGIC1] + ([MAGIC2] + [])) == (WaitLenHi, [])
  {
    DecodeStep(WaitMagic1, MAGIC1, [MAGIC2] + []);
    DecodeStep(WaitMagic2, MAGIC2, []);
  }

  lemma ThreeBytesLeave(hi: byte)
    ensures Decode(WaitMagic1, [MAGIC1] + ([MAGIC2] + ([hi] + []))) == (WaitLenLo(hi), [])
  {
    DecodeStep(WaitMagic1, MAGIC1, [MAGIC2] + ([hi] + []));
    DecodeStep(WaitMagic2, MAGIC2, [hi] + []);
    DecodeStep(WaitLenHi, hi, []);
  }

  /** Where a torn frame leaves the receiver. */
  lemma TornFrameLeaves(p: Bytes, sent: nat)
    requires |p| <= MAX_PAYLOAD && Tears(Encode(p), sent)
    ensures Decode(WaitMagic1, Cut(Encode(p), sent)) ==
      (if sent == 2 then WaitLenHi else if sent == 3 then WaitLenLo(|p| / 256)
       else WaitPayload(|p|, p[..sent - 4]), [])
  {
    var hi, lo, cut := |p| / 256, |p| % 256, Cut(Encode(p), sent);
    if sent == 2 {
      assert cut == [MAGIC1] + ([MAGIC2] + []);
      TwoBytesLeave();
    } else if sent == 3 {
      assert cut == [MAGIC1] + ([MAGIC2] + ([hi] + []));
      ThreeBytesLeave(hi);
    } else {
      var got := p[..sent - 4];
      assert cut == [MAGIC1, MAGIC2, hi, lo] + got;
      FrameHeaderDecodes(WaitMagic1, |p|, got);
      PayloadGrows(|p|, [], got);
      assert [] + got == got;
    }
  }

  const PROBE: Bytes := [0]

  /** A receiver inside a frame does not recognise a one-byte packet. */
  lemma ProbeIsLost(d: Decoder)
    requires WellFormed(d) && !Hunting(d)
    ensures Decode(d, Encode(PROBE)).1 != [PROBE]
  {
    var bytes: Bytes := [MAGIC1] + ([MAGIC2] + [0, 1, 0]);
    assert Encode(PROBE) == bytes;
    match d {
      case WaitLenHi =>
        DecodeStep(d, MAGIC1, [MAGIC2] + [0, 1, 0]);
        DecodeStep(WaitLenLo(MAGIC1), MAGIC2, [0, 1, 0]);
        NoiseIsSilent(WaitMagic1, [0, 1, 0]);
      case WaitLenLo(hi) =>
        DecodeStep(d, MAGIC1, [MAGIC2] + [0, 1, 0]);
        if hi * 256 + MAGIC1 > MAX_PAYLOAD {
          NoiseIsSilent(WaitMagic1, [MAGIC2] + [0, 1, 0]);
        } else {
          PayloadGrows(hi * 256 + MAGIC1, [], [MAGIC2] + [0, 1, 0]);
        }
      case WaitPayload(n, got) =>
        if |got| + |bytes| < n {
          PayloadGrows(n, got, bytes);
        } else {
          var k := n - |got|;
          assert bytes == bytes[..k] + bytes[k..];
          PayloadCompletes(n, got, bytes[..k]);
          NoiseIsSilent(WaitMagic1, bytes[k..]);
          DecodeConcat(d, bytes[..k], bytes[k..]);
          assert n == 1 ==> got + bytes[..k] == [MAGIC1];
          assert Decode(d, bytes).1[0] == got + bytes[..k];
        }
    }
  }

  /**
   * Exactly when an aborted transmission is harmless: every packet sent next is received for what
   * it is if and only if the abort came before the second byte or after the last.
   */
  lemma AbortIsHarmlessIff(p: Bytes, sent: nat)
    requires |p| <= MAX_PAYLOAD
    ensures Receptive(Decode(WaitMagic1, Cut(Encode(p), sent)).0) <==> !Tears(Encode(p), sent)
  {
    var d := Decode(WaitMagic1, Cut(Encode(p), sent)).0;
    if Tears(Encode(p), sent) {
      TornFrameLeaves(p, sent);
      ProbeIsLost(d);
    } else {
      if sent <= 1 { CarriesStub([], [], p, sent); } else { CarriesOneMore([], [], p); }
      assert [] + Cut(Encode(p), sent) == Cut(Encode(p), sent);
      forall q: Bytes | 1 <= |q| <= MAX_PAYLOAD ensures Decode(d, Encode(q)).1 == [q] { FrameDecodes(d, q); }
    }
  }

  /** A packet of a torn line: its first bytes complete the torn frame, the rest is a frame of its own. */
  lemma TornFrameSmuggles(n: nat, got: Bytes, g: Bytes, m: Bytes)
    requires |got| + 4 + |g| == n && 1 <= |m| && |g| + 4 + |m| <= MAX_PAYLOAD
    ensures var q := g + Encode(m);
      Decode(WaitPayload(n, got), Encode(q)) == (WaitMagic1, [got + Encode(q)[..4] + g, m])
  {
    var q := g + Encode(m);
    var head := Encode(q)[..4] + g;
    assert Encode(q) == head + Encode(m);
    PayloadCompletes(n, got, head);
    FrameDecodes(WaitMagic1, m);
    DecodeConcat(WaitPayload(n, got), head, Encode(m));
    assert got + head == got + Encode(q)[..4] + g;
    assert [got + head] + [m] == [got + head, m];
  }
}
