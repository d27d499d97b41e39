/**
 * UART reception (src/uart_meshtastic.c): the byte-level frame decoder, its resync watchdog and
 * the interrupt-fed ring buffer in front of it.
 */
module UartRx {
  import opened Prelude

  const MAGIC1: byte := 0x94
  const MAGIC2: byte := 0xC3
  const MAX_PAYLOAD := 512
  const RING_SIZE := 2048
  const RESYNC_MS := 250

  datatype Decoder =
    | WaitMagic1
    | WaitMagic2
    | WaitLenHi
    | WaitLenLo(hi: byte)
    | WaitPayload(expected: nat, got: Bytes)

  /** One received byte: the next decoder state and the frame it completes, if any. */
  function Feed(d: Decoder, b: byte): (Decoder, Option<Bytes>) {
    match d
    case WaitMagic1 => (if b == MAGIC1 then WaitMagic2 else WaitMagic1, None)
    case WaitMagic2 =>
      (if b == MAGIC2 then WaitLenHi else if b == MAGIC1 then WaitMagic2 else WaitMagic1, None)
    case WaitLenHi => (WaitLenLo(b), None)
    case WaitLenLo(hi) =>
      var n := hi * 256 + b;
      (if n == 0 || n > MAX_PAYLOAD then WaitMagic1 else WaitPayload(n, []), None)
    case WaitPayload(n, got) =>
      if |got| + 1 == n then (WaitMagic1, Some(got + [b])) else (WaitPayload(n, got + [b]), None)
  }

  /** A byte string: the final decoder state and every frame completed on the way. */
  function Decode(d: Decoder, bs: Bytes): (Decoder, seq<Bytes>)
    decreases |bs|
  {
    if bs == [] then (d, [])
    else
      var (d1, f) := Feed(d, bs[0]);
      var (d2, fs) := Decode(d1, bs[1..]);
      (d2, if f.Some? then [f.value] + fs else fs)
  }

  /** The frame header and payload as the transmitter lays them out. */
  function Encode(p: Bytes): Bytes
    requires |p| <= MAX_PAYLOAD
  {
    [MAGIC1, MAGIC2, |p| / 256, |p| % 256] + p
  }

  /** The frame layout of the Meshtastic stream protocol: two magic bytes, big-endian length, payload. */
  lemma FrameLayout(p: Bytes)
    requires |p| <= MAX_PAYLOAD
    ensures |Encode(p)| == |p| + 4
    ensures Encode(p)[0] == 0x94 && Encode(p)[1] == 0xC3
    ensures var hi: int, lo: int := Encode(p)[2], Encode(p)[3]; hi * 256 + lo == |p|
    ensures Encode(p)[4..] == p
  {
  }

  // ---------------------------------------------------------------- the receive path

  datatype Rx = Rx(ring: Bytes, dec: Decoder, resyncAt: Timer)

  /** `Ready` and `Disabled` are interrupts, `Work` and `Resync` work items. */
  datatype RxEvent = Ready(chunk: Bytes) | Work | Resync | Disabled

  const RX_INIT := Rx([], WaitMagic1, None)

  function RoomFor(r: Rx, chunk: Bytes): nat {
    if |r.ring| >= RING_SIZE then 0
    else if |r.ring| + |chunk| <= RING_SIZE then |chunk| else RING_SIZE - |r.ring|
  }

  function RxStep(r: Rx, now: nat, e: RxEvent): Rx {
    match e
    case Ready(chunk) => r.(ring := r.ring + chunk[..RoomFor(r, chunk)])
    case Work =>
      var d := Decode(r.dec, r.ring).0;
      Rx([], d, if d != WaitMagic1 then Some(now + RESYNC_MS) else None)
    case Resync => if Due(r.resyncAt, now) then r.(dec := WaitMagic1, resyncAt := None) else r
    case Disabled => r.(dec := WaitMagic1)
  }

  /** Frames handed to the FromRadio callback by one step. */
  function RxFrames(r: Rx, e: RxEvent): seq<Bytes> {
    if e.Work? then Decode(r.dec, r.ring).1 else []
  }

  // ---------------------------------------------------------------- decoder lemmas

  predicate WellFormed(d: Decoder) {
    d.WaitPayload? ==> |d.got| < d.expected <= MAX_PAYLOAD
  }

  /** Whatever arrives on the line, an emitted frame holds 1 to 512 bytes. */
  lemma {:induction false} FramesWithinBounds(d: Decoder, bs: Bytes)
    requires WellFormed(d)
    ensures WellFormed(Decode(d, bs).0)
    ensures forall f :: f in Decode(d, bs).1 ==> 1 <= |f| <= MAX_PAYLOAD
    decreases |bs|
  {
    if bs != [] { FramesWithinBounds(Feed(d, bs[0]).0, bs[1..]); }
  }

  /** Splitting the input anywhere changes nothing. */
  lemma {:induction false} DecodeConcat(d: Decoder, a: Bytes, b: Bytes)
    ensures Decode(d, a + b).0 == Decode(Decode(d, a).0, b).0
    ensures Decode(d, a + b).1 == Decode(d, a).1 + Decode(Decode(d, a).0, b).1
    decreases |a|
  {
    if a == [] {
      assert a + b == b;
    } else {
      assert (a + b)[1..] == a[1..] + b;
      DecodeConcat(Feed(d, a[0]).0, a[1..], b);
    }
  }

  // ---------------------------------------------------------------- framing round trip

  /** Line noise that cannot be mistaken for a frame start. */
  predicate Clean(noise: Bytes) {
    forall i :: 0 <= i < |noise| - 1 ==> !(noise[i] == MAGIC1 && noise[i + 1] == MAGIC2)
  }

  /** Payloads framed by the transmitter, with noise before, between and after them. */
  function Stream(noise: seq<Bytes>, ps: seq<Bytes>): Bytes
    requires |noise| == |ps| + 1
    requires forall p :: p in ps ==> |p| <= MAX_PAYLOAD
  {
    if ps == [] then noise[0] else noise[0] + Encode(ps[0]) + Stream(noise[1..], ps[1..])
  }

  predicate Hunting(d: Decoder) { d == WaitMagic1 || d == WaitMagic2 }

  lemma {:induction false} NoiseIsSilent(d: Decoder, n: Bytes)
    requires Clean(n) && Hunting(d)
    requires d == WaitMagic2 ==> n == [] || n[0] != MAGIC2
    ensures Hunting(Decode(d, n).0) && Decode(d, n).1 == []
    decreases |n|
  {
    if n != [] {
      var rest := n[1..];
      assert Clean(rest) by { assert forall i :: 0 <= i < |rest| ==> rest[i] == n[i + 1]; }
      NoiseIsSilent(Feed(d, n[0]).0, rest);
    }
  }

  lemma {:induction false} PayloadCompletes(n: nat, got: Bytes, rest: Bytes)
    requires rest != [] && |got| + |rest| == n
    ensures Decode(WaitPayload(n, got), rest) == (WaitMagic1, [got + rest])
    decreases |rest|
  {
    if |rest| > 1 {
      PayloadCompletes(n, got + [rest[0]], rest[1..]);
      assert got + [rest[0]] + rest[1..] == got + rest;
    } else {
      assert rest == [rest[0]] && Decode(WaitMagic1, rest[1..]) == (WaitMagic1, []);
      assert [got + rest] + [] == [got + rest];
    }
  }

  lemma DecodeStep(d: Decoder, b: byte, rest: Bytes)
    requires Feed(d, b).1 == None
    ensures Decode(d, [b] + rest) == Decode(Feed(d, b).0, rest)
  {
    assert ([b] + rest)[1..] == rest;
  }

  /** The four header bytes bring a hunting decoder to the payload. */
  lemma HeaderDecodes(d: Decoder, hi: byte, lo: byte, rest: Bytes, r1: Bytes, r2: Bytes, r3: Bytes)
    requires Hunting(d) && 1 <= hi * 256 + lo <= MAX_PAYLOAD
    requires r1 == [lo] + rest && r2 == [hi] + r1 && r3 == [MAGIC2] + r2
    ensures Decode(d, [MAGIC1] + r3) == Decode(WaitPayload(hi * 256 + lo, []), rest)
  {
    DecodeStep(d, MAGIC1, r3);
    DecodeStep(WaitMagic2, MAGIC2, r2);
    DecodeStep(WaitLenHi, hi, r1);
    DecodeStep(WaitLenLo(hi), lo, rest);
  }

  /** ... the header of a frame, or of what is left of one. */
  lemma FrameHeaderDecodes(d: Decoder, n: nat, got: Bytes)
    requires Hunting(d) && 1 <= n <= MAX_PAYLOAD
    ensures Decode(d, [MAGIC1, MAGIC2, n / 256, n % 256] + got) == Decode(WaitPayload(n, []), got)
  {
    var hi, lo := n / 256, n % 256;
    var r1 := [lo] + got;
    var r2 := [hi] + r1;
    HeaderDecodes(d, hi, lo, got, r1, r2, [MAGIC2] + r2);
    assert [MAGIC1, MAGIC2, hi, lo] + got == [MAGIC1] + ([MAGIC2] + r2);
  }

  lemma FrameDecodes(d: Decoder, p: Bytes)
    requires Hunting(d) && 1 <= |p| <= MAX_PAYLOAD
    ensures Decode(d, Encode(p)) == (WaitMagic1, [p])
  {
    FrameHeaderDecodes(d, |p|, p);
    PayloadCompletes(|p|, [], p);
    assert [] + p == p;
  }

  /** Framing round trip: the decoder recovers exactly the framed payloads, whatever the noise. */
  lemma {:induction false} FramingRoundTrip(noise: seq<Bytes>, ps: seq<Bytes>)
    requires |noise| == |ps| + 1
    requires forall n :: n in noise ==> Clean(n)
    requires forall p :: p in ps ==> 1 <= |p| <= MAX_PAYLOAD
    ensures Hunting(Decode(WaitMagic1, Stream(noise, ps)).0)
    ensures Decode(WaitMagic1, Stream(noise, ps)).1 == ps
    decreases |ps|
  {
    assert noise[0] in noise;
    NoiseIsSilent(WaitMagic1, noise[0]);
    if ps != [] {
      var d := Decode(WaitMagic1, noise[0]).0;
      assert ps[0] in ps;
      FrameDecodes(d, ps[0]);
      DecodeConcat(WaitMagic1, noise[0], Encode(ps[0]));
      FramingRoundTrip(noise[1..], ps[1..]);
      DecodeConcat(WaitMagic1, noise[0] + Encode(ps[0]), Stream(noise[1..], ps[1..]));
      assert [ps[0]] + ps[1..] == ps;
    }
  }

  /** A header that announces no payload, or more than fits, is skipped: what follows is received. */
  lemma BadHeaderIsSkipped(d: Decoder, hi: byte, lo: byte, rest: Bytes, r1: Bytes, r2: Bytes, r3: Bytes)
    requires Hunting(d) && (hi * 256 + lo == 0 || hi * 256 + lo > 512)
    requires r1 == [lo] + rest && r2 == [hi] + r1 && r3 == [0xC3] + r2
    ensures Decode(d, [0x94] + r3) == Decode(WaitMagic1, rest)
  {
    DecodeStep(d, MAGIC1, r3);
    DecodeStep(WaitMagic2, MAGIC2, r2);
    DecodeStep(WaitLenHi, hi, r1);
    DecodeStep(WaitLenLo(hi), lo, rest);
  }

  /** ... in full: framed payloads after a rejected header are all received. */
  lemma FramesAfterBadHeader(d: Decoder, hi: byte, lo: byte, noise: seq<Bytes>, ps: seq<Bytes>)
    requires Hunting(d) && (hi * 256 + lo == 0 || hi * 256 + lo > 512) && |noise| == |ps| + 1
    requires (forall n :: n in noise ==> Clean(n)) && forall p :: p in ps ==> 1 <= |p| <= MAX_PAYLOAD
    ensures Decode(d, [0x94, 0xC3, hi, lo] + Stream(noise, ps)).1 == ps
  {
    var rest := Stream(noise, ps);
    var r1 := [lo] + rest;
    var r2 := [hi] + r1;
    BadHeaderIsSkipped(d, hi, lo, rest, r1, r2, [0xC3] + r2);
    assert [0x94, 0xC3, hi, lo] + rest == [0x94] + ([0xC3] + r2);
    FramingRoundTrip(noise, ps);
  }

  // ---------------------------------------------------------------- runs

  datatype RxStamp = RxStamp(now: nat, event: RxEvent)

  function RxRun(r: Rx, es: seq<RxStamp>): Rx
    decreases |es|
  {
    if es == [] then r else RxRun(RxStep(r, es[0].now, es[0].event), es[1..])
  }

  function RxOutput(r: Rx, es: seq<RxStamp>): seq<Bytes>
    decreases |es|
  {
    if es == [] then []
    else RxFrames(r, es[0].event) + RxOutput(RxStep(r, es[0].now, es[0].event), es[1..])
  }

  /** Bytes that arrived on the line during a run. */
  function Arrived(es: seq<RxStamp>): Bytes
    decreases |es|
  {
    if es == [] then []
    else if es[0].event.Ready? then es[0].event.chunk + Arrived(es[1..])
    else Arrived(es[1..])
  }

  /** The stall watchdog comes due while a frame is incomplete, or a bus error ends reception. */
  predicate Disturbs(r: Rx, now: nat, e: RxEvent) {
    e.Disabled? || (e.Resync? && Due(r.resyncAt, now) && r.dec != WaitMagic1)
  }

  /** No chunk overruns the ring, and nothing makes the decoder abandon a frame. */
  predicate Undisturbed(r: Rx, es: seq<RxStamp>)
    decreases |es|
  {
    es == [] ||
    (var e := es[0].event;
     && !Disturbs(r, es[0].now, e)
     && (e.Ready? ==> RoomFor(r, e.chunk) == |e.chunk|)
     && Undisturbed(RxStep(r, es[0].now, e), es[1..]))
  }

  /**
   * The ring always has room and the bus makes no errors; and while a frame is incomplete, less
   * than 250 ms pass since the last work run (at `last`).
   */
  predicate Prompt(r: Rx, es: seq<RxStamp>, last: nat)
    decreases |es|
  {
    es == [] ||
    (var now, e := es[0].now, es[0].event;
     && !e.Disabled?
     && (e.Ready? ==> RoomFor(r, e.chunk) == |e.chunk|)
     && (r.dec != WaitMagic1 ==> now < last + RESYNC_MS)
     && Prompt(RxStep(r, now, e), es[1..], if e.Work? then now else last))
  }

  /** The stall watchdog measures the time since the last work run: a prompt line never trips it. */
  lemma {:induction false} PromptIsUndisturbed(r: Rx, es: seq<RxStamp>, last: nat)
    requires r.dec != WaitMagic1 ==> r.resyncAt == Some(last + RESYNC_MS)
    requires Prompt(r, es, last)
    ensures Undisturbed(r, es)
    decreases |es|
  {
    if es != [] {
      var now, e := es[0].now, es[0].event;
      PromptIsUndisturbed(RxStep(r, now, e), es[1..], if e.Work? then now else last);
    }
  }

  /** However bytes are chunked over interrupts and work runs, the decoder sees one stream. */
  lemma {:induction false} ChunkingIsInvisible(r: Rx, es: seq<RxStamp>)
    requires Undisturbed(r, es)
    ensures RxOutput(r, es) + Decode(RxRun(r, es).dec, RxRun(r, es).ring).1
         == Decode(r.dec, r.ring + Arrived(es)).1
    decreases |es|
  {
    if es == [] {
      assert r.ring + Arrived(es) == r.ring;
    } else {
      var e, r', rest := es[0].event, RxStep(r, es[0].now, es[0].event), es[1..];
      ChunkingIsInvisible(r', rest);
      if e.Ready? {
        assert e.chunk[..|e.chunk|] == e.chunk;
        assert r'.ring + Arrived(rest) == r.ring + Arrived(es);
      } else if e.Resync? {
        assert r'.ring == r.ring && r'.dec == r.dec;
      } else {
        WorkIsTransparent(r, rest);
        assert RxOutput(r, es) + Decode(RxRun(r', rest).dec, RxRun(r', rest).ring).1
            == RxFrames(r, e) + (RxOutput(r', rest) + Decode(RxRun(r', rest).dec, RxRun(r', rest).ring).1);
      }
    }
  }

  lemma WorkIsTransparent(r: Rx, rest: seq<RxStamp>)
    ensures Decode(r.dec, r.ring + Arrived(rest)).1
         == RxFrames(r, Work) + Decode(Decode(r.dec, r.ring).0, [] + Arrived(rest)).1
  {
    assert [] + Arrived(rest) == Arrived(rest);
    DecodeConcat(r.dec, r.ring, Arrived(rest));
  }

  /** The ring keeps what fits, from the front; the rest of a chunk is lost. */
  lemma OverrunLosesTail(r: Rx, now: nat, chunk: Bytes)
    requires |r.ring| <= 2048
    ensures var all, r' := r.ring + chunk, RxStep(r, now, Ready(chunk));
      r'.ring == (if |all| <= 2048 then all else all[..2048]) && r'.dec == r.dec && r'.resyncAt == r.resyncAt
  {
    var all, n := r.ring + chunk, RoomFor(r, chunk);
    assert all[..|r.ring| + n] == r.ring + chunk[..n];
  }

  predicate RxInv(r: Rx) {
    && WellFormed(r.dec)
    && (r.dec != WaitMagic1 ==> r.resyncAt.Some?)
    && |r.ring| <= RING_SIZE
  }

  lemma RxStepKeepsInv(r: Rx, now: nat, e: RxEvent)
    requires RxInv(r)
    ensures RxInv(RxStep(r, now, e))
    ensures forall f :: f in RxFrames(r, e) ==> 1 <= |f| <= MAX_PAYLOAD
  {
    FramesWithinBounds(r.dec, r.ring);
  }

  /** In every reachable state a decoder stopped mid-frame has its resync watchdog armed. */
  lemma {:induction false} ResyncAlwaysArmed(r: Rx, es: seq<RxStamp>)
    requires RxInv(r)
    ensures RxInv(RxRun(r, es))
    ensures forall f :: f in RxOutput(r, es) ==> 1 <= |f| <= MAX_PAYLOAD
    decreases |es|
  {
    if es != [] {
      RxStepKeepsInv(r, es[0].now, es[0].event);
      ResyncAlwaysArmed(RxStep(r, es[0].now, es[0].event), es[1..]);
    }
  }

  /** The stall watchdog fires, or the bus error handler restarts reception. */
  predicate Restarts(r: Rx, now: nat, e: RxEvent) { e.Disabled? || (e.Resync? && Due(r.resyncAt, now)) }

  /**
   * Recovery from a stall: whatever frame was half received, once the watchdog fires on it, or
   * reception is restarted, the frames that follow, in the ring already or still to arrive, are
   * received, exactly.
   */
  lemma RestartRecovers(r: Rx, now: nat, e: RxEvent, es: seq<RxStamp>, noise: seq<Bytes>, ps: seq<Bytes>)
    requires RxInv(r) && Restarts(r, now, e) && |noise| == |ps| + 1
    requires (forall n :: n in noise ==> Clean(n)) && forall p :: p in ps ==> 1 <= |p| <= MAX_PAYLOAD
    requires r.ring + Arrived(es) == Stream(noise, ps)
    requires Prompt(RxStep(r, now, e), es, 0) && RxRun(RxStep(r, now, e), es).ring == []
    ensures RxOutput(r, [RxStamp(now, e)] + es) == ps
  {
    var r', all := RxStep(r, now, e), [RxStamp(now, e)] + es;
    PromptIsUndisturbed(r', es, 0);
    ChunkingIsInvisible(r', es);
    FramingRoundTrip(noise, ps);
    assert all[1..] == es;
    assert RxOutput(r, all) == [] + RxOutput(r', es) == RxOutput(r', es);
    assert RxOutput(r', es) + [] == RxOutput(r', es);
  }

  /** A line that falls silent in the middle of a frame: the watchdog is armed, and fires within 250 ms. */
  lemma StallIsNoticed(r: Rx, now: nat)
    requires RxInv(r)
    ensures var r' := RxStep(r, now, Work);
      r'.dec != WaitMagic1 ==> !Due(r'.resyncAt, now + 249) && Due(r'.resyncAt, now + 250)
  {
  }
}
