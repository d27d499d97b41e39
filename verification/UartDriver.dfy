/** src/uart_meshtastic.c as it runs: the decoder's buffer and counters, the transmit queue and flag. */
module UartDriver {
  import opened Prelude
  import opened UartRx
  import opened UartTx

  datatype RxState = AwaitMagic1 | AwaitMagic2 | AwaitLenHi | AwaitLenLo | AwaitPayload

  class Receiver {
    var ring: Bytes             // the interrupt-fed ring buffer, oldest byte first
    var state: RxState
    var expectedLen: nat
    var receivedLen: nat
    const payload: array<byte>
    var resyncAt: Timer

    ghost predicate Valid()
      reads this, payload
    {
      && payload.Length == MAX_PAYLOAD
      && |ring| <= RING_SIZE
      && (state == AwaitLenLo ==> expectedLen % 256 == 0 && expectedLen / 256 < 256)
      && (state == AwaitPayload ==> receivedLen < expectedLen <= MAX_PAYLOAD)
    }

    ghost function Dec(): Decoder
      reads this, payload
      requires Valid()
    {
      match state
      case AwaitMagic1 => WaitMagic1
      case AwaitMagic2 => WaitMagic2
      case AwaitLenHi => WaitLenHi
      case AwaitLenLo => WaitLenLo(expectedLen / 256)
      case AwaitPayload => WaitPayload(expectedLen, payload[..receivedLen])
    }

    ghost function View(): Rx
      reads this, payload
      requires Valid()
    {
      Rx(ring, Dec(), resyncAt)
    }

    constructor ()
      ensures Valid() && View() == RX_INIT && fresh(payload)
    {
      ring, state, expectedLen, receivedLen, resyncAt := [], AwaitMagic1, 0, 0, None;
      payload := new byte[MAX_PAYLOAD];
    }

    /** Data-ready interrupt: the ring takes what fits, the rest is lost. */
    method OnReady(chunk: Bytes, now: nat)
      requires Valid()
      modifies this`ring
      ensures Valid() && View() == RxStep(old(View()), now, Ready(chunk))
    {
      var room := RING_SIZE - |ring|;
      ring := ring + (if |chunk| <= room then chunk else chunk[..room]);
      assert chunk[..|chunk|] == chunk;
    }

    /** One byte through the state machine; returns the frame it completes. */
    method ProcessByte(b: byte) returns (frame: Option<Bytes>)
      requires Valid()
      modifies this`state, this`expectedLen, this`receivedLen, payload
      ensures Valid()
      ensures (Dec(), frame) == Feed(old(Dec()), b)
    {
      frame := None;
      match state {
        case AwaitMagic1 =>
          if b == MAGIC1 { state := AwaitMagic2; }
        case AwaitMagic2 =>
          if b == MAGIC2 {
            state := AwaitLenHi;
          } else {
            state := if b == MAGIC1 then AwaitMagic2 else AwaitMagic1;
          }
        case AwaitLenHi =>
          expectedLen := (b as int) * 256;
          state := AwaitLenLo;
        case AwaitLenLo =>
          expectedLen := expectedLen + b;
          if expectedLen == 0 || expectedLen > MAX_PAYLOAD {
            state := AwaitMagic1;
          } else {
            receivedLen := 0;
            state := AwaitPayload;
          }
        case AwaitPayload =>
          payload[receivedLen] := b;
          receivedLen := receivedLen + 1;
          assert payload[..receivedLen] == old(payload[..receivedLen]) + [b];
          if receivedLen == expectedLen {
            frame := Some(payload[..receivedLen]);
            state := AwaitMagic1;
          }
      }
    }

    /** Takes one byte off the ring and processes it. */
    method TakeByte() returns (frame: Option<Bytes>)
      requires Valid() && ring != []
      modifies this`ring, this`state, this`expectedLen, this`receivedLen, payload
      ensures Valid() && ring == old(ring)[1..]
      ensures Decode(old(Dec()), old(ring)).0 == Decode(Dec(), ring).0
      ensures Decode(old(Dec()), old(ring)).1 == (if frame.Some? then [frame.value] else []) + Decode(Dec(), ring).1
    {
      var b := ring[0];
      ring := ring[1..];
      frame := ProcessByte(b);
    }

    /** The receive work item: drain the ring, then push or cancel the stall watchdog. */
    method Work(now: nat) returns (frames: seq<Bytes>)
      requires Valid()
      modifies this, payload
      ensures Valid() && View() == RxStep(old(View()), now, UartRx.Work)
      ensures frames == RxFrames(old(View()), UartRx.Work)
    {
      frames := [];
      ghost var d0, all := Dec(), ring;
      while ring != []
        invariant Valid()
        invariant Decode(d0, all).0 == Decode(Dec(), ring).0
        invariant Decode(d0, all).1 == frames + Decode(Dec(), ring).1
        decreases |ring|
      {
        var frame := TakeByte();
        if frame.Some? {
          frames := frames + [frame.value];
        }
      }
      if state != AwaitMagic1 {
        resyncAt := Some(now + RESYNC_MS);
      } else {
        resyncAt := None;
      }
    }

    /** The stall watchdog. */
    method OnResync(now: nat)
      requires Valid() && Due(resyncAt, now)
      modifies this
      ensures Valid() && View() == RxStep(old(View()), now, Resync)
    {
      resyncAt := None;
      if state != AwaitMagic1 {
        state := AwaitMagic1;
        receivedLen := 0;
        expectedLen := 0;
      }
    }

    /** Reception ended by a bus error and was re-armed. */
    method OnDisabled(now: nat)
      requires Valid()
      modifies this`state
      ensures Valid() && View() == RxStep(old(View()), now, Disabled)
    {
      state := AwaitMagic1;
    }
  }

  class Transmitter {
    var queue: seq<Bytes>       // the message queue
    const frameBuf: array<byte>
    var inProgress: bool        // the driver owns `frameBuf`
    var workQueued: bool
    ghost var sending: Bytes    // the payload `frameBuf` was built from
    ghost var history: Pump     // the history fields of the pump; its other fields are not used

    ghost predicate Valid()
      reads this, frameBuf
    {
      && frameBuf.Length == MAX_PAYLOAD + 4
      && |queue| <= UartTx.QUEUE_DEPTH
      && (forall p :: p in queue ==> |p| <= MAX_PAYLOAD)
      && |history.frameBuf| <= frameBuf.Length
      && history.frameBuf == frameBuf[..|history.frameBuf|]
    }

    /** The pump between handlers, when nobody is halfway through a put or a take. */
    ghost function View(): Pump
      reads this
    {
      history.(queue := queue, inFlight := if inProgress then Some(sending) else None,
               workQueued := workQueued, owed := 0, worker := Idle)
    }

    constructor ()
      ensures Valid() && View() == TX_INIT && fresh(frameBuf)
    {
      queue, inProgress, workQueued := [], false, false;
      frameBuf := new byte[MAX_PAYLOAD + 4];
      sending, history := [], TX_INIT;
    }

    /** Queue a packet for the node, unless it is too long or the queue is full. */
    method Tx(p: Bytes) returns (ok: bool)
      requires Valid()
      modifies this`queue, this`workQueued, this`history
      ensures Valid() && View() == Send(old(View()), p)
      ensures ok == Accepts(old(View()), p)
    {
      if |p| > MAX_PAYLOAD {
        return false;
      }
      if |queue| >= UartTx.QUEUE_DEPTH {
        return false;
      }
      queue := queue + [p];
      history := history.(accepted := history.accepted + [p]);
      workQueued := true;
      return true;
    }

    /** The transmit work item; `ok` is the driver's answer to the start. */
    method Work(ok: bool)
      requires Valid() && workQueued
      modifies this, frameBuf
      ensures Valid() && View() == RunWorker(old(View()), ok)
    {
      workQueued := false;
      if inProgress {
        return;
      }
      if queue == [] {
        return;
      }
      var p := queue[0];
      assert p in queue;
      queue := queue[1..];
      BuildFrame(p);
      inProgress := true;
      if !ok {
        inProgress := false;
        history := history.(failed := history.failed + 1);
        workQueued := true;
      }
    }

    /** Lays the packet out in the frame buffer: magic, length, payload. */
    method BuildFrame(p: Bytes)
      requires Valid() && |p| <= MAX_PAYLOAD
      modifies this`sending, this`history, frameBuf
      ensures Valid() && sending == p
      ensures history == old(history).(started := old(history).started + [p], frameBuf := Encode(p))
    {
      frameBuf[0] := MAGIC1;
      frameBuf[1] := MAGIC2;
      frameBuf[2] := |p| / 256;
      frameBuf[3] := |p| % 256;
      CopyInto(frameBuf, 4, p);
      assert frameBuf[..|p| + 4] == Encode(p);
      history := history.(started := history.started + [p], frameBuf := Encode(p));
      sending := p;
    }

    /** Completion interrupt. */
    method OnDone()
      requires Valid() && inProgress
      modifies this
      ensures Valid() && View() == TxStep(old(View()), Done)
    {
      history := history.(completed := history.completed + [sending],
                          arrived := history.arrived + [sending], wire := history.wire + history.frameBuf);
      inProgress := false;
      workQueued := true;
    }

    /** Abort interrupt, after `sent` bytes. */
    method OnAborted(sent: nat)
      requires Valid() && inProgress
      modifies this
      ensures Valid() && View() == TxStep(old(View()), Abort(sent))
    {
      history := history.(
        aborted := history.aborted + 1,
        torn := history.torn + (if Tears(history.frameBuf, sent) then 1 else 0),
        arrived := history.arrived + (if sent >= |history.frameBuf| then [sending] else []),
        wire := history.wire + Cut(history.frameBuf, sent));
      inProgress := false;
      workQueued := true;
    }
  }
}
