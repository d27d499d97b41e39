/**
 * The whole proxy: dispatch of node frames (src/router.c) and phone writes (src/main.c) over the
 * session with the node, the phone slots and the UART receiver.
 */
module Proxy {
  import opened Prelude
  import opened Wire
  import opened UartRx
  import opened Phones
  import opened Upstream
  import P = ProxyProtocol

  datatype System = System(node: Node, table: Table, rx: Rx)

  const SYSTEM_INIT := System(NODE_INIT, TABLE_INIT, RX_INIT)

  // ---------------------------------------------------------------- frames from the node

  /** Where a frame that is for the phones goes. */
  function Route(raw: Bytes, info: FromRadio): TableEvent {
    if info.variant == PACKET && info.decoded && info.portnum == P.PROXY_PORTNUM then
      match P.Parse(info.payload)
      case Some(h) => Target(h.dst, raw)
      case None => Broadcast(raw)
    else Broadcast(raw)
  }

  /** Parked phones are served with the nonce they stored. */
  function ServeParked(pending: seq<nat>): seq<TableEvent> {
    seq(|pending|, i requires 0 <= i < |pending| => On(pending[i], Arm(0)))
  }

  /** What a decoded frame means for the phones. */
  function Deliveries(codec: Codec, s: Session, raw: Bytes, info: FromRadio): seq<TableEvent> {
    if Consumes(s, info) then
      if s.phase == Fetching && Closes(codec, s, raw, info) then ServeParked(s.pending) else []
    else if info.variant == REBOOTED || Swallows(s, info) then []
    else [Route(raw, info)]
  }

  function OnFrame(codec: Codec, s: System, now: nat, raw: Bytes, rand: u32): System {
    var info, fs := codec.fromRadio(raw), s.node.cache.frames;
    if info.None? then s.(table := TableStep(codec, fs, s.table, Broadcast(raw)))
    else
      s.(node := NodeStep(codec, s.node, now, FrameIn(raw, info.value, rand)),
         table := TableRun(codec, fs, s.table, Deliveries(codec, s.node.session, raw, info.value)))
  }

  /** The random number drawn for the first of several frames, if one is needed. */
  function Draw(rands: seq<u32>): u32 { if rands == [] then 0 else rands[0] }

  function Rest(rands: seq<u32>): seq<u32> { if rands == [] then [] else rands[1..] }

  function OnFrames(codec: Codec, s: System, now: nat, raws: seq<Bytes>, rands: seq<u32>): System
    decreases |raws|
  {
    if raws == [] then s
    else OnFrames(codec, OnFrame(codec, s, now, raws[0], Draw(rands)), now, raws[1..], Rest(rands))
  }

  // ---------------------------------------------------------------- writes from phones

  datatype Disposition = Replay(nonce: u32) | Parked(nonce: u32) | Ignore | Reply | Release | Pass

  /** What a decoded ToRadio calls for, in the order the dispatcher tests. */
  function Dispose(phase: Phase, t: ToRadio): Disposition {
    match t
    case WantConfig(n) =>
      if phase != Live && phase != CacheReady then Ignore
      else if phase == CacheReady || phase == Live || phase == Refetching then Replay(n)
      else Parked(n)
    case Heartbeat => Reply
    case Disconnect => Release
    case Other => Pass
  }

  /** The session's part in a write. */
  function NodePart(codec: Codec, s: System, c: Conn, data: Bytes): seq<NodeEvent> {
    var t := codec.toRadio(data);
    if t.None? then [Forward(data, false)]
    else match Dispose(s.node.session.phase, t.value)
      case Pass => [Forward(data, true)]
      case Parked(_) => if Find(s.table.slots, c) < |s.table.slots| then [ParkRequest(c)] else []
      case _ => []
  }

  /** The slots' part in a write. */
  function TablePart(codec: Codec, s: System, now: nat, c: Conn, data: Bytes): seq<TableEvent> {
    var t := codec.toRadio(data);
    if t.None? then []
    else match Dispose(s.node.session.phase, t.value)
      case Replay(n) => [On(c, Arm(n))]
      case Parked(n) => [On(c, Park(n))] + (if s.node.cache.ready then [On(c, Arm(0))] else [])
      case Reply =>
        var qs := Scratch(codec.queueStatus);
        if qs.Some? then [On(c, Offer(qs.value))] else []
      case Release => [On(c, Leave(now))]
      case _ => []
  }

  // ---------------------------------------------------------------- the machine

  datatype Event =
    | Boots(rand: u32)
    | RxReady(chunk: Bytes) | RxWork(rands: seq<u32>) | RxStalled | RxDown
    | KeepaliveDue | FetchRetryDue | LivenessDue(rand: u32)
    | TxWorkRuns(ok: bool) | TxWorkPart(part: UartTx.TxEvent) | TxCompletes | TxAborts(sent: nat)
    | Connects(conn: Conn) | Drops(conn: Conn)
    | Reads(conn: Conn, offset: nat, len: nat)
    | Writes(conn: Conn, data: Bytes)
    | Registers(conn: Conn, data: Bytes)
    | TeardownDue(slot: nat) | TeardownLocks | TeardownDisconnects(ok: bool)

  /** The session events a system event consists of, frames aside. */
  function NodeEvents(codec: Codec, s: System, e: Event): seq<NodeEvent> {
    match e
    case Boots(rand) => [Start(rand)]
    case KeepaliveDue => [KeepaliveFire]
    case FetchRetryDue => [FetchRetryFire]
    case LivenessDue(rand) => [LivenessFire(rand)]
    case TxWorkRuns(ok) => [TxWork(ok)]
    case TxWorkPart(part) => [TxPart(part)]
    case TxCompletes => [TxDone]
    case TxAborts(sent) => [TxAborted(sent)]
    case Writes(c, data) => NodePart(codec, s, c, data)
    case _ => []
  }

  /** The slot-table events a system event consists of, frames aside. */
  function TableEvents(codec: Codec, s: System, now: nat, e: Event): seq<TableEvent> {
    match e
    case Connects(c) => [Connect(c)]
    case Drops(c) => [Lost(c)]
    case Reads(c, offset, len) => [On(c, Read(offset, len))]
    case Registers(c, data) => if |data| == ID_SIZE then [On(c, Register(data))] else []
    case Writes(c, data) => TablePart(codec, s, now, c, data)
    case TeardownDue(i) => [TeardownFire(i, now)]
    case TeardownLocks => [HandlerLock]
    case TeardownDisconnects(ok) => [HandlerDisconnect(ok)]
    case _ => []
  }

  function RxEvents(e: Event): Option<RxEvent> {
    match e
    case RxReady(chunk) => Some(Ready(chunk))
    case RxWork(_) => Some(Work)
    case RxStalled => Some(Resync)
    case RxDown => Some(Disabled)
    case _ => None
  }

  function FramesOf(s: System, e: Event): seq<Bytes> {
    if e.RxWork? then RxFrames(s.rx, Work) else []
  }

  /** One handler of the firmware, run to completion. */
  function Step(codec: Codec, s: System, now: nat, e: Event): System {
    var rx := RxEvents(e);
    var s' := if e.RxWork? then OnFrames(codec, s, now, FramesOf(s, e), e.rands)
              else s.(node := NodeRun(codec, s.node, AllAt(now, NodeEvents(codec, s, e))),
                      table := TableRun(codec, s.node.cache.frames, s.table, TableEvents(codec, s, now, e)));
    if rx.Some? then s'.(rx := RxStep(s.rx, now, rx.value)) else s'
  }

  datatype Moment = Moment(now: nat, event: Event)

  function SystemRun(codec: Codec, s: System, es: seq<Moment>): System
    decreases |es|
  {
    if es == [] then s else SystemRun(codec, Step(codec, s, es[0].now, es[0].event), es[1..])
  }

  /** What a FROMRADIO read returns to the phone: `None` is an ATT error. */
  function ReadBy(s: System, c: Conn, offset: nat, len: nat): Option<Bytes> {
    var i := Find(s.table.slots, c);
    if i < |s.table.slots| then ReadResult(s.node.cache.frames, s.table.slots[i], offset, len) else None
  }
}
