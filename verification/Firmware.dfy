/** src/main.c and src/router.c: the dispatchers, over the session, the phone table and the UART. */
module Firmware {
  import opened Prelude
  import opened Wire
  import opened ConfigCache
  import opened UartRx
  import opened Phones
  import opened Upstream
  import opened Proxy
  import opened UartDriver
  import opened SessionDriver
  import opened PhoneTable

  /** Only reads look at the cache. */
  lemma CacheIsForReads(codec: Codec, fs: seq<Frame>, t: Table, e: TableEvent)
    requires !(e.On? && e.event.Read?)
    ensures TableStep(codec, fs, t, e) == TableStep(codec, [], t, e)
  {
  }

  lemma {:induction false} TableRunSnoc(codec: Codec, fs: seq<Frame>, t: Table, es: seq<TableEvent>, e: TableEvent)
    ensures TableRun(codec, fs, t, es + [e]) == TableStep(codec, fs, TableRun(codec, fs, t, es), e)
    decreases |es|
  {
    if es == [] {
      assert es + [e] == [e];
      RunOfOne(codec, fs, t, e);
    } else {
      assert (es + [e])[1..] == es[1..] + [e];
      TableRunSnoc(codec, fs, TableStep(codec, fs, t, es[0]), es[1..], e);
    }
  }

  lemma ServeNext(codec: Codec, fs: seq<Frame>, t: Table, serve: seq<nat>, i: nat)
    requires i < |serve|
    ensures var es := ServeParked(serve);
      TableRun(codec, fs, t, es[..i + 1]) == TableStep(codec, [], TableRun(codec, fs, t, es[..i]), On(serve[i], Arm(0)))
  {
    var es := ServeParked(serve);
    assert es[..i] + [es[i]] == es[..i + 1];
    TableRunSnoc(codec, fs, t, es[..i], es[i]);
    CacheIsForReads(codec, fs, TableRun(codec, fs, t, es[..i]), es[i]);
  }

  class ProxyFirmware {
    const codec: Codec
    const session: UpstreamSession
    const gatt: Gatt
    const rx: Receiver

    ghost predicate Wired()
    {
      && session.codec == codec && gatt.codec == codec
      && rx.payload != session.cache.arena && rx.payload != session.tx.frameBuf
    }

    ghost predicate Valid()
      reads session, session.cache, session.cache.arena, session.cache.index, session.tx, session.tx.frameBuf
      reads gatt.conns, rx, rx.payload
    {
      Wired() && session.Valid() && gatt.Valid() && rx.Valid()
    }

    ghost function View(): System
      reads session, session.cache, session.tx, gatt, gatt.conns, rx, rx.payload
      requires gatt.Valid() && rx.Valid()
    {
      System(session.View(), gatt.View(), rx.View())
    }

    constructor (codec: Codec)
      ensures Valid() && View() == SYSTEM_INIT && this.codec == codec
    {
      this.codec := codec;
      session := new UpstreamSession(codec);
      gatt := new Gatt(codec);
      rx := new Receiver();
    }

    // ---------------------------------------------------------------- router

    /** Parked phones are served with the nonce they stored. */
    method ServeAll(serve: seq<nat>, ghost fs: seq<Frame>)
      requires Wired() && gatt.Valid()
      modifies gatt, gatt.conns
      ensures gatt.Valid() && gatt.View() == TableRun(codec, fs, old(gatt.View()), ServeParked(serve))
    {
      ghost var es := ServeParked(serve);
      for i := 0 to |serve|
        invariant gatt.Valid() && gatt.View() == TableRun(codec, fs, old(gatt.View()), es[..i])
      {
        ServeNext(codec, fs, old(gatt.View()), serve, i);
        gatt.ReplayCachedBurst(serve[i], 0);
      }
      assert es[..|serve|] == es;
    }

    method BroadcastRaw(raw: Bytes, ghost fs: seq<Frame>)
      requires Wired() && gatt.Valid()
      modifies gatt.conns
      ensures gatt.Valid() && gatt.View() == TableStep(codec, fs, old(gatt.View()), Broadcast(raw))
    {
      var sent := gatt.BroadcastPacket(raw);
      CacheIsForReads(codec, fs, old(gatt.View()), Broadcast(raw));
    }

    /** A frame for the phones: by destination if it is a well-formed proxied packet, else to all. */
    method Deliver(raw: Bytes, info: FromRadio, ghost fs: seq<Frame>)
      requires Wired() && gatt.Valid()
      modifies gatt.conns
      ensures gatt.Valid() && gatt.View() == TableStep(codec, fs, old(gatt.View()), Route(raw, info))
    {
      if info.variant != PACKET || !info.decoded {
        BroadcastRaw(raw, fs);
        return;
      }
      if info.portnum == P.PROXY_PORTNUM {
        var h := P.Parse(info.payload);
        if h.None? {
          BroadcastRaw(raw, fs);
          return;
        }
        gatt.RoutePacket(h.value.dst, raw);
        CacheIsForReads(codec, fs, old(gatt.View()), Target(h.value.dst, raw));
        return;
      }
      BroadcastRaw(raw, fs);
    }

    /** The session's say on a frame that no fetch consumed: returns whether phones get it. */
    method Admit(info: FromRadio, raw: Bytes, now: nat, rand: u32) returns (deliver: bool)
      requires Wired() && session.Valid() && !Consumes(session.Own(), info)
      modifies session, session.tx
      ensures session.Valid()
      ensures session.View() == DispatchFrame(codec, old(session.View()), now, raw, info, rand)
      ensures deliver == !(info.variant == REBOOTED || Swallows(old(session.Own()), info))
    {
      if info.variant != PACKET {
        if info.variant == REBOOTED {
          session.Recover(now, rand);
          return false;
        }
        if info.variant == QUEUE_STATUS {
          var swallowed := session.SwallowLiveQueueStatus();
          if swallowed {
            return false;
          }
        }
      }
      session.KickLiveness(now);
      return true;
    }

    /** A frame no fetch consumed: the session's say first, then the phones. */
    method PassOn(raw: Bytes, info: FromRadio, now: nat, rand: u32, ghost fs: seq<Frame>)
      requires Wired() && session.Valid() && gatt.Valid() && !Consumes(session.Own(), info)
      modifies session, session.tx, gatt.conns
      ensures session.Valid() && gatt.Valid()
      ensures session.View() == DispatchFrame(codec, old(session.View()), now, raw, info, rand)
      ensures gatt.View() == TableRun(codec, fs, old(gatt.View()), Deliveries(codec, old(session.Own()), raw, info))
    {
      var deliver := Admit(info, raw, now, rand);
      if deliver {
        Deliver(raw, info, fs);
        RunOfOne(codec, fs, old(gatt.View()), Route(raw, info));
      }
    }

    method RouterDispatch(raw: Bytes, info: FromRadio, now: nat, rand: u32)
      requires Wired() && session.Valid() && gatt.Valid()
      modifies session, session.cache, session.cache.arena, session.cache.index, session.tx, gatt, gatt.conns
      ensures session.Valid() && gatt.Valid()
      ensures session.View() == DispatchFrame(codec, old(session.View()), now, raw, info, rand)
      ensures gatt.View() == TableRun(codec, old(session.cache.frames), old(gatt.View()),
                                      Deliveries(codec, old(session.Own()), raw, info))
    {
      ghost var fs := session.cache.frames;
      var consumed, serve := session.OnFromRadio(raw, info, now);
      if consumed {
        ServeAll(serve, fs);
      } else {
        PassOn(raw, info, now, rand, fs);
      }
    }

    /**
     * `ble_gatt_park_pending`: the phone is PENDING and remembered until the cache is ready, or
     * served at once if it is. No dispatcher calls it.
     */
    method Park(c: Conn, nonce: u32)
      requires Valid()
      modifies session`pending, gatt.conns
      ensures Valid()
      ensures var t, fs := old(gatt.View()), session.cache.frames;
        var tracked := Find(t.slots, c) < |t.slots|;
        && session.View() == (if tracked then ParkPhone(old(session.View()), c) else old(session.View()))
        && gatt.View() == TableRun(codec, fs, t, [On(c, Phones.Park(nonce))]
                                                 + (if session.cache.ready then [On(c, Arm(0))] else []))
    {
      ghost var t, fs := gatt.View(), session.cache.frames;
      var tracked := gatt.ParkPending(c, nonce);
      if tracked {
        var serveNow := session.OnPendingPhone(c);
        if serveNow {
          gatt.ReplayCachedBurst(c, 0);
        }
      }
      ParkedThenServed(codec, fs, t, c, nonce);
    }

    // ---------------------------------------------------------------- main

    /** A complete frame from the node. */
    method OnFromRadioUart(raw: Bytes, now: nat, rand: u32)
      requires Valid()
      modifies session, session.cache, session.cache.arena, session.cache.index, session.tx, gatt, gatt.conns
      ensures Valid() && View() == OnFrame(codec, old(View()), now, raw, rand)
    {
      var info := codec.fromRadio(raw);
      if info.None? {
        BroadcastRaw(raw, session.cache.frames);
        return;
      }
      RouterDispatch(raw, info.value, now, rand);
    }

    /** The receive work item: decode what the ring holds and dispatch every completed frame. */
    method OnRxWork(now: nat, rands: seq<u32>)
      requires Valid()
      modifies session, session.cache, session.cache.arena, session.cache.index, session.tx
      modifies gatt, gatt.conns, rx, rx.payload
      ensures Valid() && View() == Step(codec, old(View()), now, Proxy.RxWork(rands))
    {
      ghost var s := View();
      var frames := rx.Work(now);
      DispatchAll(frames, now, rands);
      RxUntouched(codec, s, RxStep(s.rx, now, Work), now, frames, rands);
    }

    method DispatchAll(frames: seq<Bytes>, now: nat, rands: seq<u32>)
      requires Valid()
      modifies session, session.cache, session.cache.arena, session.cache.index, session.tx, gatt, gatt.conns
      ensures Valid() && View() == OnFrames(codec, old(View()), now, frames, rands)
      decreases |frames|
    {
      if frames != [] {
        OnFromRadioUart(frames[0], now, Draw(rands));
        DispatchAll(frames[1..], now, Rest(rands));
      }
    }

    /** A write passed on to the node; a real packet pushes the keepalive out. */
    method ForwardToNode(data: Bytes, decodable: bool, now: nat)
      requires session.Valid()
      modifies session, session.tx
      ensures session.Valid() && session.View() == ForwardWrite(old(session.View()), now, data, decodable)
    {
      var ok := session.tx.Tx(data);
      if decodable && ok {
        session.RescheduleKeepalive(now);
      }
    }

    /** The locally answered variants: replay, queueStatus reply, teardown. */
    method AnswerLocally(c: Conn, t: ToRadio, now: nat)
      requires Wired() && gatt.Valid() && t != Other
      modifies gatt, gatt.conns
      ensures gatt.Valid() && gatt.View() == LocalAnswer(codec, old(gatt.View()), session.state, c, t, now)
    {
      match t {
        case WantConfig(n) =>
          // Outside LIVE and CACHE_READY the request is absorbed; no later branch is reachable.
          if session.state == Live || session.state == CacheReady {
            gatt.ReplayCachedBurst(c, n);
          }
        case Heartbeat =>
          var qs := Scratch(codec.queueStatus);
          if qs.Some? {
            var status, rung := gatt.Enqueue(c, qs.value);
          }
        case Disconnect =>
          var ok := gatt.RequestTeardown(c, now);
      }
    }

    /** A ToRadio written by a phone. */
    method OnToRadioBle(c: Conn, data: Bytes, now: nat)
      requires Valid()
      modifies session, session.tx, gatt, gatt.conns
      ensures Valid() && View() == Step(codec, old(View()), now, Writes(c, data))
    {
      ghost var s := View();
      var t := codec.toRadio(data);
      WriteStep(codec, s, now, c, data);
      if t.None? || t.value == Other {
        ForwardToNode(data, t.Some?, now);
        assert gatt.View() == s.table && rx.View() == s.rx;
      } else {
        AnswerLocally(c, t.value, now);
        assert session.View() == s.node && rx.View() == s.rx;
      }
    }
  }

  /** Parking and serving at once, step by step; an untracked phone is neither parked nor served. */
  lemma ParkedThenServed(codec: Codec, fs: seq<Frame>, t: Table, c: Conn, nonce: u32)
    ensures var t1 := TableStep(codec, [], t, On(c, Phones.Park(nonce)));
      && TableRun(codec, fs, t, [On(c, Phones.Park(nonce))] + []) == t1
      && TableRun(codec, fs, t, [On(c, Phones.Park(nonce))] + [On(c, Arm(0))])
           == TableStep(codec, [], t1, On(c, Arm(0)))
      && (Find(t.slots, c) >= |t.slots| ==> t1 == t && TableStep(codec, [], t1, On(c, Arm(0))) == t)
  {
    var a, b := On(c, Phones.Park(nonce)), On(c, Arm(0));
    assert [a] + [] == [a];
    RunOfOne(codec, fs, t, a);
    CacheIsForReads(codec, fs, t, a);
    TableRunSnoc(codec, fs, t, [a], b);
    CacheIsForReads(codec, fs, TableStep(codec, fs, t, a), b);
  }

  /** What an absorbed write does to the slots. */
  function LocalAnswer(codec: Codec, t: Table, phase: Phase, c: Conn, m: ToRadio, now: nat): Table {
    match m
    case WantConfig(n) => if phase == Live || phase == CacheReady then TableStep(codec, [], t, On(c, Arm(n))) else t
    case Heartbeat =>
      var qs := Scratch(codec.queueStatus);
      if qs.Some? then TableStep(codec, [], t, On(c, Offer(qs.value))) else t
    case Disconnect => TableStep(codec, [], t, On(c, Leave(now)))
    case Other => t
  }

  /** A write either goes to the node or is answered from the slots, never both. */
  lemma WriteStep(codec: Codec, s: System, now: nat, c: Conn, data: Bytes)
    ensures var t := codec.toRadio(data);
      Step(codec, s, now, Writes(c, data)) ==
        if t.None? || t.value == Other then s.(node := ForwardWrite(s.node, now, data, t.Some?))
        else s.(table := LocalAnswer(codec, s.table, s.node.session.phase, c, t.value, now))
  {
    var t, fs := codec.toRadio(data), s.node.cache.frames;
    if t.None? || t.value == Other {
      NodeRunOfOne(codec, s.node, now, Forward(data, t.Some?));
    } else {
      var es := TableEvents(codec, s, now, Writes(c, data));
      if es != [] { OneTableStep(codec, fs, s.table, es[0]); }
    }
  }

  lemma OneTableStep(codec: Codec, fs: seq<Frame>, t: Table, e: TableEvent)
    requires !(e.On? && e.event.Read?)
    ensures TableRun(codec, fs, t, [e]) == TableStep(codec, [], t, e)
  {
    RunOfOne(codec, fs, t, e);
    CacheIsForReads(codec, fs, t, e);
  }

  /** Dispatching frames neither reads nor changes the receiver. */
  lemma {:induction false} RxUntouched(codec: Codec, s: System, rx: Rx, now: nat, raws: seq<Bytes>, rands: seq<u32>)
    ensures OnFrames(codec, s.(rx := rx), now, raws, rands) == OnFrames(codec, s, now, raws, rands).(rx := rx)
    decreases |raws|
  {
    if raws != [] {
      var s' := OnFrame(codec, s, now, raws[0], Draw(rands));
      assert OnFrame(codec, s.(rx := rx), now, raws[0], Draw(rands)) == s'.(rx := rx);
      RxUntouched(codec, s', rx, now, raws[1..], Rest(rands));
    }
  }
}
