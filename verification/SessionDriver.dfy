/** src/upstream_session.c as it runs: static state updated by handlers, over the cache and the transmitter. */
module SessionDriver {
  import opened Prelude
  import opened Wire
  import opened ConfigCache
  import opened Upstream
  import opened CacheStore
  import opened UartDriver
  import opened Watchdogs

  class UpstreamSession {
    const codec: Codec
    const cache: ConfigStore
    const tx: Transmitter
    var state: Phase
    var nonce: u32
    var pending: seq<nat>
    var keepaliveAt: Timer
    var fetchRetryAt: Timer
    var livenessAt: Timer
    var armed: bool
    var keepaliveNonce: u32
    var keepalivePending: bool

    ghost predicate Parts()
      reads cache, cache.arena, cache.index, tx, tx.frameBuf
    {
      && cache.Valid() && tx.Valid()
      && cache.arena != tx.frameBuf
    }

    /** Between handlers the timers, nonces and publish flag agree with the phase. */
    ghost predicate Valid()
      reads this, cache, cache.arena, cache.index, tx, tx.frameBuf
    {
      Parts() && SessionInv(Own(), cache.ready) && |pending| <= MAX_PENDING
    }

    ghost function Own(): Session
      reads this
    {
      Session(state, nonce, pending, keepaliveAt, fetchRetryAt, livenessAt, armed, keepaliveNonce, keepalivePending)
    }

    ghost function View(): Node
      reads this, cache, tx
    {
      Node(Own(), cache.View(), tx.View())
    }

    constructor (codec: Codec)
      ensures Valid() && View() == NODE_INIT && this.codec == codec
      ensures fresh(cache) && fresh(cache.arena) && fresh(cache.index) && fresh(tx) && fresh(tx.frameBuf)
    {
      this.codec := codec;
      cache := new ConfigStore();
      tx := new Transmitter();
      state, nonce, pending := Boot, 0, [];
      keepaliveAt, fetchRetryAt, livenessAt := None, None, None;
      armed, keepaliveNonce, keepalivePending := false, 2, false;
    }

    // ---------------------------------------------------------------- helpers

    method SendWantConfig() returns (ok: bool)
      requires Parts()
      modifies tx`queue, tx`workQueued, tx`history
      ensures Parts() && tx.View() == Ask(codec, old(tx.View()), nonce)
      ensures ok == CanAsk(codec, old(tx.View()), nonce)
    {
      var buf := codec.wantConfig(nonce);
      if buf.None? {
        return false;
      }
      ok := tx.Tx(buf.value);
    }

    method RescheduleKeepalive(now: nat)
      modifies this`keepaliveAt
      ensures Own() == KeepaliveReschedule(old(Own()), now)
    {
      if !armed {
        return;
      }
      keepaliveAt := Some(now + KEEPALIVE_MS);
    }

    method KickLiveness(now: nat)
      modifies this`livenessAt
      ensures Own() == LivenessKick(old(Own()), now)
    {
      if state != Live {
        return;
      }
      livenessAt := Some(now + LIVENESS_MS);
    }

    /** Consumes the expectation of a keepalive reply, if there is one. */
    method SwallowLiveQueueStatus() returns (swallowed: bool)
      modifies this`keepalivePending
      ensures swallowed == old(keepalivePending) && !keepalivePending
    {
      if keepalivePending {
        keepalivePending := false;
        return true;
      }
      return false;
    }

    // ---------------------------------------------------------------- session

    method StartUp(now: nat, rand: u32)
      requires Valid() && !armed
      modifies this, cache, tx
      ensures Valid() && View() == StartSession(codec, old(View()), now, rand)
    {
      armed := true;
      keepaliveAt := Some(now + KEEPALIVE_MS);
      nonce := if rand == 0 || rand == 1 then 2 else rand;
      if codec.wantConfig(nonce).None? {
        return;
      }
      OpenBootFetch(now);
    }

    /** Empty the cache and ask; a refused want_config is left to the retry watchdog. */
    method OpenBootFetch(now: nat)
      requires Parts()
      modifies this`state, this`pending, this`fetchRetryAt, cache, tx
      ensures Parts()
      ensures Own() == old(Own()).(pending := [], phase := Fetching, fetchRetryAt := Some(now + FETCH_RETRY_MS))
      ensures cache.View() == Cache([], false) && tx.View() == Ask(codec, old(tx.View()), nonce)
    {
      cache.Begin();
      pending := [];
      var ok := SendWantConfig();
      state := Fetching;
      fetchRetryAt := Some(now + FETCH_RETRY_MS);
    }

    method Recover(now: nat, rand: u32)
      requires Valid()
      modifies this, tx
      ensures Valid() && View() == Refetch(codec, old(View()), now, rand)
    {
      if state == Boot || state == Fetching || state == Refetching {
        return;
      }
      nonce := if rand == 0 || rand == 1 then 2 else rand;
      var ok := SendWantConfig();
      if ok {
        OpenRecovery(now);
      }
    }

    method OpenRecovery(now: nat)
      modifies this`state, this`fetchRetryAt, this`keepaliveAt
      ensures Own() == KeepaliveReschedule(
                old(Own()).(phase := Refetching, fetchRetryAt := Some(now + FETCH_RETRY_MS)), now)
    {
      state := Refetching;
      fetchRetryAt := Some(now + FETCH_RETRY_MS);
      RescheduleKeepalive(now);
    }

    method OnFetchRetry(now: nat)
      requires Valid() && Due(fetchRetryAt, now)
      modifies this, cache, tx
      ensures Valid() && View() == FetchRetry(codec, old(View()), now)
    {
      fetchRetryAt := None;
      if state != Fetching && state != Refetching {
        return;
      } else if state == Fetching {
        cache.Begin();
      }
      var ok := SendWantConfig();
      fetchRetryAt := Some(now + FETCH_RETRY_MS);
    }

    method OnLiveness(now: nat, rand: u32)
      requires Valid() && Due(livenessAt, now)
      modifies this, tx
      ensures Valid() && View() == LivenessExpiry(codec, old(View()), now, rand)
    {
      livenessAt := None;
      if state != Live {
        return;
      }
      Recover(now, rand);
    }

    method OnKeepalive(now: nat)
      requires Valid() && Due(keepaliveAt, now)
      modifies this, tx
      ensures Valid() && View() == Keepalive(codec, old(View()), now)
    {
      var n, next := keepaliveNonce, Inc32(keepaliveNonce);
      var buf := Scratch(codec.heartbeat(n));
      var sent := false;
      if buf.Some? {
        sent := tx.Tx(buf.value);
      }
      Beaten(buf.Some?, sent, if next == 0 || next == 1 then 2 else next, now);
      SessionStep(codec, old(View()), now, KeepaliveFire);
    }

    /** The bookkeeping after an attempt: next nonce, whether a reply is expected, next deadline. */
    method Beaten(encoded: bool, sent: bool, next: u32, now: nat)
      modifies this`keepaliveNonce, this`keepalivePending, this`keepaliveAt
      ensures Own() == old(Own()).(
                keepaliveNonce := next,
                keepalivePending := if encoded then sent else old(keepalivePending),
                keepaliveAt := Some(now + if encoded && !sent then KEEPALIVE_RETRY_MS else KEEPALIVE_MS))
    {
      keepaliveNonce := next;
      if encoded {
        keepalivePending := sent;
      }
      keepaliveAt := Some(now + if encoded && !sent then KEEPALIVE_RETRY_MS else KEEPALIVE_MS);
    }

    /**
     * One decoded frame while a fetch is open: returns whether the session took it, and the
     * parked phones to serve because it completed the boot fetch.
     */
    method OnFromRadio(raw: Bytes, info: FromRadio, now: nat) returns (consumed: bool, serve: seq<nat>)
      requires Valid()
      modifies this, cache, cache.arena, cache.index
      ensures Valid() && consumed == Consumes(old(Own()), info)
      ensures View() == if consumed then Consume(codec, old(View()), now, raw, info) else old(View())
      ensures serve == if consumed && old(state) == Fetching && Closes(codec, old(Own()), raw, info)
                       then old(pending) else []
    {
      serve := [];
      if state != Fetching && state != Refetching {
        return false, serve;
      }
      if info.variant == PACKET {
        return false, serve;
      }
      fetchRetryAt := Some(now + FETCH_RETRY_MS);
      var own := info.variant == CONFIG_COMPLETE && codec.completeNonce(raw) == Some(nonce);
      if own {
        serve := CloseFetch(now);
      } else {
        Retain(raw, info.variant);
      }
      return true, serve;
    }

    /** Burst content is cached during the boot fetch; a terminator that is not ours, always. */
    method Retain(raw: Bytes, variant: int)
      requires Parts()
      modifies cache, cache.arena, cache.index
      ensures Parts()
      ensures cache.View() == if variant == CONFIG_COMPLETE || state == Fetching
                              then old(cache.View()).(frames := Add(old(cache.frames), Frame(raw, variant)))
                              else old(cache.View())
    {
      if variant == CONFIG_COMPLETE || state == Fetching {
        var ok := cache.AddFrame(raw, variant);
      }
    }

    /** Our own terminator: publish after the boot fetch, and go LIVE. */
    method CloseFetch(now: nat) returns (serve: seq<nat>)
      requires Parts() && InFetch(state)
      modifies this, cache`ready
      ensures Parts()
      ensures serve == if old(state) == Fetching then old(pending) else []
      ensures Own() == LivenessKick(old(Own()).(phase := Live, fetchRetryAt := None,
                                     pending := if old(state) == Fetching then [] else old(pending)), now)
      ensures cache.View() == if old(state) == Fetching then old(cache.View()).(ready := true) else old(cache.View())
    {
      serve := [];
      if state == Fetching {
        cache.MarkReady();
        state := CacheReady;
        serve := pending;
        pending := [];
        state := Live;
        KickLiveness(now);
      } else if state == Refetching {
        state := Live;
        KickLiveness(now);
      }
      fetchRetryAt := None;
    }

    /** Remembers a phone until the cache is ready; returns whether it is to be served at once. */
    method OnPendingPhone(c: nat) returns (serveNow: bool)
      requires Valid() && |pending| <= MAX_PENDING
      modifies this`pending
      ensures Valid() && |pending| <= MAX_PENDING && serveNow == cache.ready
      ensures View() == ParkPhone(old(View()), c)
    {
      if cache.ready {
        return true;
      }
      for i := 0 to |pending|
        invariant unchanged(this)
        invariant c !in pending[..i]
      {
        if pending[i] == c {
          return false;
        }
      }
      if |pending| >= MAX_PENDING {
        return false;
      }
      pending := pending + [c];
      return false;
    }
  }
}
