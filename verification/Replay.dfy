/** Serve-on-read replay and the per-phone queue, over a slot's lifetime. */
module Replay {
  import opened Prelude
  import opened Wire
  import opened ConfigCache
  import opened Phones

  // ---------------------------------------------------------------- replay

  /** The frames `fs'` are `fs` followed by terminators only. */
  ghost predicate GrownByTerminators(fs: seq<Frame>, fs': seq<Frame>) {
    fs <= fs' && forall i :: |fs| <= i < |fs'| ==> fs'[i].variant == CONFIG_COMPLETE
  }

  lemma {:induction false} GrowthKeepsSegments(fs: seq<Frame>, fs': seq<Frame>, nonce: u32, i: nat)
    requires GrownByTerminators(fs, fs')
    ensures SegmentFrom(fs', nonce, i) == SegmentFrom(fs, nonce, i)
    decreases |fs'|
  {
    if |fs'| > |fs| {
      var n := |fs'| - 1;
      assert fs' == fs'[..n] + [fs'[n]];
      assert GrownByTerminators(fs, fs'[..n]);
      TerminatorOutsideSegments(fs'[..n], fs'[n], nonce, i);
      GrowthKeepsSegments(fs, fs'[..n], nonce, i);
    } else {
      assert fs == fs';
    }
  }

  /**
   * A replaying slot over cache `fs` with `left` still to serve, its terminator last. With nothing
   * left, the terminator was served when the cache held `last` frames, and only terminators came since.
   */
  ghost predicate Standing(fs: seq<Frame>, s: Slot, left: seq<Bytes>, last: nat) {
    && s.state == Replaying
    && if left != [] then s.cursor <= |fs| && left == SegmentFrom(fs, s.nonce, s.cursor) + [s.cc]
       else s.cursor == last + 1 && last <= |fs| && GrownByTerminators(fs[..last], fs)
  }

  /** One ATT read as the phone sees it. */
  datatype Piece = Piece(offset: nat, len: nat, result: Option<Bytes>)

  /** A fresh read with the reads that continue it, and how many frames the cache held. */
  datatype Fresh = Fresh(count: nat, pieces: seq<Piece>)

  predicate IsFresh(e: SlotEvent) { e.Read? && e.offset == 0 }

  /** The reads of a run up to the next fresh one: they continue the last one. */
  function Continuation(codec: Codec, s: Slot, es: seq<SlotStamp>): seq<Piece>
    decreases |es|
  {
    if es == [] || IsFresh(es[0].event) then []
    else
      var fs, e, rest := es[0].fs, es[0].event, Continuation(codec, SlotStep(codec, es[0].fs, s, es[0].event), es[1..]);
      if e.Read? then [Piece(e.offset, e.len, ReadResult(fs, s, e.offset, e.len))] + rest else rest
  }

  /** The fresh reads of a run, each with its continuation. */
  function Served(codec: Codec, s: Slot, es: seq<SlotStamp>): seq<Fresh>
    decreases |es|
  {
    if es == [] then []
    else
      var fs, e, s' := es[0].fs, es[0].event, SlotStep(codec, es[0].fs, s, es[0].event);
      if IsFresh(e) then
        [Fresh(|fs|, [Piece(0, e.len, ReadResult(fs, s, 0, e.len))] + Continuation(codec, s', es[1..]))]
        + Served(codec, s', es[1..])
      else Served(codec, s', es[1..])
  }

  /** Every read returned the requested part of `packet`. */
  predicate PartsOf(packet: Bytes, pieces: seq<Piece>) {
    forall p :: p in pieces ==> p.result == Chunk(packet, p.offset, p.len)
  }

  /** Whatever happens before the next fresh read, the continuation is of the staged packet. */
  lemma {:induction false} ContinuationOfStaged(codec: Codec, s: Slot, es: seq<SlotStamp>)
    ensures PartsOf(s.staged, Continuation(codec, s, es))
    decreases |es|
  {
    if es != [] && !IsFresh(es[0].event) {
      ContinuationOfStaged(codec, SlotStep(codec, es[0].fs, s, es[0].event), es[1..]);
    }
  }

  /** Offered packets that entered the queue during a run. */
  function Enqueued(codec: Codec, s: Slot, es: seq<SlotStamp>): seq<Bytes>
    decreases |es|
  {
    if es == [] then []
    else
      var rest := Enqueued(codec, SlotStep(codec, es[0].fs, s, es[0].event), es[1..]);
      if es[0].event.Offer? && Takes(s, es[0].event.raw) then [es[0].event.raw] + rest else rest
  }

  predicate NoRestart(es: seq<SlotStamp>) { forall x :: x in es ==> !x.event.Arm? && !x.event.Park? }

  /** From one event to the next the cache gains terminators at most. */
  ghost predicate Growing(fs: seq<Frame>, es: seq<SlotStamp>)
    decreases |es|
  {
    es == [] || (GrownByTerminators(fs, es[0].fs) && Growing(es[0].fs, es[1..]))
  }

  /**
   * The reads `log` are of `left`, in order; then of the terminator `cc` again as often as the
   * cache has grown since the read before, and of nothing once it has not.
   */
  predicate Follows(left: seq<Bytes>, cc: Bytes, last: nat, log: seq<Fresh>)
    decreases |log|
  {
    log == [] ||
    if left != [] then PartsOf(left[0], log[0].pieces) && Follows(left[1..], cc, log[0].count, log[1..])
    else if log[0].count == last then PartsOf([], log[0].pieces)
    else PartsOf(cc, log[0].pieces) && Follows([], cc, log[0].count, log[1..])
  }

  /** The closing empty read is among them. */
  predicate Over(left: seq<Bytes>, last: nat, log: seq<Fresh>)
    decreases |log|
  {
    log != [] &&
    if left != [] then Over(left[1..], log[0].count, log[1..])
    else log[0].count == last || Over([], log[0].count, log[1..])
  }

  lemma {:induction false} NothingAfter(fs: seq<Frame>, nonce: u32, last: nat, i: nat)
    requires last <= i <= |fs| && GrownByTerminators(fs[..last], fs)
    ensures Skip(fs, nonce, i) == |fs|
    decreases |fs| - i
  {
    if i < |fs| { NothingAfter(fs, nonce, last, i + 1); }
  }

  /**
   * One fresh read serves the head of what is left and moves the cursor on. With nothing left it
   * is empty and makes the slot ACTIVE exactly when the cache has not grown since the terminator
   * was served; otherwise it serves the terminator again.
   */
  lemma StageServesHead(fs: seq<Frame>, s: Slot, left: seq<Bytes>, last: nat)
    requires Standing(fs, s, left, last)
    ensures var s' := Stage(fs, s);
      && s'.queue == s.queue && s'.cc == s.cc
      && if left == [] && |fs| == last then s'.staged == [] && s'.state == Active
         else
           && s'.staged == (if left != [] then left[0] else s.cc)
           && s.cursor < s'.cursor && Standing(fs, s', if left != [] then left[1..] else [], |fs|)
  {
    var k := Skip(fs, s.nonce, s.cursor);
    assert fs[..|fs|] == fs;
    if left != [] && k < |fs| {
      assert left == [fs[k].bytes] + (SegmentFrom(fs, s.nonce, k + 1) + [s.cc]);
    } else if left != [] {
      assert left == [s.cc];
    } else if |fs| > last {
      NothingAfter(fs, s.nonce, last, s.cursor);
    }
  }

  /** A cache that gains terminators leaves what a phone has still to be served alone. */
  lemma GrowthKeepsStanding(fs: seq<Frame>, fs': seq<Frame>, s: Slot, left: seq<Bytes>, last: nat)
    requires Standing(fs, s, left, last) && GrownByTerminators(fs, fs')
    ensures Standing(fs', s, left, last)
  {
    GrowthKeepsSegments(fs, fs', s.nonce, s.cursor);
    if left == [] { assert fs'[..last] == fs[..last]; }
  }

  /** Any other event of a replaying slot leaves the replay alone; an accepted offer is queued. */
  lemma OtherEventsKeepStanding(codec: Codec, fs: seq<Frame>, s: Slot, e: SlotEvent, left: seq<Bytes>, last: nat)
    requires Standing(fs, s, left, last) && !e.Arm? && !e.Park? && !(e.Read? && e.offset == 0)
    ensures var s' := SlotStep(codec, fs, s, e);
      && Standing(fs, s', left, last) && s'.cc == s.cc
      && s'.queue == s.queue + (if e.Offer? && Takes(s, e.raw) then [e.raw] else [])
  {
  }

  /** The outcome of a run that had `left` to serve. */
  ghost predicate Exactly(left: seq<Bytes>, cc: Bytes, last: nat, log: seq<Fresh>, queue: seq<Bytes>, s': Slot) {
    && Follows(left, cc, last, log)
    && if Over(left, last, log) then s'.state == Active else s'.state == Replaying && s'.queue == queue
  }

  lemma ServedOneMore(left: seq<Bytes>, cc: Bytes, last: nat, r: Fresh, log: seq<Fresh>, queue: seq<Bytes>, s': Slot)
    requires left != [] || r.count != last
    requires PartsOf(if left != [] then left[0] else cc, r.pieces)
    requires Exactly(if left != [] then left[1..] else [], cc, r.count, log, queue, s')
    ensures Exactly(left, cc, last, [r] + log, queue, s')
  {
    assert ([r] + log)[1..] == log;
  }

  lemma ServedLast(cc: Bytes, r: Fresh, log: seq<Fresh>, queue: seq<Bytes>, s': Slot)
    requires PartsOf([], r.pieces) && s'.state == Active
    ensures Exactly([], cc, r.count, [r] + log, queue, s')
  {
    assert ([r] + log)[1..] == log;
  }

  /**
   * Replay is exact: whatever else happens to the slot, and though the cache may gain stray
   * terminators at any point, its fresh reads return the segment in order, then the terminator,
   * then an empty read that makes it ACTIVE, with the terminator once more for every read that
   * finds the cache grown since; packets accepted meanwhile wait in the queue, in order, and never
   * show up inside the burst.
   */
  lemma {:induction false} ReplayExact(
    codec: Codec, fs: seq<Frame>, s: Slot, es: seq<SlotStamp>, left: seq<Bytes>, last: nat)
    requires Standing(fs, s, left, last) && NoRestart(es) && Growing(fs, es)
    ensures Exactly(left, s.cc, last, Served(codec, s, es), s.queue + Enqueued(codec, s, es), SlotRun(codec, s, es))
    decreases |es|
  {
    if es == [] {
      assert s.queue + [] == s.queue;
    } else {
      var fs', e, rest, s1 := es[0].fs, es[0].event, es[1..], SlotStep(codec, es[0].fs, s, es[0].event);
      assert es[0] in es;
      GrowthKeepsStanding(fs, fs', s, left, last);
      if e.Read? && e.offset == 0 {
        var r, queue := Served(codec, s, es)[0], s.queue + Enqueued(codec, s, es);
        StageServesHead(fs', s, left, last);
        ContinuationOfStaged(codec, s1, rest);
        assert PartsOf(s1.staged, r.pieces);
        if left == [] && |fs'| == last {
          StaysActive(codec, s1, rest);
          ServedLast(s.cc, r, Served(codec, s1, rest), queue, SlotRun(codec, s1, rest));
        } else {
          ReplayExact(codec, fs', s1, rest, if left != [] then left[1..] else [], |fs'|);
          ServedOneMore(left, s.cc, last, r, Served(codec, s1, rest), queue, SlotRun(codec, s1, rest));
        }
      } else {
        OtherEventsKeepStanding(codec, fs', s, e, left, last);
        ReplayExact(codec, fs', s1, rest, left, last);
        assert s1.queue + Enqueued(codec, s1, rest) == s.queue + Enqueued(codec, s, es);
      }
    }
  }

  lemma {:induction false} StaysActive(codec: Codec, s: Slot, es: seq<SlotStamp>)
    requires s.state == Active && NoRestart(es)
    ensures SlotRun(codec, s, es).state == Active
    decreases |es|
  {
    if es != [] {
      assert es[0] in es;
      StaysActive(codec, SlotStep(codec, es[0].fs, s, es[0].event), es[1..]);
    }
  }

  /** From arming on: the segment of the nonce asked for, or of the stored one for 0, then its terminator. */
  lemma ArmedReplay(codec: Codec, fs: seq<Frame>, s: Slot, nonce: u32, eff: u32)
    requires eff == ArmNonce(s, nonce) && Scratch(codec.configComplete(eff)).Some?
    ensures var s', cc := SlotStep(codec, fs, s, Arm(nonce)), codec.configComplete(eff).value;
      s'.nonce == eff && s'.cc == cc && Standing(fs, s', Segment(fs, eff) + [cc], 0)
  {
  }

  /** A terminator that cannot be encoded aborts the arming: only the nonce is stored. */
  lemma FailedArmKeepsReplay(codec: Codec, fs: seq<Frame>, s: Slot, nonce: u32)
    requires nonce != 0 && Scratch(codec.configComplete(nonce)).None?
    ensures SlotStep(codec, fs, s, Arm(nonce)) == s.(nonce := nonce)
  {
  }

  /**
   * Exactly when the terminator carries the nonce the phone asked with: always, except for a
   * phone that asks with 0 after having asked with another nonce.
   */
  lemma EchoIff(codec: Codec, fs: seq<Frame>, s: Slot, nonce: u32)
    requires Lawful(codec)
    ensures codec.completeNonce(SlotStep(codec, fs, s, Arm(nonce)).cc) == Some(nonce) <==> nonce != 0 || s.nonce == 0
  {
    var eff := ArmNonce(s, nonce);
    assert codec.configComplete(eff).Some? && codec.completeNonce(codec.configComplete(eff).value) == Some(eff);
  }

  // ---------------------------------------------------------------- read by read

  /** The replay is still on at read `k`: every read after the terminator found the cache grown. */
  predicate StillOn(answer: seq<Bytes>, log: seq<Fresh>, k: nat)
    requires answer != [] && k <= |log|
  {
    forall j :: |answer| <= j < k ==> log[j].count != log[j - 1].count
  }

  /** What read `k` of a replay of `answer` is to return, in full. */
  function Expected(answer: seq<Bytes>, log: seq<Fresh>, k: nat): Bytes
    requires answer != [] && k < |log|
  {
    if k < |answer| then answer[k]
    else if log[k].count == log[k - 1].count then []
    else answer[|answer| - 1]
  }

  /**
   * The fresh reads and their continuations return the parts of `answer` in order, of its last
   * packet (the terminator) again as long as the cache grows from read to read, and then nothing.
   */
  ghost predicate Delivers(answer: seq<Bytes>, log: seq<Fresh>)
    requires answer != []
  {
    forall k :: 0 <= k < |log| && StillOn(answer, log, k) ==> PartsOf(Expected(answer, log, k), log[k].pieces)
  }

  /** What the cache held at the read before read `k`, or before the first. */
  function Before(last: nat, log: seq<Fresh>, k: nat): nat
    requires k <= |log|
  {
    if k == 0 then last else log[k - 1].count
  }

  lemma {:induction false} FollowsAt(left: seq<Bytes>, cc: Bytes, last: nat, log: seq<Fresh>, k: nat)
    requires Follows(left, cc, last, log) && k < |log|
    requires forall j :: |left| <= j < k ==> log[j].count != Before(last, log, j)
    ensures PartsOf(if k < |left| then left[k] else if log[k].count == Before(last, log, k) then [] else cc,
                    log[k].pieces)
    decreases k
  {
    if k > 0 {
      var left', last', log' := if left != [] then left[1..] else [], log[0].count, log[1..];
      assert left == [] ==> log[0].count != Before(last, log, 0);
      forall j | |left'| <= j < k - 1 ensures log'[j].count != Before(last', log', j) {
        assert log'[j] == log[j + 1] && log[j + 1].count != Before(last, log, j + 1);
      }
      FollowsAt(left', cc, last', log', k - 1);
      assert log'[k - 1] == log[k] && Before(last', log', k - 1) == Before(last, log, k);
    }
  }

  lemma FollowsDelivers(answer: seq<Bytes>, last: nat, log: seq<Fresh>)
    requires answer != [] && Follows(answer, answer[|answer| - 1], last, log)
    ensures Delivers(answer, log)
  {
    forall k | 0 <= k < |log| && StillOn(answer, log, k)
      ensures PartsOf(Expected(answer, log, k), log[k].pieces)
    {
      FollowsAt(answer, answer[|answer| - 1], last, log, k);
    }
  }

  /** A part of a packet: the bytes from the offset on, as many as asked for and there are; past the end, an error. */
  lemma ChunkIsPart(packet: Bytes, offset: nat, len: nat)
    requires packet != []
    ensures var r := Chunk(packet, offset, len);
      && (r.None? <==> offset > |packet|)
      && (r.Some? ==> (|r.value| == len || (|r.value| < len && offset + |r.value| == |packet|))
                      && offset + |r.value| <= |packet|
                      && forall i :: 0 <= i < |r.value| ==> r.value[i] == packet[offset + i])
  {
  }

  // ---------------------------------------------------------------- whole packets

  function Got(p: Piece): Bytes { if p.result.Some? then p.result.value else [] }

  function Joined(pieces: seq<Piece>): Bytes {
    if pieces == [] then [] else Joined(pieces[..|pieces| - 1]) + Got(pieces[|pieces| - 1])
  }

  /**
   * A read carried through to the end, as section 3.4.4.5 of Part F of the Bluetooth Core
   * Specification has it: each read asks for what follows the bytes so far, until one comes back
   * shorter than it could be.
   */
  predicate LongRead(pieces: seq<Piece>) {
    && pieces != []
    && (forall k :: 0 <= k < |pieces| ==> pieces[k].offset == |Joined(pieces[..k])|)
    && |Got(pieces[|pieces| - 1])| < pieces[|pieces| - 1].len
  }

  /** Reading on from a prefix gives a longer prefix, and the whole if the answer is short. */
  lemma ReadingOn(packet: Bytes, acc: Bytes, p: Piece)
    requires acc <= packet && p.offset == |acc| && p.result == Chunk(packet, p.offset, p.len)
    ensures acc + Got(p) <= packet
    ensures |Got(p)| < p.len ==> acc + Got(p) == packet
  {
    if packet != [] {
      var end := Min(|acc| + p.len, |packet|);
      assert packet[..|acc|] + packet[|acc|..end] == packet[..end];
    }
  }

  lemma {:induction false} JoinedIsPrefix(packet: Bytes, pieces: seq<Piece>, n: nat)
    requires PartsOf(packet, pieces) && n <= |pieces|
    requires forall k :: 0 <= k < n ==> pieces[k].offset == |Joined(pieces[..k])|
    ensures Joined(pieces[..n]) <= packet
  {
    if n > 0 {
      JoinedIsPrefix(packet, pieces, n - 1);
      assert pieces[..n][..n - 1] == pieces[..n - 1] && pieces[n - 1] in pieces;
      ReadingOn(packet, Joined(pieces[..n - 1]), pieces[n - 1]);
    }
  }

  /** A read carried through to the end puts the whole packet together. */
  lemma LongReadIsWhole(packet: Bytes, pieces: seq<Piece>)
    requires PartsOf(packet, pieces) && LongRead(pieces)
    ensures Joined(pieces) == packet
  {
    var n := |pieces| - 1;
    JoinedIsPrefix(packet, pieces, n);
    assert pieces[n] in pieces;
    ReadingOn(packet, Joined(pieces[..n]), pieces[n]);
  }

  /** Packet by packet: every read carried through to the end brings the packet expected of it. */
  ghost predicate DeliversWhole(answer: seq<Bytes>, log: seq<Fresh>)
    requires answer != []
  {
    forall k :: 0 <= k < |log| && StillOn(answer, log, k) && LongRead(log[k].pieces) ==>
      Joined(log[k].pieces) == Expected(answer, log, k)
  }

  lemma DeliversInFull(answer: seq<Bytes>, log: seq<Fresh>)
    requires answer != [] && Delivers(answer, log)
    ensures DeliversWhole(answer, log)
  {
    forall k | 0 <= k < |log| && StillOn(answer, log, k) && LongRead(log[k].pieces)
      ensures Joined(log[k].pieces) == Expected(answer, log, k)
    {
      LongReadIsWhole(Expected(answer, log, k), log[k].pieces);
    }
  }

  /**
   * "The terminator is served once" is not quite true of the code: a phone that has been served
   * its terminator (cursor one past a cache of `fs`) is served it again exactly when the cache
   * has grown since; otherwise it reads empty and goes ACTIVE.
   */
  lemma TerminatorAgainIffGrown(fs: seq<Frame>, fs': seq<Frame>, s: Slot)
    requires s.state == Replaying && s.cursor == |fs| + 1 && GrownByTerminators(fs, fs')
    requires s.cc != []
    ensures var s' := Stage(fs', s);
      && (s'.staged == s.cc <==> |fs'| != |fs|)
      && (s'.state == Active && s'.staged == [] <==> |fs'| == |fs|)
  {
    assert fs'[..|fs|] == fs;
    if |fs'| > |fs| { NothingAfter(fs', s.nonce, |fs|, s.cursor); }
  }

  // ---------------------------------------------------------------- live packets

  /** Outside a replay a fresh read returns the oldest queued packet, and nothing exactly if none is queued. */
  lemma LiveReadIsOldest(fs: seq<Frame>, s: Slot, len: nat)
    requires s.state != Replaying && len >= 1 && forall p :: p in s.queue ==> p != []
    ensures ReadResult(fs, s, 0, len) == Chunk(if s.queue == [] then [] else s.queue[0], 0, len)
    ensures ReadResult(fs, s, 0, len) == Some([]) <==> s.queue == []
  {
    if s.queue != [] { assert s.queue[0] in s.queue; }
  }

  /** The fresh reads of a run outside replays, each with its continuation. */
  function LiveServed(codec: Codec, s: Slot, es: seq<SlotStamp>): seq<Fresh>
    decreases |es|
  {
    if es == [] then []
    else
      var fs, e, s' := es[0].fs, es[0].event, SlotStep(codec, es[0].fs, s, es[0].event);
      if IsFresh(e) && s.state != Replaying then
        [Fresh(|fs|, [Piece(0, e.len, ReadResult(fs, s, 0, e.len))] + Continuation(codec, s', es[1..]))]
        + LiveServed(codec, s', es[1..])
      else LiveServed(codec, s', es[1..])
  }

  /** The fresh read returned something. */
  predicate Brings(f: Fresh) { f.pieces != [] && Got(f.pieces[0]) != [] }

  /**
   * The reads `log` that return anything return the parts of `all`, packet by packet in order, and
   * `left` is what they leave of it.
   */
  ghost predicate InOrder(all: seq<Bytes>, log: seq<Fresh>, left: seq<Bytes>)
    decreases |log|
  {
    if log == [] then left == all
    else if Brings(log[0]) then all != [] && PartsOf(all[0], log[0].pieces) && InOrder(all[1..], log[1..], left)
    else PartsOf([], log[0].pieces) && InOrder(all, log[1..], left)
  }

  predicate Plausible(es: seq<SlotStamp>) {
    forall x :: x in es ==> (IsFresh(x.event) ==> x.event.len >= 1) && (x.event.Offer? ==> x.event.raw != [])
  }

  lemma InOrderNext(all: seq<Bytes>, f: Fresh, log: seq<Fresh>, left: seq<Bytes>, all': seq<Bytes>)
    requires InOrder(all', log, left)
    requires if Brings(f) then all != [] && PartsOf(all[0], f.pieces) && all' == all[1..]
             else PartsOf([], f.pieces) && all' == all
    ensures InOrder(all, [f] + log, left)
  {
    assert ([f] + log)[1..] == log;
  }

  /** A fresh read with its continuation is of the packet it stages, and brings something if that is not empty. */
  lemma LiveReadParts(codec: Codec, s: Slot, es: seq<SlotStamp>)
    requires es != [] && IsFresh(es[0].event) && s.state != Replaying && es[0].event.len >= 1
    requires forall p :: p in s.queue ==> p != []
    ensures var f, packet := LiveServed(codec, s, es)[0], if s.queue == [] then [] else s.queue[0];
      PartsOf(packet, f.pieces) && (Brings(f) <==> s.queue != [])
  {
    var s', f := SlotStep(codec, es[0].fs, s, es[0].event), LiveServed(codec, s, es)[0];
    LiveReadIsOldest(es[0].fs, s, es[0].event.len);
    ContinuationOfStaged(codec, s', es[1..]);
    assert PartsOf(s'.staged, f.pieces);
  }

  lemma NothingEmptyQueued(codec: Codec, fs: seq<Frame>, s: Slot, e: SlotEvent)
    requires (forall p :: p in s.queue ==> p != []) && (e.Offer? ==> e.raw != [])
    ensures forall p :: p in SlotStep(codec, fs, s, e).queue ==> p != []
  {
    if s.queue != [] { assert forall p :: p in s.queue[1..] ==> p in s.queue; }
  }

  /**
   * Live packets are read in the order they were accepted, each once and whole: over any run of a
   * slot, what its fresh reads outside replays return, in one part or in several, is what was
   * queued and what was accepted, in order, up to what is still queued.
   */
  lemma {:induction false} LiveReadsInOrder(codec: Codec, s: Slot, es: seq<SlotStamp>)
    requires Plausible(es) && forall p :: p in s.queue ==> p != []
    ensures InOrder(s.queue + Enqueued(codec, s, es), LiveServed(codec, s, es), SlotRun(codec, s, es).queue)
    decreases |es|
  {
    if es == [] {
      assert s.queue + [] == s.queue;
    } else {
      var e, rest, s1 := es[0].event, es[1..], SlotStep(codec, es[0].fs, s, es[0].event);
      var enq := Enqueued(codec, s1, rest);
      assert es[0] in es && forall x :: x in rest ==> x in es;
      NothingEmptyQueued(codec, es[0].fs, s, e);
      LiveReadsInOrder(codec, s1, rest);
      if IsFresh(e) && s.state != Replaying {
        LiveReadParts(codec, s, es);
        var f := LiveServed(codec, s, es)[0];
        if s.queue != [] { assert (s.queue + enq)[1..] == s.queue[1..] + enq; }
        InOrderNext(s.queue + enq, f, LiveServed(codec, s1, rest), SlotRun(codec, s1, rest).queue, s1.queue + enq);
      } else if e.Offer? && Takes(s, e.raw) {
        assert s.queue + ([e.raw] + enq) == (s.queue + [e.raw]) + enq;
      }
    }
  }

  /** The packets that the reads of a log put together. */
  function Packets(log: seq<Fresh>): seq<Bytes>
    decreases |log|
  {
    if log == [] then []
    else if Brings(log[0]) then [Joined(log[0].pieces)] + Packets(log[1..])
    else Packets(log[1..])
  }

  lemma OneMorePacket(all: seq<Bytes>, p: Bytes, rest: seq<Bytes>, left: seq<Bytes>)
    requires all != [] && p == all[0] && rest + left == all[1..]
    ensures [p] + rest + left == all
  {
    assert [p] + rest + left == [p] + (rest + left);
  }

  predicate AllThrough(log: seq<Fresh>) { forall f :: f in log && Brings(f) ==> LongRead(f.pieces) }

  /** Read through to the end, they are the accepted packets, whole: read ones and queued ones make up all. */
  lemma {:induction false} InOrderInFull(all: seq<Bytes>, log: seq<Fresh>, left: seq<Bytes>)
    requires InOrder(all, log, left) && AllThrough(log)
    ensures Packets(log) + left == all
    decreases |log|
  {
    if log == [] {
      assert [] + left == left;
    } else {
      var rest := log[1..];
      assert log[0] in log && AllThrough(rest);
      if Brings(log[0]) {
        LongReadIsWhole(all[0], log[0].pieces);
        InOrderInFull(all[1..], rest, left);
        OneMorePacket(all, Joined(log[0].pieces), Packets(rest), left);
      } else {
        InOrderInFull(all, rest, left);
      }
    }
  }

  // ---------------------------------------------------------------- queue accounting

  /** What a slot accepted, what it handed out, and how often a replay was armed. */
  datatype Ledger = Ledger(accepted: seq<Bytes>, taken: seq<Bytes>, arms: nat)

  function Book(codec: Codec, fs: seq<Frame>, s: Slot, e: SlotEvent, l: Ledger): Ledger {
    match e
    case Offer(raw) => if Takes(s, raw) then l.(accepted := l.accepted + [raw]) else l
    case Read(offset, _) =>
      if offset == 0 && s.state != Replaying && s.queue != []
      then l.(taken := l.taken + [SlotStep(codec, fs, s, e).staged]) else l
    case Arm(nonce) =>
      if Scratch(codec.configComplete(ArmNonce(s, nonce))).Some? then l.(arms := l.arms + 1) else l
    case _ => l
  }

  function Books(codec: Codec, s: Slot, es: seq<SlotStamp>, l: Ledger): Ledger
    decreases |es|
  {
    if es == [] then l
    else Books(codec, SlotStep(codec, es[0].fs, s, es[0].event), es[1..], Book(codec, es[0].fs, s, es[0].event, l))
  }

  ghost predicate Balanced(s: Slot, l: Ledger) {
    && l.taken + s.queue == l.accepted
    && s.fromnum == (|l.accepted| + l.arms) % U32_SIZE
    && |s.queue| <= QUEUE_DEPTH
    && forall p :: p in l.accepted ==> |p| <= MAX_PKT
  }

  lemma IncrementWraps(n: nat)
    ensures Inc32(n % U32_SIZE) == (n + 1) % U32_SIZE
  {
  }

  /**
   * Per-phone queue: over a slot's lifetime the packets read out, followed by those still queued,
   * are the accepted packets in order, and FROMNUM counts accepted packets plus armed replays
   * modulo 2^32.
   */
  lemma {:induction false} QueueConserved(codec: Codec, s: Slot, es: seq<SlotStamp>, l: Ledger)
    requires Balanced(s, l)
    ensures Balanced(SlotRun(codec, s, es), Books(codec, s, es, l))
    decreases |es|
  {
    if es != [] {
      var e, s' := es[0].event, SlotStep(codec, es[0].fs, s, es[0].event);
      var l' := Book(codec, es[0].fs, s, e, l);
      IncrementWraps(|l.accepted| + l.arms);
      if e.Offer? && Takes(s, e.raw) {
        assert l.taken + (s.queue + [e.raw]) == l.accepted + [e.raw];
      } else if e.Read? && e.offset == 0 && s.state != Replaying && s.queue != [] {
        assert l.taken + [s.queue[0]] + s.queue[1..] == l.taken + s.queue;
      }
      QueueConserved(codec, s', es[1..], l');
    }
  }

  lemma FreshSlotIsBalanced(s: Slot, c: Conn)
    ensures Balanced(Allocated(s, c), Ledger([], [], 0))
  {
  }

  /** Once a phone has said it is leaving, its queue can only shrink from the front. */
  lemma {:induction false} LeavingQueueNeverGrows(codec: Codec, s: Slot, es: seq<SlotStamp>)
    requires s.leaving
    ensures var s' := SlotRun(codec, s, es);
      s'.leaving && |s'.queue| <= |s.queue| && s'.queue == s.queue[|s.queue| - |s'.queue|..]
    decreases |es|
  {
    if es != [] { LeavingQueueNeverGrows(codec, SlotStep(codec, es[0].fs, s, es[0].event), es[1..]); }
  }

  // ---------------------------------------------------------------- long reads

  /** A client continuing a long read, interleaved with anything else that is not a fresh read. */
  datatype LongReadStep = Next(len: nat) | Meanwhile(stamp: SlotStamp)

  predicate Continuing(steps: seq<LongReadStep>) {
    forall x :: x in steps && x.Meanwhile? && x.stamp.event.Read? ==> x.stamp.event.offset != 0
  }

  /** The bytes the client has put together; each read asks for what follows them. */
  function Reassembled(codec: Codec, s: Slot, steps: seq<LongReadStep>, acc: Bytes): Bytes
    decreases |steps|
  {
    if steps == [] then acc
    else match steps[0]
      case Meanwhile(st) => Reassembled(codec, SlotStep(codec, st.fs, s, st.event), steps[1..], acc)
      case Next(len) =>
        var r := Chunk(s.staged, |acc|, len);
        Reassembled(codec, s, steps[1..], if r.Some? then acc + r.value else acc)
  }

  function Requested(steps: seq<LongReadStep>): nat
    decreases |steps|
  {
    if steps == [] then 0 else (if steps[0].Next? then steps[0].len else 0) + Requested(steps[1..])
  }

  /** Chunked reads reassemble the staged packet, whatever is queued or armed between the chunks. */
  lemma {:induction false} LongReadReassembles(codec: Codec, s: Slot, steps: seq<LongReadStep>, acc: Bytes)
    requires Continuing(steps) && |acc| <= |s.staged| && acc == s.staged[..|acc|]
    ensures Reassembled(codec, s, steps, acc) == s.staged[..Min(|s.staged|, |acc| + Requested(steps))]
    decreases |steps|
  {
    if steps != [] {
      assert steps[0] in steps;
      match steps[0] {
        case Meanwhile(st) =>
          LongReadReassembles(codec, SlotStep(codec, st.fs, s, st.event), steps[1..], acc);
        case Next(len) =>
          var r := Chunk(s.staged, |acc|, len);
          if s.staged != [] {
            assert acc + r.value == s.staged[..Min(|acc| + len, |s.staged|)];
            LongReadReassembles(codec, s, steps[1..], acc + r.value);
          } else {
            assert acc + r.value == acc;
            LongReadReassembles(codec, s, steps[1..], acc);
          }
      }
    }
  }
}
