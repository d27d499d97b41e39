/** src/config_cache.c as it is laid out in memory: one packed byte arena and an index into it. */
module CacheStore {
  import opened Prelude
  import opened Wire
  import opened ConfigCache

  datatype FrameRef = FrameRef(offset: nat, len: nat, variant: int)

  /** Where the frame after entry `i - 1` starts. */
  function EndOf(refs: seq<FrameRef>, i: nat): nat
    requires i <= |refs|
  {
    if i == 0 then 0 else refs[i - 1].offset + refs[i - 1].len
  }

  /** The entries follow each other without gaps or overlap, and each denotes its frame. */
  ghost predicate Stores(arena: Bytes, refs: seq<FrameRef>, fs: seq<Frame>) {
    && |refs| == |fs|
    && (forall i {:trigger EndOf(refs, i)} :: 0 <= i < |refs| ==> refs[i].offset == EndOf(refs, i))
    && (forall i :: 0 <= i < |refs| ==> Denotes(arena, refs[i], fs[i]))
  }

  predicate Denotes(arena: Bytes, r: FrameRef, f: Frame) {
    && r.offset + r.len <= |arena|
    && f == Frame(arena[r.offset..r.offset + r.len], r.variant)
  }

  function Flat(fs: seq<Frame>): Bytes {
    if fs == [] then [] else Flat(fs[..|fs| - 1]) + fs[|fs| - 1].bytes
  }

  lemma StoresPrefix(arena: Bytes, refs: seq<FrameRef>, fs: seq<Frame>)
    requires Stores(arena, refs, fs) && fs != []
    ensures Stores(arena, refs[..|refs| - 1], fs[..|fs| - 1])
  {
    var n := |refs| - 1;
    forall i | 0 <= i < n
      ensures refs[..n][i].offset == EndOf(refs[..n], i) && Denotes(arena, refs[..n][i], fs[..n][i])
    {
      assert refs[i].offset == EndOf(refs, i) && Denotes(arena, refs[i], fs[i]);
    }
  }

  /** No padding: the used part of the arena is the stored frames, back to back. */
  lemma {:induction false} ArenaIsConcatenation(arena: Bytes, refs: seq<FrameRef>, fs: seq<Frame>)
    requires Stores(arena, refs, fs)
    ensures EndOf(refs, |refs|) == TotalBytes(fs) <= |arena|
    ensures Flat(fs) == arena[..TotalBytes(fs)]
  {
    if fs != [] {
      var n := |fs| - 1;
      StoresPrefix(arena, refs, fs);
      ArenaIsConcatenation(arena, refs[..n], fs[..n]);
      LastEntry(arena, refs, fs);
      assert arena[..refs[n].offset] + fs[n].bytes == arena[..refs[n].offset + refs[n].len];
    }
  }

  lemma LastEntry(arena: Bytes, refs: seq<FrameRef>, fs: seq<Frame>)
    requires Stores(arena, refs, fs) && fs != []
    ensures var n := |refs| - 1;
      && refs[n].offset == EndOf(refs[..n], n) && Denotes(arena, refs[n], fs[n])
      && EndOf(refs, n + 1) == refs[n].offset + refs[n].len
  {
    var n := |refs| - 1;
    assert refs[n].offset == EndOf(refs, n) == EndOf(refs[..n], n);
  }

  lemma {:induction false} EntryBelow(arena: Bytes, refs: seq<FrameRef>, fs: seq<Frame>, i: nat)
    requires Stores(arena, refs, fs) && i < |refs|
    ensures refs[i].offset + refs[i].len <= EndOf(refs, |refs|)
    decreases |refs| - i
  {
    if i + 1 < |refs| {
      assert refs[i + 1].offset == EndOf(refs, i + 1);
      EntryBelow(arena, refs, fs, i + 1);
    }
  }

  /** The same entries denote the same frames in any arena that agrees on the used part. */
  lemma StoresElsewhere(a: Bytes, b: Bytes, refs: seq<FrameRef>, fs: seq<Frame>)
    requires Stores(a, refs, fs)
    requires var used := EndOf(refs, |refs|); used <= |a| && used <= |b| && a[..used] == b[..used]
    ensures Stores(b, refs, fs)
  {
    var used := EndOf(refs, |refs|);
    forall i | 0 <= i < |refs| ensures Denotes(b, refs[i], fs[i]) {
      EntryBelow(a, refs, fs, i);
      var r := refs[i];
      assert Denotes(a, r, fs[i]);
      assert a[r.offset..r.offset + r.len] == a[..used][r.offset..r.offset + r.len] == b[r.offset..r.offset + r.len];
    }
  }

  lemma StoresSnoc(arena: Bytes, refs: seq<FrameRef>, fs: seq<Frame>, r: FrameRef, f: Frame)
    requires Stores(arena, refs, fs) && r.offset == EndOf(refs, |refs|) && Denotes(arena, r, f)
    ensures Stores(arena, refs + [r], fs + [f])
  {
    var rs, gs := refs + [r], fs + [f];
    forall i | 0 <= i < |rs| ensures rs[i].offset == EndOf(rs, i) && Denotes(arena, rs[i], gs[i]) {
      assert EndOf(rs, i) == EndOf(refs, i);
      assert i < |refs| ==> refs[i].offset == EndOf(refs, i) && Denotes(arena, refs[i], fs[i]);
    }
  }

  /** Copying a frame behind the used part and indexing it appends it to the stored frames. */
  lemma AppendStores(a: Bytes, b: Bytes, refs: seq<FrameRef>, fs: seq<Frame>, raw: Bytes, variant: int)
    requires Stores(a, refs, fs) && TotalBytes(fs) + |raw| <= |a| == |b|
    requires a[..TotalBytes(fs)] == b[..TotalBytes(fs)]
    requires b[TotalBytes(fs)..TotalBytes(fs) + |raw|] == raw
    ensures Stores(b, refs + [FrameRef(TotalBytes(fs), |raw|, variant)], fs + [Frame(raw, variant)])
  {
    ArenaIsConcatenation(a, refs, fs);
    StoresElsewhere(a, b, refs, fs);
    StoresSnoc(b, refs, fs, FrameRef(TotalBytes(fs), |raw|, variant), Frame(raw, variant));
  }

  /** `-1` or the index of the first node_info. */
  ghost predicate OwnIs(fs: seq<Frame>, idx: int) {
    && -1 <= idx < |fs|
    && (idx >= 0 ==> fs[idx].variant == NODE_INFO)
    && forall j :: 0 <= j < |fs| && (idx < 0 || j < idx) ==> fs[j].variant != NODE_INFO
  }

  lemma OwnIsFirst(fs: seq<Frame>, idx: int)
    requires OwnIs(fs, idx)
    ensures OwnNodeInfo(fs) == if idx < 0 then |fs| else idx
  {
    FirstUnique(fs, (g: Frame) => g.variant == NODE_INFO, if idx < 0 then |fs| else idx);
  }

  /** `-1` or the index of the last queueStatus frame. */
  ghost predicate QueueStatusIs(fs: seq<Frame>, idx: int) {
    && -1 <= idx < |fs|
    && (idx >= 0 ==> fs[idx].variant == QUEUE_STATUS)
    && forall j :: idx < j < |fs| ==> fs[j].variant != QUEUE_STATUS
  }

  ghost predicate LastQueueStatus(fs: seq<Frame>, b: Bytes) {
    exists i :: 0 <= i < |fs| && fs[i] == Frame(b, QUEUE_STATUS) && QueueStatusIs(fs, i)
  }

  /** The two remembered indices after an append. */
  lemma IndicesAfterAppend(fs: seq<Frame>, f: Frame, own: int, qs: int)
    requires OwnIs(fs, own) && QueueStatusIs(fs, qs)
    ensures OwnIs(fs + [f], if f.variant == NODE_INFO && own < 0 then |fs| else own)
    ensures QueueStatusIs(fs + [f], if f.variant == QUEUE_STATUS then |fs| else qs)
  {
  }

  class ConfigStore {
    const arena: array<byte>
    const index: array<FrameRef>
    var used: nat
    var count: nat
    var ready: bool
    var queueStatusIdx: int
    var ownIdx: int

    ghost var frames: seq<Frame>   // the stored frames

    /** Arena and index denote `frames`. */
    ghost predicate Laid()
      reads `used, `count, `frames, arena, index
    {
      && arena.Length == ARENA_BYTES && index.Length == MAX_FRAMES
      && count == |frames| <= MAX_FRAMES && used == TotalBytes(frames) <= ARENA_BYTES
      && Stores(arena[..], index[..count], frames)
    }

    ghost predicate Valid()
      reads this, arena, index
    {
      && Laid()
      && OwnIs(frames, ownIdx)
      && QueueStatusIs(frames, queueStatusIdx)
    }

    ghost function View(): Cache
      reads `frames, `ready
    {
      Cache(frames, ready)
    }

    constructor ()
      ensures Valid() && fresh(arena) && fresh(index)
      ensures View() == Cache([], false)
    {
      arena := new byte[ARENA_BYTES];
      index := new FrameRef[MAX_FRAMES](_ => FrameRef(0, 0, 0));
      used, count, ready, queueStatusIdx, ownIdx := 0, 0, false, -1, -1;
      frames := [];
    }

    method Begin()
      requires Valid()
      modifies this
      ensures Valid() && View() == Cache([], false)
    {
      ready := false;
      used := 0;
      count := 0;
      queueStatusIdx := -1;
      ownIdx := -1;
      frames := [];
    }

    /** Copies a frame that fits behind the used part of the arena and indexes it. */
    method Store(raw: Bytes, variant: int)
      requires Laid() && count < MAX_FRAMES && used + |raw| <= ARENA_BYTES
      modifies this`used, this`count, this`frames, arena, index
      ensures Laid() && frames == old(frames) + [Frame(raw, variant)]
    {
      ghost var before, refs := arena[..], index[..count];
      CopyInto(arena, used, raw);
      index[count] := FrameRef(used, |raw|, variant);
      assert index[..count + 1] == refs + [FrameRef(used, |raw|, variant)];
      assert before[..used] == arena[..][..used] && arena[..][used..used + |raw|] == raw;
      AppendStores(before, arena[..], refs, frames, raw, variant);
      assert (frames + [Frame(raw, variant)])[..count] == frames;
      used := used + |raw|;
      count := count + 1;
      frames := frames + [Frame(raw, variant)];
    }

    /** Stores a frame that fits and keeps the remembered indices up to date. */
    method Append(raw: Bytes, variant: int)
      requires Valid() && count < MAX_FRAMES && used + |raw| <= ARENA_BYTES
      modifies this`used, this`count, this`frames, this`queueStatusIdx, this`ownIdx, arena, index
      ensures Valid() && frames == old(frames) + [Frame(raw, variant)]
    {
      IndicesAfterAppend(frames, Frame(raw, variant), ownIdx, queueStatusIdx);
      queueStatusIdx := if variant == QUEUE_STATUS then count else queueStatusIdx;
      ownIdx := if variant == NODE_INFO && ownIdx < 0 then count else ownIdx;
      Store(raw, variant);
    }

    /** Appends a frame, or rejects it when either budget is exhausted. */
    method AddFrame(raw: Bytes, variant: int) returns (ok: bool)
      requires Valid()
      modifies this`used, this`count, this`frames, this`queueStatusIdx, this`ownIdx, arena, index
      ensures Valid()
      ensures frames == Add(old(frames), Frame(raw, variant))
      ensures ok <==> Room(old(frames), Frame(raw, variant))
      ensures ok ==> frames == old(frames) + [Frame(raw, variant)]
      ensures !ok ==> frames == old(frames) && arena[..] == old(arena[..]) && index[..] == old(index[..])
      ensures !ok ==> used == old(used) && count == old(count)
    {
      ok := count < MAX_FRAMES && used + |raw| <= ARENA_BYTES;
      if ok {
        Append(raw, variant);
      }
    }

    method MarkReady()
      requires Valid()
      modifies this`ready
      ensures Valid() && View() == old(View()).(ready := true)
    {
      ready := true;
    }

    method FrameAt(idx: nat) returns (r: Option<FrameRef>)
      requires Valid()
      ensures r.Some? <==> idx < |frames|
      ensures r.Some? ==> r.value == index[idx] && r.value.variant == frames[idx].variant
    {
      if idx >= count {
        return None;
      }
      assert Denotes(arena[..], index[..count][idx], frames[idx]);
      return Some(index[idx]);
    }

    /** The bytes of a stored frame, straight from the arena. */
    method FrameBytes(ghost idx: nat, r: FrameRef) returns (b: Bytes)
      requires Valid() && idx < count && r == index[idx]
      ensures idx < |frames| && b == frames[idx].bytes
    {
      assert Denotes(arena[..], index[..count][idx], frames[idx]);
      return arena[r.offset..r.offset + r.len];
    }

    method FrameCount() returns (n: nat)
      requires Valid()
      ensures n == |frames|
    {
      return count;
    }

    method FrameInSegment(idx: nat, nonce: u32) returns (b: bool)
      requires Valid()
      ensures b == InSegment(frames, idx, nonce)
    {
      if idx >= count {
        return false;
      }
      assert Denotes(arena[..], index[..count][idx], frames[idx]);
      var variant := index[idx].variant;
      if variant == CONFIG_COMPLETE {
        return false;
      }
      var isNodeInfo := variant == NODE_INFO;
      if nonce == ONLY_NODES {
        return isNodeInfo;
      }
      if nonce == ONLY_CONFIG {
        OwnIsFirst(frames, ownIdx);
        if isNodeInfo && idx != ownIdx {
          return false;
        }
        return true;
      }
      return true;
    }

    /** The last queueStatus frame of the burst, if it had one. */
    method GetQueueStatus() returns (b: Option<Bytes>)
      requires Valid()
      ensures b.None? <==> forall f :: f in frames ==> f.variant != QUEUE_STATUS
      ensures b.Some? ==> LastQueueStatus(frames, b.value)
    {
      if queueStatusIdx < 0 {
        return None;
      }
      assert Denotes(arena[..], index[..count][queueStatusIdx], frames[queueStatusIdx]);
      assert frames[queueStatusIdx] in frames;
      var r := index[queueStatusIdx];
      return Some(arena[r.offset..r.offset + r.len]);
    }
  }
}
