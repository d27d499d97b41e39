/**
 * The config cache (src/config_cache.c) as a sequence of frames: which frames are kept, and
 * which of them a phone asking with a given nonce is served.
 */
module ConfigCache {
  import opened Prelude
  import opened Wire

  const ARENA_BYTES := 4096
  const MAX_FRAMES := 128
  const ONLY_CONFIG: u32 := 69420
  const ONLY_NODES: u32 := 69421

  datatype Frame = Frame(bytes: Bytes, variant: int)
  datatype Cache = Cache(frames: seq<Frame>, ready: bool)

  function TotalBytes(fs: seq<Frame>): nat {
    if fs == [] then 0 else TotalBytes(fs[..|fs| - 1]) + |fs[|fs| - 1].bytes|
  }

  /** One frame offered to a cache holding `fs`: kept if both budgets allow, else dropped. */
  function Add(fs: seq<Frame>, f: Frame): seq<Frame> {
    if |fs| < MAX_FRAMES && TotalBytes(fs) + |f.bytes| <= ARENA_BYTES then fs + [f] else fs
  }

  /** The greedy in-order selection out of everything offered since the last reset. */
  function Greedy(offered: seq<Frame>): seq<Frame> {
    if offered == [] then [] else Add(Greedy(offered[..|offered| - 1]), offered[|offered| - 1])
  }

  /** Index of the first node_info frame: the node's own. */
  function OwnNodeInfo(fs: seq<Frame>): nat { First(fs, (f: Frame) => f.variant == NODE_INFO) }

  /** Whether frame `i` belongs to the replay for `nonce`. */
  predicate InSegment(fs: seq<Frame>, i: nat, nonce: u32) {
    && i < |fs|
    && fs[i].variant != CONFIG_COMPLETE
    && (nonce == ONLY_NODES ==> fs[i].variant == NODE_INFO)
    && (nonce == ONLY_CONFIG && fs[i].variant == NODE_INFO ==> i == OwnNodeInfo(fs))
  }

  /** The frames of the segment at or after index `i`, in order. */
  function SegmentFrom(fs: seq<Frame>, nonce: u32, i: nat): seq<Bytes>
    decreases |fs| - i
  {
    if i >= |fs| then []
    else if InSegment(fs, i, nonce) then [fs[i].bytes] + SegmentFrom(fs, nonce, i + 1)
    else SegmentFrom(fs, nonce, i + 1)
  }

  function Segment(fs: seq<Frame>, nonce: u32): seq<Bytes> { SegmentFrom(fs, nonce, 0) }

  // ---------------------------------------------------------------- greedy selection

  /** Offering one more frame adds it to the selection or leaves the selection as it is. */
  lemma GreedyNext(offered: seq<Frame>, f: Frame)
    ensures Greedy(offered + [f]) == Add(Greedy(offered), f)
  {
    assert (offered + [f])[..|offered|] == offered;
  }

  /** A selection always respects both budgets. */
  lemma {:induction false} GreedyFits(offered: seq<Frame>)
    ensures |Greedy(offered)| <= MAX_FRAMES && TotalBytes(Greedy(offered)) <= ARENA_BYTES
  {
    if offered != [] {
      var fs, f := Greedy(offered[..|offered| - 1]), offered[|offered| - 1];
      GreedyFits(offered[..|offered| - 1]);
      assert (fs + [f])[..|fs + [f]| - 1] == fs;
    }
  }

  /** Frames already kept are never altered by later offers. */
  lemma {:induction false} GreedyExtends(a: seq<Frame>, b: seq<Frame>)
    ensures Greedy(a) <= Greedy(a + b)
  {
    if b == [] {
      assert a + b == a;
    } else {
      var b' := b[..|b| - 1];
      GreedyExtends(a, b');
      assert (a + b)[..|a + b| - 1] == a + b';
    }
  }

  lemma {:induction false} TotalOfPrefix(fs: seq<Frame>, n: nat)
    requires n <= |fs|
    ensures TotalBytes(fs[..n]) <= TotalBytes(fs)
  {
    if n < |fs| {
      assert fs[..|fs| - 1][..n] == fs[..n];
      TotalOfPrefix(fs[..|fs| - 1], n);
    } else {
      assert fs[..n] == fs;
    }
  }

  /** Nothing is dropped exactly when everything offered fits. */
  lemma {:induction false} GreedyKeepsAllIff(offered: seq<Frame>)
    ensures Greedy(offered) == offered
       <==> |offered| <= MAX_FRAMES && TotalBytes(offered) <= ARENA_BYTES
  {
    if offered != [] {
      var a := offered[..|offered| - 1];
      GreedyKeepsAllIff(a);
      TotalOfPrefix(offered, |offered| - 1);
      assert offered == a + [offered[|offered| - 1]];
      GreedyLength(a);
    }
  }

  lemma {:induction false} GreedyLength(offered: seq<Frame>)
    ensures |Greedy(offered)| <= |offered|
  {
    if offered != [] { GreedyLength(offered[..|offered| - 1]); }
  }

  /** Both budgets allow one more frame: 128 entries, 4096 bytes. */
  predicate Room(kept: seq<Frame>, f: Frame) { |kept| < 128 && TotalBytes(kept) + |f.bytes| <= 4096 }

  /** The places of the kept frames among the offered ones. */
  function Kept(offered: seq<Frame>): seq<nat> {
    if offered == [] then []
    else
      var n := |offered| - 1;
      Kept(offered[..n]) + (if Room(Greedy(offered[..n]), offered[n]) then [n] else [])
  }

  predicate Increasing(idx: seq<nat>, n: nat) {
    (forall i :: 0 <= i < |idx| ==> idx[i] < n) && forall i, j :: 0 <= i < j < |idx| ==> idx[i] < idx[j]
  }

  lemma {:induction false} KeptIncreases(offered: seq<Frame>)
    ensures Increasing(Kept(offered), |offered|)
  {
    if offered != [] { KeptIncreases(offered[..|offered| - 1]); }
  }

  lemma {:induction false} KeptFramesAreOffered(offered: seq<Frame>)
    ensures |Greedy(offered)| == |Kept(offered)|
    ensures forall i :: 0 <= i < |Kept(offered)| ==>
              Kept(offered)[i] < |offered| && Greedy(offered)[i] == offered[Kept(offered)[i]]
  {
    if offered != [] { KeptFramesAreOffered(offered[..|offered| - 1]); }
  }

  lemma {:induction false} KeptIffRoom(offered: seq<Frame>, j: nat)
    requires j < |offered|
    ensures j in Kept(offered) <==> Room(Greedy(offered[..j]), offered[j])
  {
    var n := |offered| - 1;
    KeptIncreases(offered[..n]);
    if j < n {
      KeptIffRoom(offered[..n], j);
      assert offered[..n][..j] == offered[..j];
    }
  }

  /**
   * What the cache keeps: whole frames among the offered ones, each at most once and in their
   * order, namely exactly those that both budgets had room for when they were offered.
   */
  lemma GreedyKeepsOffered(offered: seq<Frame>)
    ensures Increasing(Kept(offered), |offered|) && |Greedy(offered)| == |Kept(offered)|
    ensures forall i :: 0 <= i < |Kept(offered)| ==> Greedy(offered)[i] == offered[Kept(offered)[i]]
    ensures forall j :: 0 <= j < |offered| ==> (j in Kept(offered) <==> Room(Greedy(offered[..j]), offered[j]))
  {
    KeptIncreases(offered);
    KeptFramesAreOffered(offered);
    forall j | 0 <= j < |offered| ensures j in Kept(offered) <==> Room(Greedy(offered[..j]), offered[j]) {
      KeptIffRoom(offered, j);
    }
  }

  /** In particular, nothing is kept that was not offered. */
  lemma OnlyOfferedIsKept(offered: seq<Frame>)
    ensures forall f :: f in Greedy(offered) ==> f in offered
  {
    GreedyKeepsOffered(offered);
    forall f | f in Greedy(offered) ensures f in offered {
      var i :| 0 <= i < |Greedy(offered)| && Greedy(offered)[i] == f;
      assert offered[Kept(offered)[i]] == f;
    }
  }

  // ---------------------------------------------------------------- what a segment is

  /** The node_info frames. */
  function NodeInfos(fs: seq<Frame>): seq<Bytes> {
    if fs == [] then []
    else (if fs[0].variant == NODE_INFO then [fs[0].bytes] else []) + NodeInfos(fs[1..])
  }

  /** Everything but terminators. */
  function Content(fs: seq<Frame>): seq<Bytes> {
    if fs == [] then []
    else (if fs[0].variant != CONFIG_COMPLETE then [fs[0].bytes] else []) + Content(fs[1..])
  }

  /** Everything but terminators and, after the first, node_infos. */
  function ConfigAndOwnNode(fs: seq<Frame>, seen: bool): seq<Bytes> {
    if fs == [] then []
    else
      var info := fs[0].variant == NODE_INFO;
      (if fs[0].variant == CONFIG_COMPLETE || (info && seen) then [] else [fs[0].bytes])
      + ConfigAndOwnNode(fs[1..], seen || info)
  }

  /** What a phone asking with `nonce` is to be served of the frames `fs`. */
  function BurstFor(fs: seq<Frame>, nonce: u32): seq<Bytes> {
    if nonce == 69421 then NodeInfos(fs)
    else if nonce == 69420 then ConfigAndOwnNode(fs, false)
    else Content(fs)
  }

  lemma {:induction false} NodesSegment(fs: seq<Frame>, i: nat)
    requires i <= |fs|
    ensures SegmentFrom(fs, 69421, i) == NodeInfos(fs[i..])
    decreases |fs| - i
  {
    if i < |fs| {
      NodesSegment(fs, i + 1);
      assert fs[i..][1..] == fs[i + 1..];
    }
  }

  lemma {:induction false} FullSegment(fs: seq<Frame>, nonce: u32, i: nat)
    requires i <= |fs| && nonce != 69420 && nonce != 69421
    ensures SegmentFrom(fs, nonce, i) == Content(fs[i..])
    decreases |fs| - i
  {
    if i < |fs| {
      FullSegment(fs, nonce, i + 1);
      assert fs[i..][1..] == fs[i + 1..];
    }
  }

  lemma {:induction false} ConfigSegment(fs: seq<Frame>, i: nat)
    requires i <= |fs|
    ensures SegmentFrom(fs, 69420, i) == ConfigAndOwnNode(fs[i..], OwnNodeInfo(fs) < i)
    decreases |fs| - i
  {
    if i < |fs| {
      ConfigSegment(fs, i + 1);
      assert fs[i..][1..] == fs[i + 1..];
      assert fs[i].variant == NODE_INFO ==> OwnNodeInfo(fs) <= i;
    }
  }

  /**
   * Segments: asking with 69421 brings exactly the node_infos, with 69420 everything but the
   * terminators and the node_infos after the first, with any other nonce everything but the
   * terminators, always whole and in order.
   */
  lemma SegmentIsBurstFor(fs: seq<Frame>, nonce: u32)
    ensures Segment(fs, nonce) == BurstFor(fs, nonce)
  {
    assert fs[0..] == fs;
    if nonce == 69421 {
      NodesSegment(fs, 0);
    } else if nonce == 69420 {
      ConfigSegment(fs, 0);
    } else {
      FullSegment(fs, nonce, 0);
    }
  }

  // ---------------------------------------------------------------- segments

  /** Appending cannot move the own node_info, once there is one or if the newcomer is none. */
  lemma OwnNodeInfoStable(fs: seq<Frame>, f: Frame)
    requires f.variant != NODE_INFO
    ensures forall i :: 0 <= i < |fs| && fs[i].variant == NODE_INFO ==>
              (i == OwnNodeInfo(fs + [f]) <==> i == OwnNodeInfo(fs))
  {
    var own := OwnNodeInfo(fs);
    if own < |fs| {
      FirstUnique(fs + [f], (g: Frame) => g.variant == NODE_INFO, own);
    }
  }

  /** A stray terminator appended to the cache changes no phone's segment, from any cursor on. */
  lemma {:induction false} TerminatorOutsideSegments(fs: seq<Frame>, f: Frame, nonce: u32, i: nat)
    requires f.variant == CONFIG_COMPLETE
    ensures SegmentFrom(fs + [f], nonce, i) == SegmentFrom(fs, nonce, i)
    decreases |fs| + 1 - i
  {
    if i <= |fs| {
      OwnNodeInfoStable(fs, f);
      TerminatorOutsideSegments(fs, f, nonce, i + 1);
    }
  }

  /** What frame `i` contributes to the segment for `nonce`. */
  function Share(fs: seq<Frame>, nonce: u32, i: nat): multiset<Bytes> {
    if InSegment(fs, i, nonce) then multiset{fs[i].bytes} else multiset{}
  }

  lemma SegmentHead(fs: seq<Frame>, nonce: u32, i: nat)
    requires i < |fs|
    ensures multiset(SegmentFrom(fs, nonce, i)) == Share(fs, nonce, i) + multiset(SegmentFrom(fs, nonce, i + 1))
  {
  }

  /** The duplicate that two-round clients receive: the own node_info, if it is at or after `i`. */
  function OwnFrom(fs: seq<Frame>, i: nat): multiset<Bytes> {
    var own := OwnNodeInfo(fs);
    if i <= own < |fs| then multiset{fs[own].bytes} else multiset{}
  }

  /** By index: the two rounds cover the full burst and overlap exactly in the own node_info. */
  lemma TwoRoundsByIndex(fs: seq<Frame>, full: u32, i: nat)
    requires full != ONLY_CONFIG && full != ONLY_NODES
    ensures InSegment(fs, i, full) <==> InSegment(fs, i, ONLY_CONFIG) || InSegment(fs, i, ONLY_NODES)
    ensures InSegment(fs, i, ONLY_CONFIG) && InSegment(fs, i, ONLY_NODES) <==> i == OwnNodeInfo(fs) < |fs|
    ensures Share(fs, ONLY_CONFIG, i) + Share(fs, ONLY_NODES, i) + OwnFrom(fs, i + 1)
         == Share(fs, full, i) + OwnFrom(fs, i)
  {
    var own := OwnNodeInfo(fs);
    assert own < |fs| ==> fs[own].variant == NODE_INFO;
  }

  lemma Regroup(c0: multiset<Bytes>, c: multiset<Bytes>, n0: multiset<Bytes>, n: multiset<Bytes>,
                f0: multiset<Bytes>, f: multiset<Bytes>, o0: multiset<Bytes>, o: multiset<Bytes>)
    requires c0 + n0 + o == f0 + o0 && c + n == f + o
    ensures (c0 + c) + (n0 + n) == (f0 + f) + o0
  {
    calc {
      (c0 + c) + (n0 + n);
      (c0 + n0) + (c + n);
      (c0 + n0) + (f + o);
      (c0 + n0 + o) + f;
      (f0 + o0) + f;
      (f0 + f) + o0;
    }
  }

  /**
   * Two-round coverage: what rounds 69420 and 69421 deliver together is the full burst, with the
   * own node_info once more and nothing else twice.
   */
  lemma {:induction false} TwoRoundsCoverBurst(fs: seq<Frame>, full: u32, i: nat)
    requires full != ONLY_CONFIG && full != ONLY_NODES
    ensures multiset(SegmentFrom(fs, ONLY_CONFIG, i)) + multiset(SegmentFrom(fs, ONLY_NODES, i))
         == multiset(SegmentFrom(fs, full, i)) + OwnFrom(fs, i)
    decreases |fs| - i
  {
    if i < |fs| {
      TwoRoundsCoverBurst(fs, full, i + 1);
      TwoRoundsByIndex(fs, full, i);
      SegmentHead(fs, ONLY_CONFIG, i);
      SegmentHead(fs, ONLY_NODES, i);
      SegmentHead(fs, full, i);
      Regroup(Share(fs, ONLY_CONFIG, i), multiset(SegmentFrom(fs, ONLY_CONFIG, i + 1)),
              Share(fs, ONLY_NODES, i), multiset(SegmentFrom(fs, ONLY_NODES, i + 1)),
              Share(fs, full, i), multiset(SegmentFrom(fs, full, i + 1)), OwnFrom(fs, i), OwnFrom(fs, i + 1));
    }
  }
}
