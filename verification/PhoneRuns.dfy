/** One phone's share of a run of the whole proxy: the slot events it goes through, and their sum. */
module PhoneRuns {
  import opened Prelude
  import opened Wire
  import opened ConfigCache
  import opened Phones
  import opened Proxy
  import opened Replay
  import opened Teardown
  import opened Invariants

  // ---------------------------------------------------------------- the table's share

  function Stamped(fs: seq<Frame>, es: seq<TableEvent>): seq<TableStamp> {
    seq(|es|, i requires 0 <= i < |es| => TableStamp(fs, es[i]))
  }

  lemma {:induction false} RunIsStamped(codec: Codec, fs: seq<Frame>, t: Table, es: seq<TableEvent>)
    ensures TableRun(codec, fs, t, es) == StampedRun(codec, t, Stamped(fs, es))
    decreases |es|
  {
    if es != [] {
      assert Stamped(fs, es)[1..] == Stamped(fs, es[1..]);
      RunIsStamped(codec, fs, TableStep(codec, fs, t, es[0]), es[1..]);
    }
  }

  lemma {:induction false} StampedConcat(codec: Codec, t: Table, a: seq<TableStamp>, b: seq<TableStamp>)
    ensures StampedRun(codec, t, a + b) == StampedRun(codec, StampedRun(codec, t, a), b)
    decreases |a|
  {
    if a == [] {
      assert a + b == b;
    } else {
      assert (a + b)[1..] == a[1..] + b;
      StampedConcat(codec, TableStep(codec, a[0].fs, t, a[0].event), a[1..], b);
    }
  }

  function FrameTableEvents(codec: Codec, s: System, raw: Bytes): seq<TableEvent> {
    var info := codec.fromRadio(raw);
    if info.None? then [Broadcast(raw)] else Deliveries(codec, s.node.session, raw, info.value)
  }

  function FramesTableTrace(codec: Codec, s: System, now: nat, raws: seq<Bytes>, rands: seq<u32>): seq<TableStamp>
    decreases |raws|
  {
    if raws == [] then []
    else
      Stamped(s.node.cache.frames, FrameTableEvents(codec, s, raws[0]))
      + FramesTableTrace(codec, OnFrame(codec, s, now, raws[0], Draw(rands)), now, raws[1..], Rest(rands))
  }

  function StepTableTrace(codec: Codec, s: System, now: nat, e: Event): seq<TableStamp> {
    if e.RxWork? then FramesTableTrace(codec, s, now, FramesOf(s, e), e.rands)
    else Stamped(s.node.cache.frames, TableEvents(codec, s, now, e))
  }

  /** The slot-table events of a system run, in order, each with the cache it meets. */
  function TableTrace(codec: Codec, s: System, es: seq<Moment>): seq<TableStamp>
    decreases |es|
  {
    if es == [] then []
    else
      StepTableTrace(codec, s, es[0].now, es[0].event)
      + TableTrace(codec, Step(codec, s, es[0].now, es[0].event), es[1..])
  }

  lemma {:induction false} FramesFollowTableTrace(codec: Codec, s: System, now: nat, raws: seq<Bytes>, rands: seq<u32>)
    ensures OnFrames(codec, s, now, raws, rands).table
         == StampedRun(codec, s.table, FramesTableTrace(codec, s, now, raws, rands))
    decreases |raws|
  {
    if raws != [] {
      var fs, es := s.node.cache.frames, FrameTableEvents(codec, s, raws[0]);
      var s' := OnFrame(codec, s, now, raws[0], Draw(rands));
      RunIsStamped(codec, fs, s.table, es);
      RunOfOne(codec, fs, s.table, Broadcast(raws[0]));
      FramesFollowTableTrace(codec, s', now, raws[1..], Rest(rands));
      StampedConcat(codec, s.table, Stamped(fs, es), FramesTableTrace(codec, s', now, raws[1..], Rest(rands)));
    }
  }

  /** In every run of the proxy the slot table goes through exactly the run of its own event trace. */
  lemma {:induction false} TableFollowsTrace(codec: Codec, s: System, es: seq<Moment>)
    ensures SystemRun(codec, s, es).table == StampedRun(codec, s.table, TableTrace(codec, s, es))
    decreases |es|
  {
    if es != [] {
      var now, e := es[0].now, es[0].event;
      var s' := Step(codec, s, now, e);
      if e.RxWork? {
        FramesFollowTableTrace(codec, s, now, FramesOf(s, e), e.rands);
      } else {
        RunIsStamped(codec, s.node.cache.frames, s.table, TableEvents(codec, s, now, e));
      }
      TableFollowsTrace(codec, s', es[1..]);
      StampedConcat(codec, s.table, StepTableTrace(codec, s, now, e), TableTrace(codec, s', es[1..]));
    }
  }

  // ---------------------------------------------------------------- one phone's share

  predicate KeepsLink(es: seq<TableStamp>, c: Conn) { forall x :: x in es ==> x.event != Lost(c) }

  function PhoneTrace(codec: Codec, t: Table, es: seq<TableStamp>, c: Conn): seq<SlotStamp>
    decreases |es|
  {
    if es == [] then []
    else
      var own, rest := EventsFor(t, es[0].event, c),
                       PhoneTrace(codec, TableStep(codec, es[0].fs, t, es[0].event), es[1..], c);
      if own == [] then rest else [SlotStamp(es[0].fs, own[0])] + rest
  }

  /** While its link lasts, a phone's slot goes through exactly the events meant for it. */
  lemma {:induction false} SlotFollowsTrace(codec: Codec, t: Table, es: seq<TableStamp>, c: Conn)
    requires TableInv(t) && SlotOf(t, c).Some? && KeepsLink(es, c)
    ensures SlotOf(StampedRun(codec, t, es), c)
         == Some(SlotRun(codec, SlotOf(t, c).value, PhoneTrace(codec, t, es, c)))
    decreases |es|
  {
    if es != [] {
      var x, t' := es[0], TableStep(codec, es[0].fs, t, es[0].event);
      assert x in es;
      PhoneSeesOnlyItsEvents(codec, x.fs, t, x.event, c);
      TableStepKeepsInv(codec, x.fs, t, x.event);
      SlotFollowsTrace(codec, t', es[1..], c);
      var own, rest := EventsFor(t, x.event, c), PhoneTrace(codec, t', es[1..], c);
      if own != [] { assert ([SlotStamp(x.fs, own[0])] + rest)[1..] == rest; }
    }
  }

  lemma {:induction false} NoLossInFrames(codec: Codec, s: System, now: nat, raws: seq<Bytes>, rands: seq<u32>, c: Conn)
    ensures KeepsLink(FramesTableTrace(codec, s, now, raws, rands), c)
    decreases |raws|
  {
    if raws != [] {
      NoLossInFrames(codec, OnFrame(codec, s, now, raws[0], Draw(rands)), now, raws[1..], Rest(rands), c);
    }
  }

  lemma StepLosesOnlyOnDrop(codec: Codec, s: System, now: nat, e: Event, c: Conn)
    requires e != Drops(c)
    ensures KeepsLink(StepTableTrace(codec, s, now, e), c)
  {
    if e.RxWork? {
      NoLossInFrames(codec, s, now, FramesOf(s, e), e.rands, c);
    } else {
      assert Lost(c) !in TableEvents(codec, s, now, e);
    }
  }

  lemma {:induction false} OnlyDropsLose(codec: Codec, s: System, es: seq<Moment>, c: Conn)
    requires forall m :: m in es ==> m.event != Drops(c)
    ensures KeepsLink(TableTrace(codec, s, es), c)
    decreases |es|
  {
    if es != [] {
      assert es[0] in es;
      StepLosesOnlyOnDrop(codec, s, es[0].now, es[0].event, c);
      OnlyDropsLose(codec, Step(codec, s, es[0].now, es[0].event), es[1..], c);
    }
  }

  /** The slot events phone `c` goes through in a run of the proxy. */
  function SlotTrace(codec: Codec, s: System, es: seq<Moment>, c: Conn): seq<SlotStamp> {
    PhoneTrace(codec, s.table, TableTrace(codec, s, es), c)
  }

  lemma PhoneFollowsTrace(codec: Codec, s: System, es: seq<Moment>, c: Conn)
    requires SystemInv(s) && SlotOf(s.table, c).Some?
    requires forall m :: m in es ==> m.event != Drops(c)
    ensures SlotOf(SystemRun(codec, s, es).table, c)
         == Some(SlotRun(codec, SlotOf(s.table, c).value, SlotTrace(codec, s, es, c)))
  {
    TableFollowsTrace(codec, s, es);
    OnlyDropsLose(codec, s, es, c);
    SlotFollowsTrace(codec, s.table, TableTrace(codec, s, es), c);
  }

  /** Once the phone is leaving, it stays so, and its queue only loses packets from the front. */
  predicate OnlyShrinks(a: Slot, b: Slot) {
    a.leaving ==> b.leaving && |b.queue| <= |a.queue| && b.queue == a.queue[|a.queue| - |b.queue|..]
  }

  lemma SlotAccounts(codec: Codec, a: Slot, trace: seq<SlotStamp>, l: Ledger, b: Slot)
    requires Balanced(a, l) && b == SlotRun(codec, a, trace)
    ensures Balanced(b, Books(codec, a, trace, l))
    ensures OnlyShrinks(a, b)
  {
    QueueConserved(codec, a, trace, l);
    if a.leaving { LeavingQueueNeverGrows(codec, a, trace); }
  }

  /**
   * Per-phone queue, in every run of the whole proxy: while a phone stays connected, the packets
   * it has read off its queue, followed by those still there, are the packets accepted for it in
   * order, and FROMNUM counts them and its armed replays modulo 2^32; and once the phone is
   * leaving, its queue only shrinks.
   */
  lemma PhoneQueueAccounts(codec: Codec, s: System, es: seq<Moment>, c: Conn, l: Ledger)
    requires SystemInv(s) && SlotOf(s.table, c).Some? && Balanced(SlotOf(s.table, c).value, l)
    requires forall m :: m in es ==> m.event != Drops(c)
    ensures var a, b := SlotOf(s.table, c).value, SlotOf(SystemRun(codec, s, es).table, c);
      && b.Some? && Balanced(b.value, Books(codec, a, SlotTrace(codec, s, es, c), l))
      && OnlyShrinks(a, b.value)
  {
    var a, trace := SlotOf(s.table, c).value, SlotTrace(codec, s, es, c);
    PhoneFollowsTrace(codec, s, es, c);
    SlotAccounts(codec, a, trace, l, SlotRun(codec, a, trace));
  }

  /** A phone that has just been given a slot starts with an empty ledger. */
  lemma ConnectOpensLedger(codec: Codec, s: System, now: nat, c: Conn)
    requires SystemInv(s) && SlotOf(s.table, c).None?
    requires SlotOf(Step(codec, s, now, Connects(c)).table, c).Some?
    ensures Balanced(SlotOf(Step(codec, s, now, Connects(c)).table, c).value, Ledger([], [], 0))
  {
    var fs, t, i := s.node.cache.frames, s.table, FirstFree(s.table.slots);
    var t' := TableStep(codec, fs, t, Connect(c));
    RunOfOne(codec, fs, t, Connect(c));
    TableStepKeepsInv(codec, fs, t, Connect(c));
    FindIs(t'.slots, c, i);
    FreshSlotIsBalanced(t.slots[i], c);
  }

  /**
   * From power-up, whenever a phone connects and for as long as it stays: what it has read off its
   * queue, followed by what is still there, is everything accepted for it since, in order.
   */
  lemma QueueAccountsFromConnect(
    codec: Codec, before: seq<Moment>, s: System, now: nat, c: Conn, s1: System, es: seq<Moment>)
    requires s == SystemRun(codec, SYSTEM_INIT, before) && s1 == Step(codec, s, now, Connects(c))
    requires SlotOf(s.table, c).None? && SlotOf(s1.table, c).Some?
    requires forall m :: m in es ==> m.event != Drops(c)
    ensures var b := SlotOf(SystemRun(codec, s1, es).table, c);
      && b.Some?
      && Balanced(b.value, Books(codec, SlotOf(s1.table, c).value, SlotTrace(codec, s1, es, c), Ledger([], [], 0)))
  {
    InitialSystem();
    EveryReachableState(codec, SYSTEM_INIT, before);
    StepKeepsInv(codec, s, now, Connects(c));
    ConnectOpensLedger(codec, s, now, c);
    PhoneQueueAccounts(codec, s1, es, c, Ledger([], [], 0));
  }
}
