/** Shared value types: bytes, 32-bit words, optional values, millisecond deadlines. */
module Prelude {

  datatype Option<+T> = None | Some(value: T)

  type byte = x: int | 0 <= x < 0x100
  type Bytes = seq<byte>

  const U32_SIZE := 0x1_0000_0000
  type u32 = x: int | 0 <= x < 0x1_0000_0000

  /** `uint32_t` increment, with its wrap-around. */
  function Inc32(x: u32): u32 { (x + 1) % U32_SIZE }

  /** A delayable work item: `None` when idle, otherwise the time (ms) at which it becomes due. */
  type Timer = Option<nat>

  predicate Due(t: Timer, now: nat) { t.Some? && t.value <= now }

  /** Index of the first element satisfying `p`, or `|xs|`. */
  function First<T>(xs: seq<T>, p: T -> bool): (r: nat)
    ensures r <= |xs|
    ensures r < |xs| ==> p(xs[r])
    ensures forall j :: 0 <= j < r ==> !p(xs[j])
  {
    if xs == [] then 0 else if p(xs[0]) then 0 else 1 + First(xs[1..], p)
  }

  /** `First` is the only index with its two properties. */
  lemma FirstUnique<T>(xs: seq<T>, p: T -> bool, r: nat)
    requires r <= |xs|
    requires r < |xs| ==> p(xs[r])
    requires forall j :: 0 <= j < r ==> !p(xs[j])
    ensures First(xs, p) == r
  {
    var f := First(xs, p);
  }

  /** How many elements satisfy `p`. */
  function Count<T>(xs: seq<T>, p: T -> bool): nat {
    if xs == [] then 0 else (if p(xs[0]) then 1 else 0) + Count(xs[1..], p)
  }

  lemma {:induction false} CountUpdate<T>(xs: seq<T>, p: T -> bool, i: nat, x: T)
    requires i < |xs|
    ensures Count(xs[i := x], p) == Count(xs, p) - (if p(xs[i]) then 1 else 0) + (if p(x) then 1 else 0)
  {
    if i == 0 {
      assert xs[0 := x][1..] == xs[1..];
    } else {
      CountUpdate(xs[1..], p, i - 1, x);
      assert xs[i := x][1..] == xs[1..][i - 1 := x];
    }
  }

  lemma {:induction false} CountPositive<T>(xs: seq<T>, p: T -> bool)
    ensures Count(xs, p) > 0 <==> First(xs, p) < |xs|
  {
    if xs != [] { CountPositive(xs[1..], p); }
  }

  lemma {:induction false} CountSame<T>(xs: seq<T>, ys: seq<T>, p: T -> bool)
    requires |xs| == |ys| && forall i :: 0 <= i < |xs| ==> p(xs[i]) == p(ys[i])
    ensures Count(xs, p) == Count(ys, p)
  {
    if xs != [] { CountSame(xs[1..], ys[1..], p); }
  }

  lemma {:induction false} CountNext<T>(xs: seq<T>, p: T -> bool, n: nat)
    requires n < |xs|
    ensures Count(xs[..n + 1], p) == Count(xs[..n], p) + (if p(xs[n]) then 1 else 0)
  {
    if n == 0 {
      assert xs[..1] == [xs[0]] && xs[..1][1..] == [];
    } else {
      assert xs[..n + 1][1..] == xs[1..][..n] && xs[..n][1..] == xs[1..][..n - 1];
      CountNext(xs[1..], p, n - 1);
    }
  }

  lemma {:induction false} SubsetCardinality<T>(a: set<T>, b: set<T>)
    requires a <= b
    ensures |a| <= |b|
    decreases a
  {
    if a != {} {
      var x :| x in a;
      SubsetCardinality(a - {x}, b - {x});
    }
  }

  /** Replacing a sequence by another, front to back. */
  lemma Spliced<T>(a: seq<T>, b: seq<T>, i: nat)
    requires i < |a| == |b|
    ensures (a[..i] + b[i..])[i := a[i]] == a[..i + 1] + b[i + 1..]
  {
  }

  lemma WholeSplice<T>(a: seq<T>, b: seq<T>)
    requires |a| == |b|
    ensures a[..|a|] + b[|b|..] == a && b[..|b|] == b
  {
  }

  lemma ConcatAssoc<T>(a: seq<T>, b: seq<T>, c: seq<T>)
    ensures a + (b + c) == (a + b) + c
  {
  }

  /** `memcpy` into a buffer. */
  method CopyInto(dst: array<byte>, off: nat, src: Bytes)
    requires off + |src| <= dst.Length
    modifies dst
    ensures forall i :: 0 <= i < dst.Length ==>
              dst[i] == if off <= i < off + |src| then src[i - off] else old(dst[i])
  {
    for k := 0 to |src|
      invariant forall i :: 0 <= i < dst.Length ==>
                  dst[i] == if off <= i < off + k then src[i - off] else old(dst[i])
    {
      dst[off + k] := src[k];
    }
  }
}
