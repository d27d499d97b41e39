/**
 * One codec that satisfies what the theorems ask of the protobuf layer, so that none of them is
 * empty: a tag byte, and a nonce in four bytes where the message has one.
 */
module SampleCodec {
  import opened Prelude
  import opened Wire
  import opened UartRx
  import opened Boundary
  import opened PowerUp

  const ASK: byte := 1
  const BEAT: byte := 2
  const COMPLETE: byte := 3
  const BYE: byte := 4
  const MESH: byte := 5

  function Tagged(tag: byte, n: u32): Bytes {
    var high, low := n / 0x1_0000, n % 0x1_0000;
    [tag, high / 0x100, high % 0x100, low / 0x100, low % 0x100]
  }

  function NonceOf(b: Bytes): u32
    requires |b| == 5
  {
    var b1: int, b2: int, b3: int, b4: int := b[1], b[2], b[3], b[4];
    (b1 * 0x100 + b2) * 0x1_0000 + (b3 * 0x100 + b4)
  }

  lemma NonceRoundTrip(tag: byte, n: u32)
    ensures NonceOf(Tagged(tag, n)) == n
  {
    var high, low := n / 0x1_0000, n % 0x1_0000;
    assert high / 0x100 * 0x100 + high % 0x100 == high;
    assert low / 0x100 * 0x100 + low % 0x100 == low;
  }

  function FromNode(b: Bytes): Option<FromRadio> {
    if |b| == 5 && b[0] == COMPLETE then Some(FromRadio(CONFIG_COMPLETE, false, 0, []))
    else if b != [] && b[0] == MESH then Some(FromRadio(PACKET, false, 0, []))
    else None
  }

  function FromPhone(b: Bytes): Option<ToRadio> {
    if |b| == 5 && b[0] == ASK then Some(WantConfig(NonceOf(b)))
    else if |b| == 5 && b[0] == BEAT then Some(Heartbeat)
    else if b == [BYE] then Some(Disconnect)
    else if b != [] && b[0] == MESH then Some(Other)
    else None
  }

  const SAMPLE := Codec(
    (b: Bytes) => FromNode(b),
    (b: Bytes) => if |b| == 5 && b[0] == COMPLETE then Some(NonceOf(b)) else None,
    (b: Bytes) => FromPhone(b),
    (n: u32) => Some(Tagged(ASK, n)),
    (n: u32) => Some(Tagged(BEAT, n)),
    (n: u32) => Some(Tagged(COMPLETE, n)),
    Some([6]))

  lemma SampleIsLawful()
    ensures Lawful(SAMPLE)
  {
    forall n: u32 ensures NonceOf(Tagged(ASK, n)) == n && NonceOf(Tagged(COMPLETE, n)) == n {
      NonceRoundTrip(ASK, n);
      NonceRoundTrip(COMPLETE, n);
    }
  }

  /** The inputs of the runs from power-up exist together with it. */
  lemma SampleInputs()
    ensures ClosesTwo(SAMPLE, Tagged(COMPLETE, 2))
    ensures Forwardable(SAMPLE, [MESH]) && SAMPLE.toRadio([BYE]) == Some(Disconnect)
    ensures forall n: u32 :: SAMPLE.toRadio(Tagged(ASK, n)) == Some(WantConfig(n)) && |SAMPLE.wantConfig(n).value| >= 4
    ensures forall m: Bytes :: |m| + 4 <= MAX_PAYLOAD ==> SAMPLE.toRadio(Encode(m)).None?
  {
    NonceRoundTrip(COMPLETE, 2);
    forall n: u32 ensures NonceOf(Tagged(ASK, n)) == n { NonceRoundTrip(ASK, n); }
  }
}
