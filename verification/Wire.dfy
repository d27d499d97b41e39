/**
 * The protobuf layer, abstracted to what the proxy reads and writes. Every theorem is about an
 * arbitrary `Codec`; the few that need facts about the encoding ask for `Lawful`.
 */
module Wire {
  import opened Prelude

  // FromRadio payload-variant tags.
  const PACKET := 2
  const NODE_INFO := 4
  const CONFIG_COMPLETE := 7
  const REBOOTED := 8
  const QUEUE_STATUS := 11

  /** Size of the scratch buffer for every message the proxy encodes itself, except want_config. */
  const SCRATCH_SIZE := 16

  /** Routing fields of a decoded FromRadio; `portnum` and `payload` matter when `decoded`. */
  datatype FromRadio = FromRadio(variant: int, decoded: bool, portnum: nat, payload: Bytes)

  /** What the proxy distinguishes in a decoded ToRadio. */
  datatype ToRadio = WantConfig(nonce: u32) | Heartbeat | Disconnect | Other

  /** Decoders return `None` on malformed input, encoders on encode failure. */
  datatype Codec = Codec(
    fromRadio: Bytes -> Option<FromRadio>,
    completeNonce: Bytes -> Option<u32>,
    toRadio: Bytes -> Option<ToRadio>,
    wantConfig: u32 -> Option<Bytes>,
    heartbeat: u32 -> Option<Bytes>,
    configComplete: u32 -> Option<Bytes>,
    queueStatus: Option<Bytes>)

  /** Encoding into the 16-byte scratch buffer fails when the message does not fit. */
  function Scratch(b: Option<Bytes>): (r: Option<Bytes>)
    ensures r.Some? <==> b.Some? && |b.value| <= SCRATCH_SIZE
  {
    if b.Some? && |b.value| <= SCRATCH_SIZE then b else None
  }

  /** What nanopb and the Meshtastic schema provide for the messages the proxy itself builds. */
  ghost predicate Lawful(codec: Codec) {
    && (forall n: u32 ::
          && codec.wantConfig(n).Some? && 1 <= |codec.wantConfig(n).value| <= 512
          && codec.toRadio(codec.wantConfig(n).value) == Some(WantConfig(n)))
    && (forall n: u32 ::
          && codec.heartbeat(n).Some? && 1 <= |codec.heartbeat(n).value| <= SCRATCH_SIZE
          && codec.toRadio(codec.heartbeat(n).value) == Some(Heartbeat))
    && (forall n: u32 ::
          && codec.configComplete(n).Some? && 1 <= |codec.configComplete(n).value| <= SCRATCH_SIZE
          && codec.completeNonce(codec.configComplete(n).value) == Some(n))
  }
}
