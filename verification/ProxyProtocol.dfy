/** The application-layer proxy header (src/proxy_protocol.c): [version][src id][dst id][content]. */
module ProxyProtocol {
  import opened Prelude

  const PROXY_PORTNUM := 256
  const VERSION: byte := 1
  const ID_SIZE := 4
  const HEADER_SIZE := 9
  const CONTENT_MAX := 191

  datatype Header = Header(src: Bytes, dst: Bytes, content: Bytes)

  function Parse(payload: Bytes): Option<Header> {
    if |payload| < HEADER_SIZE || payload[0] != VERSION then None
    else Some(Header(payload[1..5], payload[5..9], payload[9..]))
  }

  /** A header and content on the wire. */
  function Layout(h: Header): Bytes { [VERSION] + h.src + h.dst + h.content }

  /** The header on the wire: version 1, then the sender, then the destination, then the content. */
  lemma HeaderOnTheWire(h: Header)
    requires |h.src| == 4 && |h.dst| == 4
    ensures |Layout(h)| == 9 + |h.content| && Layout(h)[0] == 1
    ensures Layout(h)[1..5] == h.src && Layout(h)[5..9] == h.dst && Layout(h)[9..] == h.content
  {
    var l := Layout(h);
    assert l[1..5] == h.src && l[5..9] == h.dst && l[9..] == h.content;
  }

  /** Parsing inverts the layout, and only well-formed payloads parse. */
  lemma ParseInvertsLayout(payload: Bytes, h: Header)
    requires |h.src| == ID_SIZE && |h.dst| == ID_SIZE
    ensures Parse(payload) == Some(h) <==> payload == Layout(h)
  {
    var l := Layout(h);
    assert l[1..5] == h.src && l[5..9] == h.dst && l[9..] == h.content;
    if Parse(payload) == Some(h) {
      assert payload == [payload[0]] + payload[1..5] + payload[5..9] + payload[9..];
    }
  }

  /** An id as the big-endian number it stands for. */
  function IdValue(id: Bytes): (v: u32)
    requires |id| == ID_SIZE
  {
    var b0: int, b1: int, b2: int, b3: int := id[0], id[1], id[2], id[3];
    b3 + b2 * 0x100 + b1 * 0x1_0000 + b0 * 0x100_0000
  }

  /** The first byte of an id is the most significant. */
  lemma IdValueIsBigEndian(id: Bytes)
    requires |id| == 4
    ensures var b0: int, b1: int, b2: int, b3: int := id[0], id[1], id[2], id[3];
      IdValue(id) == ((b0 * 256 + b1) * 256 + b2) * 256 + b3
  {
  }

  /** Ids are equal exactly when their numbers are. */
  lemma IdValueInjective(a: Bytes, b: Bytes)
    requires |a| == ID_SIZE && |b| == ID_SIZE
    ensures IdValue(a) == IdValue(b) <==> a == b
  {
    if IdValue(a) == IdValue(b) {
      assert a[0] == b[0] && a[1] == b[1] && a[2] == b[2] && a[3] == b[3];
    }
  }

  method IsZero(id: Bytes) returns (zero: bool)
    requires |id| == ID_SIZE
    ensures zero <==> id == [0, 0, 0, 0]
    ensures zero <==> IdValue(id) == 0
  {
    for i := 0 to ID_SIZE
      invariant forall j :: 0 <= j < i ==> id[j] == 0
    {
      if id[i] != 0 {
        return false;
      }
    }
    return true;
  }

  /**
   * Builds a framed payload into `buf` and returns its size, or 0 without touching `buf` when the
   * content is too long or the buffer too small. A missing `content` leaves that part of `buf` as is.
   */
  method Build(src: Bytes, dst: Bytes, content: Option<Bytes>, contentLen: nat, buf: array<byte>)
    returns (total: nat)
    requires |src| == ID_SIZE && |dst| == ID_SIZE
    requires content.Some? ==> |content.value| == contentLen
    modifies buf
    ensures total == 0 <==> contentLen > CONTENT_MAX || HEADER_SIZE + contentLen > buf.Length
    ensures total == 0 ==> buf[..] == old(buf[..])
    ensures total > 0 ==>
      && total == HEADER_SIZE + contentLen
      && buf[total..] == old(buf[total..])
      && Parse(buf[..total]) ==
           Some(Header(src, dst, if content.Some? then content.value else old(buf[HEADER_SIZE..total])))
  {
    if contentLen > CONTENT_MAX {
      return 0;
    }
    total := HEADER_SIZE + contentLen;
    if total > buf.Length {
      return 0;
    }
    buf[0] := VERSION;
    CopyInto(buf, 1, src);
    CopyInto(buf, 1 + ID_SIZE, dst);
    if contentLen > 0 && content.Some? {
      CopyInto(buf, HEADER_SIZE, content.value);
    }
    ghost var body := if content.Some? then content.value else old(buf[HEADER_SIZE..total]);
    assert forall i :: total <= i < buf.Length ==> buf[i] == old(buf[i]);
    assert buf[total..] == old(buf[total..]);
    assert forall i :: 0 <= i < contentLen ==> buf[HEADER_SIZE + i] == body[i];
    assert buf[..total] == Layout(Header(src, dst, body));
    ParseInvertsLayout(buf[..total], Header(src, dst, body));
  }
}
