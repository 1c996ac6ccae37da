/** The 14-byte V2 and 22-byte V3 packet formats: building, parsing, accepting. */
module Packet {
  import opened Bytes
  import opened Checksum

  const V2: Byte := 2
  const V3: Byte := 3
  const HEADER_V2 := 14
  const HEADER_V3 := 22
  /** Largest datagram (header and payload) the client puts on the wire. */
  const MAX_DATAGRAM := 65000

  const DATA: Byte := 1
  const ACK: Byte := 2
  const NACK: Byte := 3
  const CONFIG: Byte := 11

  const FLAG_FRAGMENT: Byte := 0x10
  const FLAG_LAST_FRAGMENT: Byte := 0x20
  const FLAG_PROTOBUF: Byte := 0x40

  datatype Header = Header(
    kind: Byte, tier: Byte, flags: Byte, seqNo: U16, stream: U16, contentId: U32)

  datatype HeaderV3 = HeaderV3(
    kind: Byte, tier: Byte, flags: Byte, seqNo: U16, stream: U16,
    msgId: U32, fragOffset: U16, fragTotal: U16, contentId: U32)

  /** The packet before its checksum is written. */
  function Draft(h: Header, payload: seq<Byte>): (d: seq<Byte>)
    ensures |d| == HEADER_V2 + |payload|
  {
    [V2, h.kind, h.tier, h.flags] + PutU16(h.seqNo) + PutU16(h.stream) + PutU32(h.contentId)
    + [0, 0] + payload
  }

  function DraftV3(h: HeaderV3, payload: seq<Byte>): (d: seq<Byte>)
    ensures |d| == HEADER_V3 + |payload|
  {
    [V3, h.kind, h.tier, h.flags] + PutU16(h.seqNo) + PutU16(h.stream) + PutU32(h.msgId)
    + PutU16(h.fragOffset) + PutU16(h.fragTotal) + PutU32(h.contentId) + [0, 0] + payload
  }

  function Encode(h: Header, payload: seq<Byte>): (p: seq<Byte>)
    ensures |p| == HEADER_V2 + |payload|
  {
    Stamped(Draft(h, payload), 12)
  }

  function EncodeV3(h: HeaderV3, payload: seq<Byte>): (p: seq<Byte>)
    ensures |p| == HEADER_V3 + |payload|
  {
    Stamped(DraftV3(h, payload), 20)
  }

  function Parse(data: seq<Byte>): Header
    requires |data| >= HEADER_V2
  {
    Header(data[1], data[2], data[3], GetU16(data, 4), GetU16(data, 6), GetU32(data, 8))
  }

  function ParseV3(data: seq<Byte>): HeaderV3
    requires |data| >= HEADER_V3
  {
    HeaderV3(data[1], data[2], data[3], GetU16(data, 4), GetU16(data, 6), GetU32(data, 8),
             GetU16(data, 12), GetU16(data, 14), GetU32(data, 16))
  }

  /** The V2 data packet of a send, numbered by the low half of its key. */
  function DataPacket(payload: seq<Byte>, tier: Byte, stream: U16, flags: Byte, contentId: U32, key: U32): seq<Byte> {
    Encode(Header(DATA, tier, flags, key % POW16, stream, contentId), payload)
  }

  /** The server's three tests, in its order: length, version, checksum. */
  predicate Accepts(data: seq<Byte>) {
    |data| >= HEADER_V2 && data[0] == V2 && Verifies(data, 12)
  }

  /** Writes the packet field by field into a fresh buffer, then the checksum over it. */
  method BuildPacket(h: Header, payload: seq<Byte>) returns (pkt: array<Byte>)
    ensures fresh(pkt)
    ensures pkt[..] == Encode(h, payload)
  {
    pkt := new Byte[HEADER_V2 + |payload|](_ => 0);
    WriteFields(pkt, h);
    PutInto(pkt, HEADER_V2, payload);
    assert pkt[..] == pkt[..12] + [0, 0] + payload;
    assert pkt[..] == Draft(h, payload);
    assert Zeroed(Draft(h, payload), 12) == Draft(h, payload);
    var cs := CalculateChecksum(pkt[..]);
    ghost var before := pkt[..];
    PutInto(pkt, 12, PutU16(cs));
    assert pkt[..] == before[..12] + PutU16(cs) + before[14..];
  }

  method WriteFields(pkt: array<Byte>, h: Header)
    requires pkt.Length >= HEADER_V2
    modifies pkt
    ensures pkt[..12] == [V2, h.kind, h.tier, h.flags] + PutU16(h.seqNo) + PutU16(h.stream) + PutU32(h.contentId)
    ensures forall i :: 12 <= i < pkt.Length ==> pkt[i] == old(pkt[i])
  {
    pkt[0], pkt[1], pkt[2], pkt[3] := V2, h.kind, h.tier, h.flags;
    PutInto(pkt, 4, PutU16(h.seqNo));
    PutInto(pkt, 6, PutU16(h.stream));
    PutInto(pkt, 8, PutU32(h.contentId));
  }

  method PutInto(buf: array<Byte>, at: nat, src: seq<Byte>)
    requires at + |src| <= buf.Length
    modifies buf
    ensures forall i :: 0 <= i < buf.Length ==>
                          buf[i] == if at <= i < at + |src| then src[i - at] else old(buf[i])
  {
    var i := 0;
    while i < |src|
      invariant 0 <= i <= |src|
      invariant forall j :: 0 <= j < buf.Length ==>
                              buf[j] == if at <= j < at + i then src[j - at] else old(buf[j])
    {
      buf[at + i] := src[i];
      i := i + 1;
    }
  }

  /** The same for a V3 packet. */
  method BuildPacketV3(h: HeaderV3, payload: seq<Byte>) returns (pkt: array<Byte>)
    ensures fresh(pkt)
    ensures pkt[..] == EncodeV3(h, payload)
  {
    pkt := new Byte[HEADER_V3 + |payload|](_ => 0);
    WriteFieldsV3(pkt, h);
    PutInto(pkt, HEADER_V3, payload);
    assert pkt[..] == pkt[..20] + [0, 0] + payload;
    assert pkt[..] == DraftV3(h, payload);
    assert Zeroed(DraftV3(h, payload), 20) == DraftV3(h, payload);
    var cs := CalculateChecksum(pkt[..]);
    ghost var before := pkt[..];
    PutInto(pkt, 20, PutU16(cs));
    assert pkt[..] == before[..20] + PutU16(cs) + before[22..];
  }

  method WriteFieldsV3(pkt: array<Byte>, h: HeaderV3)
    requires pkt.Length >= HEADER_V3
    modifies pkt
    ensures pkt[..20] == [V3, h.kind, h.tier, h.flags] + PutU16(h.seqNo) + PutU16(h.stream) + PutU32(h.msgId)
                         + PutU16(h.fragOffset) + PutU16(h.fragTotal) + PutU32(h.contentId)
    ensures forall i :: 20 <= i < pkt.Length ==> pkt[i] == old(pkt[i])
  {
    pkt[0], pkt[1], pkt[2], pkt[3] := V3, h.kind, h.tier, h.flags;
    PutInto(pkt, 4, PutU16(h.seqNo));
    PutInto(pkt, 6, PutU16(h.stream));
    PutInto(pkt, 8, PutU32(h.msgId));
    PutInto(pkt, 12, PutU16(h.fragOffset));
    PutInto(pkt, 14, PutU16(h.fragTotal));
    PutInto(pkt, 16, PutU32(h.contentId));
  }

  // ---- layout ----

  /** A big-endian number of two bytes, by its digits. */
  predicate Two(d: seq<Byte>, at: nat, n: int)
    requires at + 2 <= |d|
  {
    var hi: int, lo: int := d[at], d[at + 1];
    256 * hi + lo == n
  }

  predicate Four(d: seq<Byte>, at: nat, n: int)
    requires at + 4 <= |d|
  {
    var a: int, b: int, c: int, e: int := d[at], d[at + 1], d[at + 2], d[at + 3];
    16777216 * a + 65536 * b + 256 * c + e == n
  }

  /** The V2 wire format, byte by byte. */
  lemma LayoutV2(h: Header, payload: seq<Byte>)
    ensures var d := Encode(h, payload);
            && |d| == 14 + |payload| && d[14..] == payload
            && d[0] == 2 && d[1] == h.kind && d[2] == h.tier && d[3] == h.flags
            && Two(d, 4, h.seqNo) && Two(d, 6, h.stream) && Four(d, 8, h.contentId)
            && Two(d, 12, Sum16(d[12 := 0][13 := 0]))
  {
    var d, e := Draft(h, payload), Encode(h, payload);
    EncodeFields(h, payload);
    assert e[1] == Parse(e).kind && e[2] == Parse(e).tier && e[3] == Parse(e).flags;
    WordBytes(e, 4);
    WordBytes(e, 6);
    LongBytes(e, 8);
    StampBytes(d, 12);
    assert e[14..] == d[14..] == payload;
  }

  /** The V3 wire format, byte by byte. */
  lemma LayoutV3(h: HeaderV3, payload: seq<Byte>)
    ensures var d := EncodeV3(h, payload);
            && |d| == 22 + |payload| && d[22..] == payload
            && d[0] == 3 && d[1] == h.kind && d[2] == h.tier && d[3] == h.flags
            && Two(d, 4, h.seqNo) && Two(d, 6, h.stream) && Four(d, 8, h.msgId)
            && Two(d, 12, h.fragOffset) && Two(d, 14, h.fragTotal) && Four(d, 16, h.contentId)
            && Two(d, 20, Sum16(d[20 := 0][21 := 0]))
  {
    var d, e := DraftV3(h, payload), EncodeV3(h, payload);
    EncodeFieldsV3(h, payload);
    assert e[1] == ParseV3(e).kind && e[2] == ParseV3(e).tier && e[3] == ParseV3(e).flags;
    LayoutNumbersV3(e);
    StampBytes(d, 20);
    assert e[22..] == d[22..] == payload;
  }

  lemma LayoutNumbersV3(e: seq<Byte>)
    requires |e| >= HEADER_V3
    ensures var h := ParseV3(e);
            && Two(e, 4, h.seqNo) && Two(e, 6, h.stream) && Four(e, 8, h.msgId)
            && Two(e, 12, h.fragOffset) && Two(e, 14, h.fragTotal) && Four(e, 16, h.contentId)
  {
    WordBytes(e, 4);
    WordBytes(e, 6);
    LongBytes(e, 8);
    WordBytes(e, 12);
    WordBytes(e, 14);
    LongBytes(e, 16);
  }

  lemma WordBytes(d: seq<Byte>, at: nat)
    requires at + 2 <= |d|
    ensures Two(d, at, GetU16(d, at))
  {
  }

  lemma LongBytes(d: seq<Byte>, at: nat)
    requires at + 4 <= |d|
    ensures Four(d, at, GetU32(d, at))
  {
  }

  /** The checksum is over the packet with its field zeroed. */
  lemma StampBytes(d: seq<Byte>, at: nat)
    requires at + 2 <= |d|
    ensures var e := Stamped(d, at); Two(e, at, Sum16(e[at := 0][at + 1 := 0]))
  {
    var e := Stamped(d, at);
    assert e[at := 0][at + 1 := 0] == Zeroed(d, at);
    var cs := PutU16(Sum16(Zeroed(d, at)));
    assert e[at] == cs[0] && e[at + 1] == cs[1];
    WordBytes(cs, 0);
  }

  /** parse(build(h, p)) is h, the payload is intact, and the server accepts the packet. */
  lemma EncodeThenParse(h: Header, payload: seq<Byte>)
    requires HEADER_V2 + |payload| <= 0xFFFF
    ensures Parse(Encode(h, payload)) == h
    ensures Encode(h, payload)[HEADER_V2..] == payload
    ensures Accepts(Encode(h, payload))
    ensures Sum16(Encode(h, payload)) == 0
  {
    var d, e := Draft(h, payload), Encode(h, payload);
    StampedVerifies(d, 12);
    assert e[HEADER_V2..] == d[HEADER_V2..] == payload;
    EncodeFields(h, payload);
  }

  /** The header survives building, whatever the length. */
  lemma EncodeFields(h: Header, payload: seq<Byte>)
    ensures Parse(Encode(h, payload)) == h && Encode(h, payload)[0] == V2
  {
    var d, e := Draft(h, payload), Encode(h, payload);
    assert e[..12] == d[..12];
    DraftFields(h, payload);
    SamePrefix(d, e);
  }

  lemma SamePrefix(d: seq<Byte>, e: seq<Byte>)
    requires |d| == |e| >= HEADER_V2 && e[..12] == d[..12]
    ensures Parse(e) == Parse(d) && e[0] == d[0]
  {
    assert forall i :: 0 <= i < 12 ==> d[i] == d[..12][i] == e[..12][i] == e[i];
  }

  lemma DraftFields(h: Header, payload: seq<Byte>)
    ensures Parse(Draft(h, payload)) == h && Draft(h, payload)[0] == V2
  {
    var d := Draft(h, payload);
    assert d[4..6] == PutU16(h.seqNo) && d[6..8] == PutU16(h.stream) && d[8..12] == PutU32(h.contentId);
    assert d[4] == d[4..6][0] && d[5] == d[4..6][1] && d[6] == d[6..8][0] && d[7] == d[6..8][1];
    assert forall i :: 0 <= i < 4 ==> d[8 + i] == d[8..12][i];
  }

  /** build(parse(d)) is d for every packet the server accepts: the encoding is canonical. */
  lemma ParseThenEncode(data: seq<Byte>)
    requires Accepts(data)
    ensures Encode(Parse(data), data[HEADER_V2..]) == data
  {
    var h := Parse(data);
    var d := Draft(h, data[HEADER_V2..]);
    assert PutU16(GetU16(data, 4)) == data[4..6];
    assert PutU16(GetU16(data, 6)) == data[6..8];
    assert PutU16(GetU16(data, 12)) == data[12..14];
    PutGet32(data, 8);
    assert d == Zeroed(data, 12);
    assert Zeroed(d, 12) == Zeroed(data, 12);
  }

  lemma PutGet32(data: seq<Byte>, at: nat)
    requires at + 4 <= |data|
    ensures PutU32(GetU32(data, at)) == data[at..at + 4]
  {
    var n := GetU32(data, at);
    assert n / POW16 == GetU16(data, at) && n % POW16 == GetU16(data, at + 2);
    assert PutU16(GetU16(data, at)) == data[at..at + 2];
    assert PutU16(GetU16(data, at + 2)) == data[at + 2..at + 4];
  }

  /** The V3 framing: fields and payload survive, and the checksum field (at 20) verifies. */
  lemma EncodeThenParseV3(h: HeaderV3, payload: seq<Byte>)
    requires HEADER_V3 + |payload| <= 0xFFFF
    ensures ParseV3(EncodeV3(h, payload)) == h
    ensures EncodeV3(h, payload)[HEADER_V3..] == payload
    ensures EncodeV3(h, payload)[0] == V3 && Verifies(EncodeV3(h, payload), 20)
    ensures Sum16(EncodeV3(h, payload)) == 0
  {
    var d, e := DraftV3(h, payload), EncodeV3(h, payload);
    StampedVerifies(d, 20);
    assert e[HEADER_V3..] == d[HEADER_V3..] == payload;
    EncodeFieldsV3(h, payload);
  }

  lemma EncodeFieldsV3(h: HeaderV3, payload: seq<Byte>)
    ensures ParseV3(EncodeV3(h, payload)) == h && EncodeV3(h, payload)[0] == V3
  {
    var d, e := DraftV3(h, payload), EncodeV3(h, payload);
    assert e[..20] == d[..20];
    DraftFieldsV3(h, payload);
    assert forall i :: 0 <= i < 20 ==> d[i] == d[..20][i] == e[..20][i] == e[i];
  }

  lemma DraftFieldsV3(h: HeaderV3, payload: seq<Byte>)
    ensures ParseV3(DraftV3(h, payload)) == h && DraftV3(h, payload)[0] == V3
  {
    var d := DraftV3(h, payload);
    assert d[4..6] == PutU16(h.seqNo) && d[6..8] == PutU16(h.stream) && d[8..12] == PutU32(h.msgId);
    assert d[12..14] == PutU16(h.fragOffset) && d[14..16] == PutU16(h.fragTotal) && d[16..20] == PutU32(h.contentId);
    assert forall i :: 0 <= i < 2 ==> d[4 + i] == d[4..6][i] && d[6 + i] == d[6..8][i];
    assert forall i :: 0 <= i < 2 ==> d[12 + i] == d[12..14][i] && d[14 + i] == d[14..16][i];
    assert forall i :: 0 <= i < 4 ==> d[8 + i] == d[8..12][i] && d[16 + i] == d[16..20][i];
  }
}
