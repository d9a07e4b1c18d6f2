/** An IPv4 datagram as bytes, section 3.1 of RFC 791, and back. */
module Ipv4Wire {
  import opened Words
  import opened Checksums
  import opened Parsing
  import opened TcpWire

  const IP_HEADER_LENGTH := 20
  const PROTO_TCP := 6
  const DEFAULT_TTL := 128

  datatype IPv4Header = IPv4Header(
    ver: byte,
    hlen: byte,
    tos: byte,
    len: u16,
    id: u16,
    df: bool,
    mf: bool,
    offset: u16,
    ttl: byte,
    proto: byte,
    cksum: u16,
    src: u32,
    dst: u32)

  datatype IPv4Datagram = IPv4Datagram(header: IPv4Header, payload: seq<byte>)

  function BlankIpHeader(): IPv4Header {
    IPv4Header(4, IP_HEADER_LENGTH / 4, 0, 0, 0, true, false, 0, DEFAULT_TTL, PROTO_TCP, 0, 0, 0)
  }

  /** Sixteen-bit subtraction. */
  function PayloadLength(h: IPv4Header): u16 {
    (h.len - 4 * h.hlen) % TWO16
  }

  /** The pseudo-header's contribution to the TCP checksum. */
  function PseudoSum(h: IPv4Header): u32 {
    h.src / TWO16 + h.src % TWO16 + (h.dst / TWO16 + h.dst % TWO16) + h.proto + PayloadLength(h)
  }

  const IP_FRONT_WIDTHS: seq<nat> := [1, 1, 2, 2, 2, 1, 1]
  const IP_WIDTHS: seq<nat> := [1, 1, 2, 2, 2, 1, 1, 2, 4, 4]

  function IpFront(h: IPv4Header): seq<Field> {
    [Field((h.ver * 16) % 0x100 + h.hlen % 16, 1), Field(h.tos, 1), Field(h.len, 2), Field(h.id, 2),
     Field(Bit(h.df, 0x4000) + Bit(h.mf, 0x2000) + h.offset % 0x2000, 2), Field(h.ttl, 1), Field(h.proto, 1)]
  }

  function IpFields(h: IPv4Header): seq<Field> {
    IpFront(h) + [Field(h.cksum, 2), Field(h.src, 4), Field(h.dst, 4)]
  }

  /** The header in bytes; the source refuses a version other than 4 and a short length. */
  function IpHeaderBytes(h: IPv4Header): Option<seq<byte>> {
    if h.ver != 4 || 4 * h.hlen < IP_HEADER_LENGTH then None
    else Some(Packed(IpFields(h)) + Zeros(4 * h.hlen - IP_HEADER_LENGTH))
  }

  predicate IpValues(v: seq<nat>) {
    && |v| == 10
    && v[0] < 0x100 && v[1] < 0x100 && v[2] < TWO16 && v[3] < TWO16 && v[4] < TWO16
    && v[5] < 0x100 && v[6] < 0x100 && v[7] < TWO16 && v[8] < TWO32 && v[9] < TWO32
  }

  function IpHeaderOf(v: seq<nat>): IPv4Header
    requires IpValues(v)
  {
    IPv4Header(v[0] / 16, v[0] % 16, v[1], v[2], v[3],
               v[4] / 0x4000 % 2 == 1, v[4] / 0x2000 % 2 == 1, v[4] % 0x2000,
               v[5], v[6], v[7], v[8], v[9])
  }

  lemma ReadIpValues(p: Parser)
    ensures IpValues(ReadAll(p, IP_WIDTHS))
  {
    ReadBound(p, IP_WIDTHS);
    Widths();
    assert IP_WIDTHS[0] == 1 && IP_WIDTHS[1] == 1 && IP_WIDTHS[2] == 2 && IP_WIDTHS[3] == 2 && IP_WIDTHS[4] == 2;
    assert IP_WIDTHS[5] == 1 && IP_WIDTHS[6] == 1 && IP_WIDTHS[7] == 2 && IP_WIDTHS[8] == 4 && IP_WIDTHS[9] == 4;
  }

  datatype IpHeaderParse = IpHeaderParse(header: IPv4Header, parser: Parser, result: ParseResult)

  /** The header object after parsing; too short a packet leaves it alone and reads nothing. */
  function ParsedIpHeader(was: IPv4Header, p: Parser): IpHeaderParse {
    ReadIpValues(p);
    if |p.buffer| < IP_HEADER_LENGTH then IpHeaderParse(was, p, PacketTooShort)
    else Judged(p.buffer, IpHeaderOf(ReadAll(p, IP_WIDTHS)), AfterAll(p, IP_WIDTHS))
  }

  /** The tests the source makes once the fields are read, in its order. */
  function Judged(packet: seq<byte>, h: IPv4Header, q: Parser): IpHeaderParse {
    if |packet| < 4 * h.hlen then IpHeaderParse(h, q, PacketTooShort)
    else if h.ver != 4 then IpHeaderParse(h, q, WrongIPVersion)
    else if h.hlen < 5 then IpHeaderParse(h, q, HeaderTooShort)
    else if |packet| != h.len then IpHeaderParse(h, q, TruncatedPacket)
    else
      var r := AfterParse(q, h.hlen * 4 - IP_HEADER_LENGTH);
      if r.error != NoError then IpHeaderParse(h, r, r.error)
      else if CheckValue(Accumulated(0, packet[..4 * h.hlen])) != 0 then IpHeaderParse(h, r, BadChecksum)
      else IpHeaderParse(h, r, NoError)
  }

  function IpCheck(h: IPv4Header): u16
    requires h.ver == 4 && h.hlen >= 5
  {
    CheckValue(Accumulated(0, IpHeaderBytes(h.(cksum := 0)).value))
  }

  /** The source refuses a payload whose size is not the one the header announces. */
  function DatagramBytes(d: IPv4Datagram): Option<seq<byte>> {
    if |d.payload| != PayloadLength(d.header) then None
    else if IpHeaderBytes(d.header) == None then None
    else Some(IpHeaderBytes(d.header.(cksum := IpCheck(d.header))).value + d.payload)
  }

  /** The header parser's own result is not looked at, as in the source. */
  function ParsedDatagram(was: IPv4Datagram, buffer: seq<byte>): (IPv4Datagram, ParseResult) {
    Gathered(ParsedIpHeader(was.header, Parser(buffer, NoError)))
  }

  function Gathered(hp: IpHeaderParse): (IPv4Datagram, ParseResult) {
    var d := IPv4Datagram(hp.header, hp.parser.buffer);
    (d, if |d.payload| != PayloadLength(d.header) then PacketTooShort else hp.parser.error)
  }

  // ---------------------------------------------------------------- the pseudo-header

  /** Addresses, a zero, the protocol and the length of what the datagram carries. */
  function PseudoHeader(h: IPv4Header): seq<byte> {
    ToBytes(h.src, 4) + ToBytes(h.dst, 4) + [0, h.proto] + ToBytes(PayloadLength(h), 2)
  }

  lemma LongSum(v: u32)
    ensures WordSum(ToBytes(v, 4), false) == v / TWO16 + v % TWO16
  {
    LongBytes(v);
    WordSumConcat(ToBytes(v / TWO16, 2), ToBytes(v % TWO16, 2), false);
    ShortSum(v / TWO16);
    ShortSum(v % TWO16);
  }

  /** What the header contributes is the sum of the twelve bytes of pseudo-header. */
  lemma PseudoSumMeaning(h: IPv4Header)
    ensures |PseudoHeader(h)| == 12 && PseudoSum(h) == WordSum(PseudoHeader(h), false)
  {
    var src, dst, mid, len := ToBytes(h.src, 4), ToBytes(h.dst, 4), [0, h.proto], ToBytes(PayloadLength(h), 2);
    WordSumConcat(src, dst, false);
    WordSumConcat(src + dst, mid, false);
    WordSumConcat(src + dst + mid, len, false);
    LongSum(h.src);
    LongSum(h.dst);
    PairSum(0, h.proto);
    ShortSum(PayloadLength(h));
  }

  /** Summing the pseudo-header first is the same as starting from its sum. */
  lemma StartsFromPseudo(h: IPv4Header, payload: seq<byte>)
    ensures Accumulated(0, PseudoHeader(h) + payload) == Accumulated(PseudoSum(h), payload)
  {
    PseudoSumMeaning(h);
    WordSumConcat(PseudoHeader(h), payload, false);
  }

  // ---------------------------------------------------------------- there and back

  lemma IpFieldsFit(h: IPv4Header)
    ensures Lengths(IpFields(h)) == IP_WIDTHS
    ensures forall k :: 0 <= k < |IpFields(h)| ==> IpFields(h)[k].val < Pow256(IpFields(h)[k].len)
  {
    Widths();
  }

  lemma IpHeaderOfFields(h: IPv4Header)
    requires h.ver <= 15 && h.hlen <= 15 && h.offset < 0x2000
    ensures IpValues(Values(IpFields(h))) && IpHeaderOf(Values(IpFields(h))) == h
  {
    var v := Values(IpFields(h));
    assert v[0] == h.ver * 16 + h.hlen;
    assert v[4] == Bit(h.df, 0x4000) + Bit(h.mf, 0x2000) + h.offset;
  }

  lemma IpHeaderLength(h: IPv4Header)
    requires h.ver == 4 && h.hlen >= 5
    ensures |IpHeaderBytes(h).value| == 4 * h.hlen
  {
    IpFieldsFit(h);
    PackedLength(IpFields(h));
    IpWidths();
  }

  lemma IpWidths()
    ensures TotalWidth(IP_WIDTHS) == IP_HEADER_LENGTH
    ensures TotalWidth(IP_FRONT_WIDTHS) == 10
  {
    assert TotalWidth([2, 4, 4]) == 10;
    assert IP_WIDTHS[7..] == [2, 4, 4];
  }

  lemma IpFrontLength(h: IPv4Header)
    ensures |Packed(IpFront(h))| == 10
  {
    PackedLength(IpFront(h));
    assert Lengths(IpFront(h)) == IP_FRONT_WIDTHS;
    IpWidths();
  }

  lemma IpHeaderSplit(h: IPv4Header)
    requires h.ver == 4 && h.hlen >= 5
    ensures IpHeaderBytes(h).value ==
              Packed(IpFront(h)) + (ToBytes(h.cksum, 2)
                + (Packed([Field(h.src, 4), Field(h.dst, 4)]) + Zeros(4 * h.hlen - IP_HEADER_LENGTH)))
  {
    var back := [Field(h.cksum, 2), Field(h.src, 4), Field(h.dst, 4)];
    PackedConcat(IpFront(h), back);
    assert back[1..] == [Field(h.src, 4), Field(h.dst, 4)];
  }

  /** A header with its own checksum filled in checks out. */
  lemma IpChecksOut(h: IPv4Header)
    requires h.ver == 4 && h.hlen >= 5
    ensures CheckValue(Accumulated(0, IpHeaderBytes(h.(cksum := IpCheck(h))).value)) == 0
  {
    var c := IpCheck(h);
    var front := Packed(IpFront(h));
    var back := Packed([Field(h.src, 4), Field(h.dst, 4)]) + Zeros(4 * h.hlen - IP_HEADER_LENGTH);
    IpHeaderLength(h.(cksum := 0));
    IpFrontLength(h);
    assert IpFront(h.(cksum := c)) == IpFront(h) == IpFront(h.(cksum := 0));
    IpHeaderSplit(h.(cksum := c));
    IpHeaderSplit(h.(cksum := 0));
    SumAround(front, c, back);
    SumAround(front, 0, back);
    FieldCompletes(0, IpHeaderBytes(h.(cksum := 0)).value, IpHeaderBytes(h.(cksum := c)).value);
  }

  /** What the ten reads find at the front of a serialized datagram. */
  lemma IpFieldsRead(h: IPv4Header, payload: seq<byte>)
    requires h.ver == 4 && 5 <= h.hlen <= 15 && h.offset < 0x2000
    ensures var p := Parser(IpHeaderBytes(h).value + payload, NoError);
            && IpValues(ReadAll(p, IP_WIDTHS)) && IpHeaderOf(ReadAll(p, IP_WIDTHS)) == h
            && AfterAll(p, IP_WIDTHS) == Parser(Zeros(4 * h.hlen - IP_HEADER_LENGTH) + payload, NoError)
  {
    var zeros := Zeros(4 * h.hlen - IP_HEADER_LENGTH);
    assert IpHeaderBytes(h).value + payload == Packed(IpFields(h)) + (zeros + payload);
    IpFieldsFit(h);
    RecordRoundTrip(IpFields(h), zeros + payload);
    IpHeaderOfFields(h);
  }

  /** The datagram that comes back, field by field. */
  function Sealed(d: IPv4Datagram): IPv4Datagram
    requires d.header.ver == 4 && d.header.hlen >= 5
  {
    d.(header := d.header.(cksum := IpCheck(d.header)))
  }

  /** The tests on a header that checks out: the length decides whether the options are skipped. */
  lemma JudgedSealed(header: seq<byte>, zeros: seq<byte>, payload: seq<byte>, h: IPv4Header)
    requires h.ver == 4 && 5 <= h.hlen && |header| == 4 * h.hlen && |zeros| == 4 * h.hlen - IP_HEADER_LENGTH
    requires CheckValue(Accumulated(0, header)) == 0
    ensures Judged(header + payload, h, Parser(zeros + payload, NoError)) ==
            if h.len == 4 * h.hlen + |payload| then IpHeaderParse(h, Parser(payload, NoError), NoError)
            else IpHeaderParse(h, Parser(zeros + payload, NoError), TruncatedPacket)
  {
    assert (header + payload)[..4 * h.hlen] == header;
    SkipPrefix(zeros, payload);
  }

  lemma SealedHeaderParse(h: IPv4Header, payload: seq<byte>, was: IPv4Header)
    requires h.ver == 4 && 5 <= h.hlen <= 15 && h.offset < 0x2000
    ensures var bytes := IpHeaderBytes(h).value + payload;
            ParsedIpHeader(was, Parser(bytes, NoError)) ==
            Judged(bytes, h, Parser(Zeros(4 * h.hlen - IP_HEADER_LENGTH) + payload, NoError))
  {
    IpHeaderLength(h);
    IpFieldsRead(h, payload);
  }

  /** What is gathered from the two outcomes of the length test. */
  lemma GatheredIff(h: IPv4Header, zeros: seq<byte>, payload: seq<byte>)
    requires |payload| == PayloadLength(h)
    ensures Gathered(IpHeaderParse(h, Parser(payload, NoError), NoError)) == (IPv4Datagram(h, payload), NoError)
    ensures var g := Gathered(IpHeaderParse(h, Parser(zeros + payload, NoError), TruncatedPacket));
            g == (IPv4Datagram(h, payload), NoError) <==> zeros == []
  {
    if zeros == [] {
      assert zeros + payload == payload;
    }
  }

  lemma SealedParse(h: IPv4Header, payload: seq<byte>, was: IPv4Datagram)
    requires h.ver == 4 && 5 <= h.hlen <= 15 && h.offset < 0x2000
    requires |payload| == PayloadLength(h)
    requires CheckValue(Accumulated(0, IpHeaderBytes(h).value)) == 0
    ensures ParsedDatagram(was, IpHeaderBytes(h).value + payload) == (IPv4Datagram(h, payload), NoError)
       <==> h.len == 4 * h.hlen + |payload| || h.hlen == 5
  {
    var zeros := Zeros(4 * h.hlen - IP_HEADER_LENGTH);
    var bytes := IpHeaderBytes(h).value;
    IpHeaderLength(h);
    SealedHeaderParse(h, payload, was.header);
    JudgedSealed(bytes, zeros, payload, h);
    GatheredIff(h, zeros, payload);
    assert zeros == [] <==> h.hlen == 5;
  }

  /** No packet parses to a length or an offset wider than its field. */
  lemma ParsedFieldsFit(was: IPv4Header, p: Parser)
    requires |p.buffer| >= IP_HEADER_LENGTH
    ensures ParsedIpHeader(was, p).header.hlen <= 15 && ParsedIpHeader(was, p).header.offset < 0x2000
  {
    ReadIpValues(p);
    JudgedKeeps(p.buffer, IpHeaderOf(ReadAll(p, IP_WIDTHS)), AfterAll(p, IP_WIDTHS));
  }

  lemma JudgedKeeps(packet: seq<byte>, h: IPv4Header, q: Parser)
    ensures Judged(packet, h, q).header == h
  {
  }

  /** Length and offset fit the bits they have on the wire. */
  predicate FitsWire(h: IPv4Header) {
    h.hlen <= 15 && h.offset < 0x2000
  }

  /**
   The datagram round trip: what the source agrees to serialize is parsed back
   without error to the same datagram exactly when the header length and offset fit
   their fields, and the announced length is the real one or the header has no
   options, so that nothing is left to skip after the length test has failed.
   */
  lemma DatagramRoundTripIff(d: IPv4Datagram, was: IPv4Datagram)
    requires DatagramBytes(d).Some?
    ensures d.header.ver == 4 && 5 <= d.header.hlen
    ensures ParsedDatagram(was, DatagramBytes(d).value) == (Sealed(d), NoError)
       <==> FitsWire(d.header) && (d.header.len == 4 * d.header.hlen + |d.payload| || d.header.hlen == 5)
  {
    if FitsWire(d.header) {
      FittingRoundTripIff(d, was);
    } else {
      var h := Sealed(d).header;
      IpHeaderLength(h);
      ParsedFieldsFit(was.header, Parser(IpHeaderBytes(h).value + d.payload, NoError));
      assert ParsedDatagram(was, DatagramBytes(d).value).0.header != h;
    }
  }

  lemma FittingRoundTripIff(d: IPv4Datagram, was: IPv4Datagram)
    requires d.header.ver == 4 && 5 <= d.header.hlen && FitsWire(d.header)
    requires |d.payload| == PayloadLength(d.header)
    ensures DatagramBytes(d).Some?
    ensures ParsedDatagram(was, DatagramBytes(d).value) == (Sealed(d), NoError)
       <==> d.header.len == 4 * d.header.hlen + |d.payload| || d.header.hlen == 5
  {
    var h := Sealed(d).header;
    IpChecksOut(d.header);
    assert PayloadLength(h) == PayloadLength(d.header);
    SealedParse(h, d.payload, was);
    assert DatagramBytes(d) == Some(IpHeaderBytes(h).value + d.payload);
    assert Sealed(d) == IPv4Datagram(h, d.payload);
  }

  // ---------------------------------------------------------------- as the source runs it

  method SerializeIpHeader(h: IPv4Header) returns (r: Option<seq<byte>>)
    ensures r == IpHeaderBytes(h)
  {
    if h.ver != 4 || 4 * h.hlen < IP_HEADER_LENGTH {
      return None;
    }
    var bytes := WriteFields(IpFields(h));
    r := Some(bytes + Zeros(4 * h.hlen - IP_HEADER_LENGTH));
  }

  method ParseIpHeader(was: IPv4Header, p: NetParser) returns (h: IPv4Header, result: ParseResult)
    modifies p
    ensures IpHeaderParse(h, p.State(), result) == ParsedIpHeader(was, old(p.State()))
  {
    var packet := p.buffer;
    if |packet| < IP_HEADER_LENGTH {
      return was, PacketTooShort;
    }
    ReadIpValues(p.State());
    var vs := p.ReadFields(IP_WIDTHS);
    h := IpHeaderOf(vs);
    result := JudgeHeader(packet, h, p);
  }

  method JudgeHeader(packet: seq<byte>, h: IPv4Header, p: NetParser) returns (result: ParseResult)
    modifies p
    ensures IpHeaderParse(h, p.State(), result) == Judged(packet, h, old(p.State()))
  {
    if |packet| < 4 * h.hlen {
      return PacketTooShort;
    }
    if h.ver != 4 {
      return WrongIPVersion;
    }
    if h.hlen < 5 {
      return HeaderTooShort;
    }
    if |packet| != h.len {
      return TruncatedPacket;
    }
    p.RemovePrefix(h.hlen * 4 - IP_HEADER_LENGTH);
    if p.error != NoError {
      return p.error;
    }
    var c := CheckBuffer(0, packet[..4 * h.hlen]);
    result := if c != 0 then BadChecksum else NoError;
  }

  method SerializeDatagram(d: IPv4Datagram) returns (r: Option<seq<byte>>)
    ensures r == DatagramBytes(d)
  {
    if |d.payload| != PayloadLength(d.header) {
      return None;
    }
    var header := SerializeIpHeader(d.header.(cksum := 0));
    if header.None? {
      return None;
    }
    var c := CheckBuffer(0, header.value);
    var out := SerializeIpHeader(d.header.(cksum := c));
    r := Some(out.value + d.payload);
  }

  method ParseDatagram(was: IPv4Datagram, buffer: seq<byte>) returns (d: IPv4Datagram, result: ParseResult)
    ensures (d, result) == ParsedDatagram(was, buffer)
  {
    var p := new NetParser(buffer);
    var h, _ := ParseIpHeader(was.header, p);
    d := IPv4Datagram(h, p.buffer);
    result := if |d.payload| != PayloadLength(d.header) then PacketTooShort else p.error;
  }
}
