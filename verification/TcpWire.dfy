/** A TCP segment as bytes, section 3.1 of RFC 793, and back. */
module TcpWire {
  import opened Words
  import opened Segments
  import opened Checksums
  import opened Parsing

  function Bit(b: bool, weight: nat): nat {
    if b then weight else 0
  }

  /** The flag byte. */
  function Flags(h: TCPHeader): byte {
    Bit(h.urg, 32) + Bit(h.ack, 16) + Bit(h.psh, 8) + Bit(h.rst, 4) + Bit(h.syn, 2) + Bit(h.fin, 1)
  }

  predicate HasBit(b: byte, weight: nat)
    requires weight > 0
  {
    b / weight % 2 == 1
  }

  function Zeros(n: nat): (r: seq<byte>)
    ensures |r| == n
  {
    if n == 0 then [] else [0] + Zeros(n - 1)
  }

  const FRONT_WIDTHS: seq<nat> := [2, 2, 4, 4, 1, 1, 2]
  const HEADER_WIDTHS: seq<nat> := [2, 2, 4, 4, 1, 1, 2, 2, 2]

  /** The fields before the checksum. */
  function FrontFields(h: TCPHeader): seq<Field> {
    [Field(h.sport, 2), Field(h.dport, 2), Field(h.seqno, 4), Field(h.ackno, 4),
     Field((h.doff * 16) % 0x100, 1), Field(Flags(h), 1), Field(h.win, 2)]
  }

  function HeaderFields(h: TCPHeader): seq<Field> {
    FrontFields(h) + [Field(h.cksum, 2), Field(h.uptr, 2)]
  }

  /** The header in bytes, filled up with zeros to the length it announces; too short an announcement is an error. */
  function HeaderBytes(h: TCPHeader): Option<seq<byte>> {
    if h.doff < 5 then None else Some(Packed(HeaderFields(h)) + Zeros(4 * h.doff - HEADER_LENGTH))
  }

  predicate HeaderValues(v: seq<nat>) {
    && |v| == 9
    && v[0] < TWO16 && v[1] < TWO16 && v[2] < TWO32 && v[3] < TWO32 && v[4] < 0x100
    && v[5] < 0x100 && v[6] < TWO16 && v[7] < TWO16 && v[8] < TWO16
  }

  /** The header its field values stand for. */
  function HeaderOf(v: seq<nat>): TCPHeader
    requires HeaderValues(v)
  {
    TCPHeader(v[0], v[1], v[2], v[3], v[4] / 16,
              HasBit(v[5], 32), HasBit(v[5], 16), HasBit(v[5], 8), HasBit(v[5], 4), HasBit(v[5], 2), HasBit(v[5], 1),
              v[6], v[7], v[8])
  }

  lemma ReadHeaderValues(p: Parser)
    ensures HeaderValues(ReadAll(p, HEADER_WIDTHS))
  {
    ReadBound(p, HEADER_WIDTHS);
    Widths();
    assert HEADER_WIDTHS[0] == 2 && HEADER_WIDTHS[1] == 2 && HEADER_WIDTHS[2] == 4 && HEADER_WIDTHS[3] == 4;
    assert HEADER_WIDTHS[4] == 1 && HEADER_WIDTHS[5] == 1;
    assert HEADER_WIDTHS[6] == 2 && HEADER_WIDTHS[7] == 2 && HEADER_WIDTHS[8] == 2;
  }

  datatype HeaderParse = HeaderParse(header: TCPHeader, parser: Parser, result: ParseResult)

  function ParsedHeader(p: Parser): HeaderParse {
    ReadHeaderValues(p);
    OptionsSkipped(HeaderOf(ReadAll(p, HEADER_WIDTHS)), AfterAll(p, HEADER_WIDTHS))
  }

  /** Once the fields are read the options are skipped, unless the header is too short. */
  function OptionsSkipped(h: TCPHeader, q: Parser): HeaderParse {
    if h.doff < 5 then HeaderParse(h, q, HeaderTooShort)
    else
      var r := AfterParse(q, h.doff * 4 - HEADER_LENGTH);
      HeaderParse(h, r, r.error)
  }

  // ---------------------------------------------------------------- the header, there and back

  lemma FlagsRoundTrip(h: TCPHeader)
    ensures HasBit(Flags(h), 32) == h.urg && HasBit(Flags(h), 16) == h.ack && HasBit(Flags(h), 8) == h.psh
    ensures HasBit(Flags(h), 4) == h.rst && HasBit(Flags(h), 2) == h.syn && HasBit(Flags(h), 1) == h.fin
  {
  }

  lemma FieldsFit(h: TCPHeader)
    ensures Lengths(HeaderFields(h)) == HEADER_WIDTHS
    ensures forall k :: 0 <= k < |HeaderFields(h)| ==> HeaderFields(h)[k].val < Pow256(HeaderFields(h)[k].len)
  {
    Widths();
  }

  lemma HeaderOfFields(h: TCPHeader)
    requires h.doff <= 15
    ensures HeaderValues(Values(HeaderFields(h))) && HeaderOf(Values(HeaderFields(h))) == h
  {
    FlagsRoundTrip(h);
    var v := Values(HeaderFields(h));
    assert v[4] == h.doff * 16 && v[5] == Flags(h);
  }

  /** Every field comes back, and the parser stands at the payload. */
  lemma HeaderRoundTrip(h: TCPHeader, payload: seq<byte>)
    requires 5 <= h.doff <= 15
    ensures ParsedHeader(Parser(HeaderBytes(h).value + payload, NoError))
         == HeaderParse(h, Parser(payload, NoError), NoError)
  {
    var zeros := Zeros(4 * h.doff - HEADER_LENGTH);
    var p := Parser(Packed(HeaderFields(h)) + (zeros + payload), NoError);
    assert HeaderBytes(h).value + payload == p.buffer;
    FieldsFit(h);
    RecordRoundTrip(HeaderFields(h), zeros + payload);
    HeaderOfFields(h);
    SkipPrefix(zeros, payload);
  }

  /** Of the data offset only the four bits its field has go out. */
  function OnWire(h: TCPHeader): TCPHeader {
    h.(doff := h.doff % 16)
  }

  lemma OnWireFields(h: TCPHeader)
    ensures HeaderFields(h) == HeaderFields(OnWire(h))
  {
    OffsetBits(h.doff);
  }

  lemma OffsetBits(doff: byte)
    ensures (doff * 16) % 0x100 == (doff % 16) * 16 == (doff % 16 * 16) % 0x100
  {
  }

  /** `w` has the same fields as the header written, which is followed by at least as much as `w` announces. */
  lemma SameFieldsRead(w: TCPHeader, rest: seq<byte>)
    requires w.doff <= 15 && 4 * w.doff <= HEADER_LENGTH + |rest|
    ensures var hp := ParsedHeader(Parser(Packed(HeaderFields(w)) + rest, NoError));
            hp.header == w && hp.parser.error == NoError
  {
    FieldsFit(w);
    RecordRoundTrip(HeaderFields(w), rest);
    HeaderOfFields(w);
    NothingMissing(w, Parser(rest, NoError));
  }

  lemma NothingMissing(h: TCPHeader, q: Parser)
    requires q.error == NoError && 4 * h.doff <= HEADER_LENGTH + |q.buffer|
    ensures OptionsSkipped(h, q).header == h && OptionsSkipped(h, q).parser.error == NoError
  {
  }

  /** A header too long for its field is still read without a parser error, but for the offset. */
  lemma LongHeaderRead(h: TCPHeader, w: TCPHeader, payload: seq<byte>)
    requires h.doff >= 5 && w.doff <= h.doff && w.doff <= 15 && HeaderFields(h) == HeaderFields(w)
    ensures var hp := ParsedHeader(Parser(HeaderBytes(h).value + payload, NoError));
            hp.header == w && hp.parser.error == NoError
  {
    var rest := Zeros(4 * h.doff - HEADER_LENGTH) + payload;
    assert HeaderBytes(h).value + payload == Packed(HeaderFields(w)) + rest;
    SameFieldsRead(w, rest);
  }

  // ---------------------------------------------------------------- the segment

  function SegmentCheck(seg: TCPSegment, pseudo: u32): u16
    requires seg.header.doff >= 5
  {
    CheckValue(Accumulated(pseudo, HeaderBytes(seg.header.(cksum := 0)).value + seg.payload))
  }

  function SegmentBytes(seg: TCPSegment, pseudo: u32): Option<seq<byte>> {
    if seg.header.doff < 5 then None
    else Some(HeaderBytes(seg.header.(cksum := SegmentCheck(seg, pseudo))).value + seg.payload)
  }

  /** The segment object after parsing, and the result; a bad checksum leaves the object alone. */
  function ParsedSegment(was: TCPSegment, buffer: seq<byte>, pseudo: u32): (TCPSegment, ParseResult) {
    if CheckValue(Accumulated(pseudo, buffer)) != 0 then (was, BadChecksum)
    else WithPayload(ParsedHeader(Parser(buffer, NoError)))
  }

  /** What the header leaves is the payload; the error is the parser's. */
  function WithPayload(hp: HeaderParse): (TCPSegment, ParseResult) {
    (TCPSegment(hp.header, hp.parser.buffer), hp.parser.error)
  }

  lemma FrontLength(h: TCPHeader)
    ensures |Packed(FrontFields(h))| == 16
  {
    PackedLength(FrontFields(h));
    assert Lengths(FrontFields(h)) == FRONT_WIDTHS;
    assert TotalWidth(FRONT_WIDTHS) == 16;
  }

  lemma HeaderSplit(h: TCPHeader, payload: seq<byte>)
    requires h.doff >= 5
    ensures HeaderBytes(h).value + payload ==
              Packed(FrontFields(h)) + (ToBytes(h.cksum, 2)
                + (Packed([Field(h.uptr, 2)]) + Zeros(4 * h.doff - HEADER_LENGTH) + payload))
  {
    PackedConcat(FrontFields(h), [Field(h.cksum, 2), Field(h.uptr, 2)]);
    assert [Field(h.cksum, 2), Field(h.uptr, 2)][1..] == [Field(h.uptr, 2)];
  }

  lemma PairSum(x: byte, y: byte)
    ensures WordSum([x, y], false) == x * 0x100 + y
  {
    assert [x, y][1..] == [y] && [y][1..] == [];
    assert WordSum([y], true) == y + WordSum([], false);
  }

  lemma ShortSum(c: u16)
    ensures WordSum(ToBytes(c, 2), false) == c
  {
    ShortBytes(c);
    PairSum(c / 0x100, c % 0x100);
  }

  lemma SumAround(front: seq<byte>, c: u16, back: seq<byte>)
    requires |front| % 2 == 0
    ensures WordSum(front + (ToBytes(c, 2) + back), false) == WordSum(front, false) + c + WordSum(back, false)
  {
    WordSumConcat(front, ToBytes(c, 2) + back, false);
    WordSumConcat(ToBytes(c, 2), back, false);
    ShortSum(c);
  }

  /** What follows the checksum field. */
  function Back(h: TCPHeader, payload: seq<byte>): seq<byte>
    requires h.doff >= 5
  {
    Packed([Field(h.uptr, 2)]) + Zeros(4 * h.doff - HEADER_LENGTH) + payload
  }

  lemma HeaderAround(h: TCPHeader, c: u16, payload: seq<byte>)
    requires h.doff >= 5
    ensures HeaderBytes(h.(cksum := c)).value + payload
         == Packed(FrontFields(h)) + (ToBytes(c, 2) + Back(h, payload))
  {
    assert FrontFields(h.(cksum := c)) == FrontFields(h);
    HeaderSplit(h.(cksum := c), payload);
  }

  /** The checksum field adds its own value to the sum. */
  lemma CheckFieldSum(h: TCPHeader, c: u16, payload: seq<byte>)
    requires h.doff >= 5
    ensures WordSum(HeaderBytes(h.(cksum := c)).value + payload, false)
         == WordSum(HeaderBytes(h.(cksum := 0)).value + payload, false) + c
  {
    FrontLength(h);
    HeaderAround(h, c, payload);
    HeaderAround(h, 0, payload);
    SumAround(Packed(FrontFields(h)), c, Back(h, payload));
    SumAround(Packed(FrontFields(h)), 0, Back(h, payload));
  }

  /** Data whose sum exceeds another's by that one's check value checks out. */
  lemma FieldCompletes(initial: u32, plain: seq<byte>, full: seq<byte>)
    requires WordSum(full, false) == WordSum(plain, false) + CheckValue(Accumulated(initial, plain))
    ensures CheckValue(Accumulated(initial, full)) == 0
  {
    var c := CheckValue(Accumulated(initial, plain));
    ChecksOut(Accumulated(initial, plain));
    ModPlus(initial + WordSum(plain, false), c);
    assert initial + WordSum(full, false) == initial + WordSum(plain, false) + c;
  }

  /** What was serialized with a sum checks out with that sum. */
  lemma SegmentChecksOut(seg: TCPSegment, pseudo: u32)
    requires seg.header.doff >= 5
    ensures CheckValue(Accumulated(pseudo, SegmentBytes(seg, pseudo).value)) == 0
  {
    var c := SegmentCheck(seg, pseudo);
    var plain := HeaderBytes(seg.header.(cksum := 0)).value + seg.payload;
    var full := HeaderBytes(seg.header.(cksum := c)).value + seg.payload;
    CheckFieldSum(seg.header, c, seg.payload);
    FieldCompletes(pseudo, plain, full);
  }

  /** The segment with the checksum the source computes for it. */
  function Checked(seg: TCPSegment, pseudo: u32): TCPSegment
    requires seg.header.doff >= 5
  {
    seg.(header := seg.header.(cksum := SegmentCheck(seg, pseudo)))
  }

  /**
   The segment round trip, for every header length the field can hold, every
   payload and every pseudo-header sum, wrapped or not: parsing what was
   serialized with the same sum reports no error and gives back the payload and
   every field, the checksum being the one computed.
   */
  lemma SegmentRoundTrip(seg: TCPSegment, pseudo: u32, was: TCPSegment)
    requires 5 <= seg.header.doff <= 15
    ensures ParsedSegment(was, SegmentBytes(seg, pseudo).value, pseudo) == (Checked(seg, pseudo), NoError)
  {
    SegmentChecksOut(seg, pseudo);
    HeaderRoundTrip(Checked(seg, pseudo).header, seg.payload);
  }

  /**
   Everything the source agrees to serialize is parsed without error, all header
   fields but the offset as they were; the segment is the same exactly when the
   offset fits the four bits it has on the wire.
   */
  lemma SegmentRoundTripIff(seg: TCPSegment, pseudo: u32, was: TCPSegment)
    requires SegmentBytes(seg, pseudo).Some?
    ensures var got := ParsedSegment(was, SegmentBytes(seg, pseudo).value, pseudo);
            && got.1 == NoError
            && got.0.header == OnWire(Checked(seg, pseudo).header)
            && (got.0 == Checked(seg, pseudo) <==> seg.header.doff <= 15)
  {
    SegmentChecksOut(seg, pseudo);
    var h := Checked(seg, pseudo).header;
    OnWireFields(h);
    LongHeaderRead(h, OnWire(h), seg.payload);
    if seg.header.doff <= 15 {
      SegmentRoundTrip(seg, pseudo, was);
    }
  }

  /** A serialized segment with any one byte changed is refused, and the object parsed into is left alone. */
  lemma CorruptSegmentRefused(seg: TCPSegment, pseudo: u32, was: TCPSegment, k: nat, x: byte)
    requires SegmentBytes(seg, pseudo).Some? && k < |SegmentBytes(seg, pseudo).value|
    requires x != SegmentBytes(seg, pseudo).value[k]
    ensures ParsedSegment(was, SegmentBytes(seg, pseudo).value[k := x], pseudo) == (was, BadChecksum)
  {
    SegmentChecksOut(seg, pseudo);
    CorruptionNoticed(pseudo, SegmentBytes(seg, pseudo).value, k, x);
  }

  // ---------------------------------------------------------------- as the source runs it

  method SerializeHeader(h: TCPHeader) returns (r: Option<seq<byte>>)
    ensures r == HeaderBytes(h)
  {
    if h.doff < 5 {
      return None;
    }
    var bytes := WriteFields(HeaderFields(h));
    r := Some(bytes + Zeros(4 * h.doff - HEADER_LENGTH));
  }

  method ParseHeader(p: NetParser) returns (h: TCPHeader, result: ParseResult)
    modifies p
    ensures HeaderParse(h, p.State(), result) == ParsedHeader(old(p.State()))
  {
    ReadHeaderValues(p.State());
    var vs := p.ReadFields(HEADER_WIDTHS);
    h := HeaderOf(vs);
    if h.doff < 5 {
      return h, HeaderTooShort;
    }
    p.RemovePrefix(h.doff * 4 - HEADER_LENGTH);
    result := p.error;
  }

  /** One checksum over header and payload, added in two calls. */
  method SerializeSegment(seg: TCPSegment, pseudo: u32) returns (r: Option<seq<byte>>)
    ensures r == SegmentBytes(seg, pseudo)
  {
    var header := SerializeHeader(seg.header.(cksum := 0));
    if header.None? {
      return None;
    }
    var check := new InternetChecksum(pseudo);
    check.Add(header.value);
    check.Add(seg.payload);
    HeaderIsEven(seg.header.(cksum := 0));
    WordSumConcat(header.value, seg.payload, false);
    WrapAdd(pseudo + WordSum(header.value, false), WordSum(seg.payload, false));
    var c := check.Value();
    var out := SerializeHeader(seg.header.(cksum := c));
    r := Some(out.value + seg.payload);
  }

  lemma HeaderIsEven(h: TCPHeader)
    requires h.doff >= 5
    ensures |HeaderBytes(h).value| == 4 * h.doff
  {
    FieldsFit(h);
    PackedLength(HeaderFields(h));
    assert TotalWidth(HEADER_WIDTHS) == HEADER_LENGTH;
  }

  method ParseChecked(buffer: seq<byte>) returns (seg: TCPSegment, result: ParseResult)
    ensures (seg, result) == WithPayload(ParsedHeader(Parser(buffer, NoError)))
  {
    var p := new NetParser(buffer);
    var h, _ := ParseHeader(p);
    seg, result := TCPSegment(h, p.buffer), p.error;
  }

  /** One pass of the checksum over a buffer. */
  method CheckBuffer(initial: u32, buffer: seq<byte>) returns (c: u16)
    ensures c == CheckValue(Accumulated(initial, buffer))
  {
    var check := new InternetChecksum(initial);
    check.Add(buffer);
    c := check.Value();
  }

  method ParseSegment(was: TCPSegment, buffer: seq<byte>, pseudo: u32) returns (seg: TCPSegment, result: ParseResult)
    ensures (seg, result) == ParsedSegment(was, buffer, pseudo)
  {
    var c := CheckBuffer(pseudo, buffer);
    if c != 0 {
      return was, BadChecksum;
    }
    seg, result := ParseChecked(buffer);
  }
}
