/**
 What is accepted off the wire, read from the raw bytes: exactly which buffers parse
 as a segment or a datagram, and exactly which datagrams an adapter hands up.
 */
module WireVerdicts {
  import opened Words
  import opened Segments
  import opened Checksums
  import opened Parsing
  import opened TcpWire
  import opened Ipv4Wire
  import opened TcpOverIp
  import opened WireLayout

  // ---------------------------------------------------------------- reading fields by offset

  /** Where the field with index `k` begins. */
  function Begin(lens: seq<nat>, k: nat): nat
    requires k <= |lens|
  {
    if k == 0 then 0 else Begin(lens, k - 1) + lens[k - 1]
  }

  lemma {:induction false} BeginCons(lens: seq<nat>, k: nat)
    requires 0 < k <= |lens|
    ensures Begin(lens, k) == lens[0] + Begin(lens[1..], k - 1)
  {
    if k > 1 {
      BeginCons(lens, k - 1);
    }
  }

  lemma ShiftSlice(b: seq<byte>, m: nat, i: nat, n: nat)
    requires m + i + n <= |b|
    ensures b[m..][i..i + n] == b[m + i..m + i + n]
  {
  }

  /** Field `k` is read from the bytes `s`. */
  predicate ReadsAs(p: Parser, lens: seq<nat>, k: nat, s: seq<byte>) {
    k < |lens| && ReadAll(p, lens)[k] == BigEndian(s)
  }

  lemma ReadAllCons(p: Parser, lens: seq<nat>, k: nat)
    requires p.error == NoError && 0 < k < |lens| && lens[0] <= |p.buffer|
    ensures ReadAll(p, lens)[k] == ReadAll(Parser(p.buffer[lens[0]..], NoError), lens[1..])[k - 1]
  {
    assert AfterParse(p, lens[0]) == Parser(p.buffer[lens[0]..], NoError);
  }

  lemma ReadCons(p: Parser, lens: seq<nat>, k: nat, s: seq<byte>)
    requires p.error == NoError && 0 < k < |lens| && lens[0] <= |p.buffer|
    requires ReadsAs(Parser(p.buffer[lens[0]..], NoError), lens[1..], k - 1, s)
    ensures ReadsAs(p, lens, k, s)
  {
    ReadAllCons(p, lens, k);
  }

  lemma ReadFirst(p: Parser, lens: seq<nat>)
    requires p.error == NoError && lens != [] && lens[0] <= |p.buffer|
    ensures ReadsAs(p, lens, 0, p.buffer[..lens[0]])
  {
  }

  /** Every field is read from its own place. */
  lemma {:induction false} ReadAt(p: Parser, lens: seq<nat>, k: nat) returns (s: seq<byte>)
    requires p.error == NoError && k < |lens| && TotalWidth(lens) <= |p.buffer|
    ensures Begin(lens, k) + lens[k] <= |p.buffer| && s == p.buffer[Begin(lens, k)..Begin(lens, k) + lens[k]]
    ensures ReadsAs(p, lens, k, s)
    decreases |lens|
  {
    if k == 0 {
      s := p.buffer[..lens[0]];
      ReadFirst(p, lens);
    } else {
      s := ReadAt(Parser(p.buffer[lens[0]..], NoError), lens[1..], k - 1);
      ReadCons(p, lens, k, s);
      BeginCons(lens, k);
      ShiftSlice(p.buffer, lens[0], Begin(lens[1..], k - 1), lens[k]);
    }
  }

  /** Reading runs out of bytes exactly when there are fewer than the widths add up to. */
  lemma {:induction false} AllRead(p: Parser, lens: seq<nat>)
    requires p.error == NoError
    ensures var q := AfterAll(p, lens);
            if TotalWidth(lens) <= |p.buffer| then q == Parser(p.buffer[TotalWidth(lens)..], NoError)
            else q.error == PacketTooShort
    decreases |lens|
  {
    if lens != [] {
      if lens[0] <= |p.buffer| {
        AllRead(AfterParse(p, lens[0]), lens[1..]);
      } else {
        StaysShort(AfterParse(p, lens[0]), lens[1..]);
      }
    }
  }

  lemma {:induction false} StaysShort(p: Parser, lens: seq<nat>)
    requires p.error == PacketTooShort
    ensures AfterAll(p, lens).error == PacketTooShort
    decreases |lens|
  {
    if lens != [] {
      StaysShort(AfterParse(p, lens[0]), lens[1..]);
    }
  }

  lemma ByteRead(b: seq<byte>, i: nat)
    requires i < |b|
    ensures BigEndian(b[i..i + 1]) == b[i]
  {
    var s := b[i..i + 1];
    assert s[..0] == [];
    assert BigEndian(s) == BigEndian(s[..0]) * 0x100 + s[0];
  }

  lemma ShortRead(b: seq<byte>, i: nat)
    requires i + 2 <= |b|
    ensures BigEndian(b[i..i + 2]) == Short(b, i)
  {
    ByteRead(b, i);
    var s := b[i..i + 2];
    assert s[..1] == b[i..i + 1] && s[1] == b[i + 1];
  }

  lemma LongRead(b: seq<byte>, i: nat)
    requires i + 4 <= |b|
    ensures BigEndian(b[i..i + 4]) == Long(b, i)
  {
    ShortRead(b, i);
    var s, t := b[i..i + 4], b[i..i + 3];
    assert t[..2] == b[i..i + 2] && t[2] == b[i + 2];
    assert s[..3] == t && s[3] == b[i + 3];
    assert BigEndian(t) == Short(b, i) * 0x100 + b[i + 2];
  }

  predicate Holds(b: seq<byte>, lens: seq<nat>, k: nat, i: nat, n: nat) {
    k < |lens| && TotalWidth(lens) <= |b| && Begin(lens, k) == i && lens[k] == n
  }

  lemma ByteValue(b: seq<byte>, lens: seq<nat>, k: nat, i: nat)
    requires Holds(b, lens, k, i, 1)
    ensures i < |b| && ReadAll(Parser(b, NoError), lens)[k] == b[i]
  {
    var s := ReadAt(Parser(b, NoError), lens, k);
    ByteRead(b, i);
  }

  lemma ShortValue(b: seq<byte>, lens: seq<nat>, k: nat, i: nat)
    requires Holds(b, lens, k, i, 2)
    ensures i + 2 <= |b| && ReadAll(Parser(b, NoError), lens)[k] == Short(b, i)
  {
    var s := ReadAt(Parser(b, NoError), lens, k);
    ShortRead(b, i);
  }

  lemma LongValue(b: seq<byte>, lens: seq<nat>, k: nat, i: nat)
    requires Holds(b, lens, k, i, 4)
    ensures i + 4 <= |b| && ReadAll(Parser(b, NoError), lens)[k] == Long(b, i)
  {
    var s := ReadAt(Parser(b, NoError), lens, k);
    LongRead(b, i);
  }

  // ---------------------------------------------------------------- the TCP header

  lemma TcpBegins()
    ensures var w := HEADER_WIDTHS;
            && Begin(w, 0) == 0 && Begin(w, 1) == 2 && Begin(w, 2) == 4 && Begin(w, 3) == 8 && Begin(w, 4) == 12
            && Begin(w, 5) == 13 && Begin(w, 6) == 14 && Begin(w, 7) == 16 && Begin(w, 8) == 18
            && TotalWidth(w) == 20
  {
    var w := HEADER_WIDTHS;
    assert Begin(w, 1) == 2;
    assert Begin(w, 2) == 4;
    assert Begin(w, 3) == 8;
    assert Begin(w, 4) == 12;
    assert Begin(w, 5) == 13;
    assert Begin(w, 6) == 14;
    assert Begin(w, 7) == 16;
    assert TotalWidth([2, 2, 2]) == 6 && w[6..] == [2, 2, 2];
    assert TotalWidth(w[4..]) == 8;
    assert TotalWidth(w[2..]) == 16;
  }

  /** The numbers read for a TCP header. */
  lemma TcpValues(b: seq<byte>) returns (v: seq<nat>)
    requires |b| >= 20
    ensures v == ReadAll(Parser(b, NoError), HEADER_WIDTHS)
    ensures v[0] == Short(b, 0) && v[1] == Short(b, 2) && v[2] == Long(b, 4) && v[3] == Long(b, 8)
    ensures v[4] == b[12] && v[5] == b[13] && v[6] == Short(b, 14) && v[7] == Short(b, 16) && v[8] == Short(b, 18)
  {
    var w := HEADER_WIDTHS;
    v := ReadAll(Parser(b, NoError), w);
    TcpBegins();
    ShortValue(b, w, 0, 0);
    ShortValue(b, w, 1, 2);
    LongValue(b, w, 2, 4);
    LongValue(b, w, 3, 8);
    ByteValue(b, w, 4, 12);
    ByteValue(b, w, 5, 13);
    ShortValue(b, w, 6, 14);
    ShortValue(b, w, 7, 16);
    ShortValue(b, w, 8, 18);
  }

  /** The fields of a TCP header at their offsets in a buffer. */
  predicate TcpFieldsAt(h: TCPHeader, b: seq<byte>)
    requires |b| >= 20
  {
    && h.sport == Short(b, 0) && h.dport == Short(b, 2) && h.seqno == Long(b, 4) && h.ackno == Long(b, 8)
    && h.doff == b[12] / 16
    && (h.fin <==> HasBit(b[13], 1)) && (h.syn <==> HasBit(b[13], 2)) && (h.rst <==> HasBit(b[13], 4))
    && (h.psh <==> HasBit(b[13], 8)) && (h.ack <==> HasBit(b[13], 16)) && (h.urg <==> HasBit(b[13], 32))
    && h.win == Short(b, 14) && h.cksum == Short(b, 16) && h.uptr == Short(b, 18)
  }

  lemma HeaderIs(p: Parser, v: seq<nat>)
    requires v == ReadAll(p, HEADER_WIDTHS) && HeaderValues(v)
    ensures ParsedHeader(p) == OptionsSkipped(HeaderOf(v), AfterAll(p, HEADER_WIDTHS))
    ensures ParsedHeader(p).header == HeaderOf(v)
  {
  }

  /** Whatever the buffer holds, the header parsed off it has the fields at their offsets. */
  lemma TcpRead(b: seq<byte>)
    requires |b| >= 20
    ensures TcpFieldsAt(ParsedHeader(Parser(b, NoError)).header, b)
  {
    var v := TcpValues(b);
    ReadHeaderValues(Parser(b, NoError));
    HeaderIs(Parser(b, NoError), v);
  }

  lemma SkippedIff(h: TCPHeader, q: Parser)
    ensures OptionsSkipped(h, q).header == h
    ensures q.error == PacketTooShort ==> OptionsSkipped(h, q).parser.error == PacketTooShort
    ensures q.error == NoError && h.doff < 5 ==> OptionsSkipped(h, q).parser == q
    ensures q.error == NoError && h.doff >= 5 ==>
              if 4 * h.doff - 20 > |q.buffer| then OptionsSkipped(h, q).parser.error == PacketTooShort
              else OptionsSkipped(h, q).parser == Parser(q.buffer[4 * h.doff - 20..], NoError)
  {
  }

  lemma SkipsOptions(b: seq<byte>, n: nat)
    requires 20 <= n <= |b|
    ensures AfterParse(Parser(b[20..], NoError), n - 20) == Parser(b[n..], NoError)
  {
  }

  lemma ShortHeader(b: seq<byte>)
    requires |b| < 20
    ensures ParsedHeader(Parser(b, NoError)).parser.error == PacketTooShort
  {
    var p := Parser(b, NoError);
    TcpBegins();
    AllRead(p, HEADER_WIDTHS);
    ReadHeaderValues(p);
    SkippedIff(HeaderOf(ReadAll(p, HEADER_WIDTHS)), AfterAll(p, HEADER_WIDTHS));
  }

  /** Where the parser of a header stops. */
  lemma HeaderVerdict(b: seq<byte>)
    requires |b| >= 20
    ensures var q := ParsedHeader(Parser(b, NoError)).parser;
            if b[12] < 0x50 then q == Parser(b[20..], NoError)
            else if 4 * (b[12] / 16) <= |b| then q == Parser(b[4 * (b[12] / 16)..], NoError)
            else q.error == PacketTooShort
  {
    var p := Parser(b, NoError);
    TcpBegins();
    AllRead(p, HEADER_WIDTHS);
    TcpRead(b);
    var v := TcpValues(b);
    ReadHeaderValues(p);
    HeaderIs(p, v);
    SkippedIff(HeaderOf(v), Parser(b[20..], NoError));
    if 20 <= 4 * (b[12] / 16) <= |b| {
      SkipsOptions(b, 4 * (b[12] / 16));
    }
  }

  /** Which buffers parse as a segment, and what payload comes of them. */
  lemma SegmentAcceptedIff(b: seq<byte>, pseudo: u32, was: TCPSegment)
    ensures ParsedSegment(was, b, pseudo).1 == NoError
       <==> CheckValue(Accumulated(pseudo, b)) == 0 && |b| >= 20 && (b[12] < 0x50 || 4 * (b[12] / 16) <= |b|)
    ensures ParsedSegment(was, b, pseudo).1 == BadChecksum <==> CheckValue(Accumulated(pseudo, b)) != 0
    ensures ParsedSegment(was, b, pseudo).1 in {NoError, BadChecksum, PacketTooShort}
    ensures ParsedSegment(was, b, pseudo).1 == NoError ==>
              ParsedSegment(was, b, pseudo).0.payload == b[if b[12] < 0x50 then 20 else 4 * (b[12] / 16)..]
  {
    if |b| < 20 {
      ShortHeader(b);
    } else {
      HeaderVerdict(b);
    }
  }

  // ---------------------------------------------------------------- the IPv4 header

  lemma IpBegins()
    ensures var w := IP_WIDTHS;
            && Begin(w, 0) == 0 && Begin(w, 1) == 1 && Begin(w, 2) == 2 && Begin(w, 3) == 4 && Begin(w, 4) == 6
            && Begin(w, 5) == 8 && Begin(w, 6) == 9 && Begin(w, 7) == 10 && Begin(w, 8) == 12 && Begin(w, 9) == 16
            && TotalWidth(w) == 20
  {
    var w := IP_WIDTHS;
    assert Begin(w, 1) == 1;
    assert Begin(w, 2) == 2;
    assert Begin(w, 3) == 4;
    assert Begin(w, 4) == 6;
    assert Begin(w, 5) == 8;
    assert Begin(w, 6) == 9;
    assert Begin(w, 7) == 10;
    assert Begin(w, 8) == 12;
    assert TotalWidth([2, 4, 4]) == 10 && w[7..] == [2, 4, 4];
    assert TotalWidth(w[5..]) == 12;
    assert TotalWidth(w[3..]) == 16;
    assert TotalWidth(w[1..]) == 19;
  }

  lemma IpValuesRead(b: seq<byte>) returns (v: seq<nat>)
    requires |b| >= 20
    ensures v == ReadAll(Parser(b, NoError), IP_WIDTHS)
    ensures v[0] == b[0] && v[1] == b[1] && v[2] == Short(b, 2) && v[3] == Short(b, 4) && v[4] == Short(b, 6)
    ensures v[5] == b[8] && v[6] == b[9] && v[7] == Short(b, 10) && v[8] == Long(b, 12) && v[9] == Long(b, 16)
  {
    var w := IP_WIDTHS;
    v := ReadAll(Parser(b, NoError), w);
    IpBegins();
    ByteValue(b, w, 0, 0);
    ByteValue(b, w, 1, 1);
    ShortValue(b, w, 2, 2);
    ShortValue(b, w, 3, 4);
    ShortValue(b, w, 4, 6);
    ByteValue(b, w, 5, 8);
    ByteValue(b, w, 6, 9);
    ShortValue(b, w, 7, 10);
    LongValue(b, w, 8, 12);
    LongValue(b, w, 9, 16);
  }

  /** The fields of an IPv4 header at their offsets in a buffer. */
  predicate IpFieldsAt(h: IPv4Header, b: seq<byte>)
    requires |b| >= 20
  {
    && h.ver == b[0] / 16 && h.hlen == b[0] % 16 && h.tos == b[1] && h.len == Short(b, 2) && h.id == Short(b, 4)
    && (h.df <==> HasBit(b[6], 0x40)) && (h.mf <==> HasBit(b[6], 0x20)) && h.offset == Short(b, 6) % 0x2000
    && h.ttl == b[8] && h.proto == b[9] && h.cksum == Short(b, 10) && h.src == Long(b, 12) && h.dst == Long(b, 16)
  }

  lemma HighBits(high: byte, low: byte, v: nat)
    requires v == 0x100 * (high as int) + low
    ensures v / 0x4000 % 2 == high / 0x40 % 2 && v / 0x2000 % 2 == high / 0x20 % 2
  {
  }

  lemma IpHeaderIs(b: seq<byte>) returns (h: IPv4Header)
    requires |b| >= 20
    ensures IpFieldsAt(h, b)
    ensures IpValues(ReadAll(Parser(b, NoError), IP_WIDTHS)) && h == IpHeaderOf(ReadAll(Parser(b, NoError), IP_WIDTHS))
    ensures AfterAll(Parser(b, NoError), IP_WIDTHS) == Parser(b[20..], NoError)
  {
    var v := IpValuesRead(b);
    ReadIpValues(Parser(b, NoError));
    HighBits(b[6], b[7], v[4]);
    h := IpHeaderOf(v);
    IpBegins();
    AllRead(Parser(b, NoError), IP_WIDTHS);
  }

  /** A packet whose announced lengths and version are in order; its checksum is another matter. */
  predicate InOrder(b: seq<byte>) {
    |b| >= 20 && b[0] / 16 == 4 && 5 <= b[0] % 16 && 4 * (b[0] % 16) <= |b| && |b| == Short(b, 2)
  }

  /** The verdict on an IPv4 header, from the raw bytes. */
  function IpVerdict(b: seq<byte>): ParseResult {
    if |b| < 20 || |b| < 4 * (b[0] % 16) then PacketTooShort
    else if b[0] / 16 != 4 then WrongIPVersion
    else if b[0] % 16 < 5 then HeaderTooShort
    else if |b| != Short(b, 2) then TruncatedPacket
    else if CheckValue(Accumulated(0, b[..4 * (b[0] % 16)])) != 0 then BadChecksum
    else NoError
  }

  lemma JudgedVerdict(b: seq<byte>, h: IPv4Header)
    requires |b| >= 20 && IpFieldsAt(h, b)
    ensures var r := Judged(b, h, Parser(b[20..], NoError));
            && r.result == IpVerdict(b) && r.header == h
            && r.parser == Parser(if InOrder(b) then b[4 * (b[0] % 16)..] else b[20..], NoError)
  {
    if InOrder(b) {
      SkipsOptions(b, 4 * (b[0] % 16));
    }
  }

  /** What the header parser says of any packet, the fields it leaves and where it stops. */
  lemma IpHeaderVerdict(b: seq<byte>, was: IPv4Header)
    ensures var r := ParsedIpHeader(was, Parser(b, NoError));
            && r.result == IpVerdict(b)
            && (if |b| < 20 then r.header == was else IpFieldsAt(r.header, b))
            && r.parser == Parser(if |b| < 20 then b else if InOrder(b) then b[4 * (b[0] % 16)..] else b[20..], NoError)
  {
    if |b| >= 20 {
      var h := IpHeaderIs(b);
      JudgedVerdict(b, h);
    }
  }

  /** The announced payload is as long as what follows the fixed header, or the lengths are all in order. */
  predicate Acceptable(b: seq<byte>) {
    |b| >= 20 && (InOrder(b) || |b| - 20 == (Short(b, 2) - 4 * (b[0] % 16)) % TWO16)
  }

  lemma InOrderLength(b: seq<byte>)
    requires InOrder(b)
    ensures |b| - 4 * (b[0] % 16) == (Short(b, 2) - 4 * (b[0] % 16)) % TWO16
  {
  }

  lemma GatheredVerdict(r: IpHeaderParse, b: seq<byte>)
    requires |b| >= 20 && IpFieldsAt(r.header, b)
    requires r.parser == Parser(if InOrder(b) then b[4 * (b[0] % 16)..] else b[20..], NoError)
    ensures Gathered(r).0 == IPv4Datagram(r.header, r.parser.buffer)
    ensures Gathered(r).1 == NoError <==> Acceptable(b)
  {
    if InOrder(b) {
      InOrderLength(b);
    }
  }

  /**
   Which packets parse as a datagram. The header parser's verdict has no part in
   it, so that a packet with its lengths in order is accepted whatever its checksum;
   and one shorter than a header is judged by the header the object had before.
   */
  lemma DatagramAcceptedIff(b: seq<byte>, was: IPv4Datagram)
    ensures ParsedDatagram(was, b).1 == NoError
       <==> if |b| < 20 then |b| == PayloadLength(was.header) else Acceptable(b)
    ensures Acceptable(b) ==>
              && IpFieldsAt(ParsedDatagram(was, b).0.header, b)
              && ParsedDatagram(was, b).0.payload == b[if InOrder(b) then 4 * (b[0] % 16) else 20..]
  {
    IpHeaderVerdict(b, was.header);
    if |b| >= 20 {
      GatheredVerdict(ParsedIpHeader(was.header, Parser(b, NoError)), b);
    }
  }

  lemma ChecksumUntested(b: seq<byte>, t: seq<byte>)
    requires |b| == |t| >= 20 && b[0] == t[0] && b[2] == t[2] && b[3] == t[3]
    ensures Acceptable(b) <==> Acceptable(t)
  {
  }

  /** So the bytes of the header checksum can be anything: a damaged header is parsed like a sound one. */
  lemma HeaderChecksumIgnored(b: seq<byte>, t: seq<byte>, was: IPv4Datagram)
    requires |b| == |t|
    requires forall i :: 0 <= i < |b| && i != 10 && i != 11 ==> b[i] == t[i]
    ensures ParsedDatagram(was, b).1 == NoError <==> ParsedDatagram(was, t).1 == NoError
  {
    DatagramAcceptedIff(b, was);
    DatagramAcceptedIff(t, was);
    if |b| >= 20 {
      ChecksumUntested(b, t);
    }
  }

  // ---------------------------------------------------------------- the adapter

  /** The payload of a datagram that makes a segment, from the raw bytes. */
  predicate MakesSegment(d: IPv4Datagram) {
    var b := d.payload;
    && CheckValue(Accumulated(0, PseudoHeader(d.header) + b)) == 0
    && |b| >= 20 && (b[12] < 0x50 || 4 * (b[12] / 16) <= |b|)
  }

  /** Whether a segment is for this adapter: a listener wants an opening, else both ends must be known. */
  predicate ForAdapter(a: Adapter, d: IPv4Datagram)
    requires |d.payload| >= 20
  {
    var b := d.payload;
    && d.header.proto == 6 && Short(b, 2) == a.source.port
    && if a.listening then HasBit(b[13], 2) && !HasBit(b[13], 4)
       else d.header.dst == a.source.ip && d.header.src == a.destination.ip && Short(b, 0) == a.destination.port
  }

  /**
   Exactly which datagrams an adapter hands up, for every datagram; all others
   leave it as it was. A listener that hands one up has turned to its sender.
   */
  lemma HandsUpIff(a: Adapter, d: IPv4Datagram)
    ensures Unwrapped(a, d).1.Some? <==> MakesSegment(d) && ForAdapter(a, d)
    ensures Unwrapped(a, d).1.Some? ==>
              && TcpFieldsAt(Unwrapped(a, d).1.value.header, d.payload)
              && Unwrapped(a, d).0 ==
                   if a.listening then
                     Adapter(Address(d.header.dst, a.source.port), Address(d.header.src, Short(d.payload, 0)), false)
                   else a
    ensures Unwrapped(a, d).1.None? ==> Unwrapped(a, d).0 == a
  {
    var blank := TCPSegment(BlankHeader(), []);
    SegmentAcceptedIff(d.payload, PseudoSum(d.header), blank);
    StartsFromPseudo(d.header, d.payload);
    if |d.payload| >= 20 {
      TcpRead(d.payload);
    }
  }
}
