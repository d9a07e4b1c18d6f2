/**
 Where every field stands on the wire: the byte offsets of section 3.1 of RFC 793
 and section 3.1 of RFC 791, in network byte order.
 */
module WireLayout {
  import opened Words
  import opened Segments
  import opened Checksums
  import opened Parsing
  import opened TcpWire
  import opened Ipv4Wire
  import opened TcpOverIp

  /** The number in two bytes from offset `i`. */
  function Short(b: seq<byte>, i: nat): nat
    requires i + 2 <= |b|
  {
    0x100 * (b[i] as int) + b[i + 1]
  }

  /** The number in four bytes from offset `i`. */
  function Long(b: seq<byte>, i: nat): nat
    requires i + 4 <= |b|
  {
    Short(b, i) * TWO16 + Short(b, i + 2)
  }

  // ---------------------------------------------------------------- fields by offset

  /** Where field `k` of a record begins. */
  function Offset(fs: seq<Field>, k: nat): nat
    requires k <= |fs|
  {
    if k == 0 then 0 else Offset(fs, k - 1) + fs[k - 1].len
  }

  lemma {:induction false} PackedPrefix(fs: seq<Field>, k: nat)
    requires k <= |fs|
    ensures |Packed(fs[..k])| == Offset(fs, k)
  {
    if k > 0 {
      PackedPrefix(fs, k - 1);
      PackedConcat(fs[..k - 1], [fs[k - 1]]);
      assert fs[..k] == fs[..k - 1] + [fs[k - 1]];
    }
  }

  /** The bytes `s` stand at offset `i`. */
  predicate At(b: seq<byte>, i: nat, s: seq<byte>) {
    i + |s| <= |b| && b[i..i + |s|] == s
  }

  lemma MiddleAt(front: seq<byte>, middle: seq<byte>, back: seq<byte>, rest: seq<byte>)
    ensures At(front + (middle + back) + rest, |front|, middle)
  {
  }

  lemma PackedAround(front: seq<Field>, f: Field, back: seq<Field>)
    ensures Packed(front + ([f] + back)) == Packed(front) + (ToBytes(f.val, f.len) + Packed(back))
  {
    PackedConcat(front, [f] + back);
    assert ([f] + back)[1..] == back;
  }

  lemma FieldAmid(fs: seq<Field>, front: seq<Field>, f: Field, back: seq<Field>, i: nat, rest: seq<byte>)
    requires fs == front + ([f] + back) && |Packed(front)| == i
    ensures At(Packed(fs) + rest, i, ToBytes(f.val, f.len))
  {
    PackedAround(front, f, back);
    MiddleAt(Packed(front), ToBytes(f.val, f.len), Packed(back), rest);
  }

  lemma SplitAt(fs: seq<Field>, k: nat) returns (front: seq<Field>, back: seq<Field>)
    requires k < |fs|
    ensures fs == front + ([fs[k]] + back) && |Packed(front)| == Offset(fs, k)
  {
    front, back := fs[..k], fs[k + 1..];
    PackedPrefix(fs, k);
  }

  /** Every field of a record stands at its offset, whatever follows the record. */
  lemma FieldAt(fs: seq<Field>, k: nat, rest: seq<byte>)
    requires k < |fs|
    ensures At(Packed(fs) + rest, Offset(fs, k), ToBytes(fs[k].val, fs[k].len))
  {
    var front, back := SplitAt(fs, k);
    FieldAmid(fs, front, fs[k], back, Offset(fs, k), rest);
  }

  lemma OneByte(v: byte)
    ensures ToBytes(v, 1) == [v]
  {
    assert ToBytes(v, 1) == ToBytes(v / 0x100, 0) + [v % 0x100];
  }

  lemma ByteFrom(b: seq<byte>, i: nat, v: byte)
    requires At(b, i, [v])
    ensures i < |b| && b[i] == v
  {
    assert b[i..i + 1][0] == v;
  }

  lemma ShortFrom(b: seq<byte>, i: nat, x: byte, y: byte)
    requires At(b, i, [x, y])
    ensures i + 2 <= |b| && b[i] == x && b[i + 1] == y
  {
    assert b[i] == b[i..i + 2][0] && b[i + 1] == b[i..i + 2][1];
  }

  lemma AtSplit(b: seq<byte>, i: nat, s: seq<byte>, t: seq<byte>)
    requires At(b, i, s + t)
    ensures At(b, i, s) && At(b, i + |s|, t)
  {
    assert b[i..i + |s|] == b[i..i + |s + t|][..|s|];
    assert b[i + |s|..i + |s| + |t|] == b[i..i + |s + t|][|s|..];
  }

  lemma ByteAt(fs: seq<Field>, k: nat, rest: seq<byte>)
    requires k < |fs| && fs[k].len == 1 && fs[k].val < 0x100
    ensures var b := Packed(fs) + rest; Offset(fs, k) < |b| && b[Offset(fs, k)] == fs[k].val
  {
    FieldAt(fs, k, rest);
    OneByte(fs[k].val);
    ByteFrom(Packed(fs) + rest, Offset(fs, k), fs[k].val);
  }

  lemma ShortAt(fs: seq<Field>, k: nat, rest: seq<byte>)
    requires k < |fs| && fs[k].len == 2 && fs[k].val < TWO16
    ensures var b := Packed(fs) + rest; Offset(fs, k) + 2 <= |b| && Short(b, Offset(fs, k)) == fs[k].val
  {
    FieldAt(fs, k, rest);
    ShortIs(Packed(fs) + rest, Offset(fs, k), fs[k].val);
  }

  lemma ShortIs(b: seq<byte>, i: nat, v: u16)
    requires At(b, i, ToBytes(v, 2))
    ensures i + 2 <= |b| && Short(b, i) == v
  {
    ShortBytes(v);
    ShortFrom(b, i, v / 0x100, v % 0x100);
  }

  lemma LongAt(fs: seq<Field>, k: nat, rest: seq<byte>)
    requires k < |fs| && fs[k].len == 4 && fs[k].val < TWO32
    ensures var b := Packed(fs) + rest; Offset(fs, k) + 4 <= |b| && Long(b, Offset(fs, k)) == fs[k].val
  {
    FieldAt(fs, k, rest);
    LongIs(Packed(fs) + rest, Offset(fs, k), fs[k].val);
  }

  lemma LongIs(b: seq<byte>, i: nat, v: u32)
    requires At(b, i, ToBytes(v, 4))
    ensures i + 4 <= |b| && Long(b, i) == v
  {
    LongBytes(v);
    AtSplit(b, i, ToBytes(v / TWO16, 2), ToBytes(v % TWO16, 2));
    ShortIs(b, i, v / TWO16);
    ShortIs(b, i + 2, v % TWO16);
  }

  // ---------------------------------------------------------------- the TCP header

  lemma TcpOffsets(h: TCPHeader)
    ensures var fs := HeaderFields(h);
            && Offset(fs, 0) == 0 && Offset(fs, 1) == 2 && Offset(fs, 2) == 4 && Offset(fs, 3) == 8
            && Offset(fs, 4) == 12 && Offset(fs, 5) == 13 && Offset(fs, 6) == 14 && Offset(fs, 7) == 16
            && Offset(fs, 8) == 18 && Offset(fs, 9) == 20
  {
    var fs := HeaderFields(h);
    assert Offset(fs, 1) == 2;
    assert Offset(fs, 2) == 4;
    assert Offset(fs, 3) == 8;
    assert Offset(fs, 4) == 12;
    assert Offset(fs, 5) == 13;
    assert Offset(fs, 6) == 14;
    assert Offset(fs, 7) == 16;
    assert Offset(fs, 8) == 18;
  }

  lemma {:induction false} ZerosAre(n: nat, i: nat)
    requires i < n
    ensures Zeros(n)[i] == 0
  {
    if i > 0 {
      ZerosAre(n - 1, i - 1);
    }
  }

  /** Every field of a serialized TCP header stands at its offset, and options are zeros. */
  lemma TcpLayout(h: TCPHeader, payload: seq<byte>)
    requires h.doff >= 5
    ensures var b := HeaderBytes(h).value + payload;
            && |b| == 4 * h.doff + |payload|
            && Short(b, 0) == h.sport && Short(b, 2) == h.dport
            && Long(b, 4) == h.seqno && Long(b, 8) == h.ackno
            && b[12] == 16 * (h.doff % 16)
            && (HasBit(b[13], 1) <==> h.fin) && (HasBit(b[13], 2) <==> h.syn) && (HasBit(b[13], 4) <==> h.rst)
            && (HasBit(b[13], 8) <==> h.psh) && (HasBit(b[13], 16) <==> h.ack) && (HasBit(b[13], 32) <==> h.urg)
            && b[13] < 64
            && Short(b, 14) == h.win && Short(b, 16) == h.cksum && Short(b, 18) == h.uptr
            && (forall i :: 20 <= i < 4 * h.doff ==> b[i] == 0)
            && b[4 * h.doff..] == payload
  {
    var fs, n := HeaderFields(h), 4 * h.doff - HEADER_LENGTH;
    var rest := Zeros(n) + payload;
    assert HeaderBytes(h).value + payload == Packed(fs) + rest;
    TcpOffsets(h);
    PackedPrefix(fs, 9);
    assert fs[..9] == fs;
    OffsetBits(h.doff);
    FlagsRoundTrip(h);
    ShortAt(fs, 0, rest);
    ShortAt(fs, 1, rest);
    LongAt(fs, 2, rest);
    LongAt(fs, 3, rest);
    ByteAt(fs, 4, rest);
    ByteAt(fs, 5, rest);
    ShortAt(fs, 6, rest);
    ShortAt(fs, 7, rest);
    ShortAt(fs, 8, rest);
    forall i | 20 <= i < 4 * h.doff ensures (Packed(fs) + rest)[i] == 0 {
      ZerosAre(n, i - 20);
    }
  }

  // ---------------------------------------------------------------- the IPv4 header

  lemma IpOffsets(h: IPv4Header)
    ensures var fs := IpFields(h);
            && Offset(fs, 0) == 0 && Offset(fs, 1) == 1 && Offset(fs, 2) == 2 && Offset(fs, 3) == 4
            && Offset(fs, 4) == 6 && Offset(fs, 5) == 8 && Offset(fs, 6) == 9 && Offset(fs, 7) == 10
            && Offset(fs, 8) == 12 && Offset(fs, 9) == 16 && Offset(fs, 10) == 20
  {
    var fs := IpFields(h);
    assert Offset(fs, 1) == 1;
    assert Offset(fs, 2) == 2;
    assert Offset(fs, 3) == 4;
    assert Offset(fs, 4) == 6;
    assert Offset(fs, 5) == 8;
    assert Offset(fs, 6) == 9;
    assert Offset(fs, 7) == 10;
    assert Offset(fs, 8) == 12;
    assert Offset(fs, 9) == 16;
  }

  /** Every field of a serialized IPv4 header stands at its offset, and options are zeros. */
  lemma IpLayout(h: IPv4Header, payload: seq<byte>)
    requires h.ver == 4 && h.hlen >= 5
    ensures IpHeaderBytes(h).Some?
    ensures var b := IpHeaderBytes(h).value + payload;
            && |b| == 4 * h.hlen + |payload|
            && b[0] == 0x40 + h.hlen % 16 && b[1] == h.tos
            && Short(b, 2) == h.len && Short(b, 4) == h.id
            && Short(b, 6) == (if h.df then 0x4000 else 0) + (if h.mf then 0x2000 else 0) + h.offset % 0x2000
            && b[8] == h.ttl && b[9] == h.proto && Short(b, 10) == h.cksum
            && Long(b, 12) == h.src && Long(b, 16) == h.dst
            && (forall i :: 20 <= i < 4 * h.hlen ==> b[i] == 0)
            && b[4 * h.hlen..] == payload
  {
    var fs, n := IpFields(h), 4 * h.hlen - IP_HEADER_LENGTH;
    var rest := Zeros(n) + payload;
    var b := Packed(fs) + rest;
    assert IpHeaderBytes(h).value + payload == b;
    IpOffsets(h);
    PackedPrefix(fs, 10);
    assert fs[..10] == fs;
    ByteAt(fs, 0, rest);
    ByteAt(fs, 1, rest);
    ShortAt(fs, 2, rest);
    ShortAt(fs, 3, rest);
    ShortAt(fs, 4, rest);
    ByteAt(fs, 5, rest);
    ByteAt(fs, 6, rest);
    ShortAt(fs, 7, rest);
    LongAt(fs, 8, rest);
    LongAt(fs, 9, rest);
    forall i | 20 <= i < 4 * h.hlen ensures b[i] == 0 {
      ZerosAre(n, i - 20);
    }
  }

  // ---------------------------------------------------------------- a whole datagram

  /** What is read past the first twenty bytes is read from the rest. */
  lemma TailRead(b: seq<byte>, p: seq<byte>, i: nat)
    requires |b| == 20 + |p| && b[20..] == p && i + 4 <= |p|
    ensures b[20 + i] == p[i] && Short(b, 20 + i) == Short(p, i) && Long(b, 20 + i) == Long(p, i)
  {
    assert b[20 + i] == b[20..][i] && b[21 + i] == b[20..][i + 1];
    assert b[22 + i] == b[20..][i + 2] && b[23 + i] == b[20..][i + 3];
  }

  lemma TailRest(b: seq<byte>, p: seq<byte>, n: nat)
    requires |b| == 20 + |p| && b[20..] == p && n <= |p|
    ensures b[20 + n..] == p[n..]
  {
  }

  lemma SealedLayout(h: IPv4Header, payload: seq<byte>)
    requires h.ver == 4 && h.hlen == 5 && PayloadLength(h) == |payload|
    requires h.tos == h.id == h.offset == 0 && h.df && !h.mf && h.ttl == 128 && h.proto == 6
    ensures DatagramBytes(IPv4Datagram(h, payload)).Some?
    ensures var b := DatagramBytes(IPv4Datagram(h, payload)).value;
            && |b| == 20 + |payload| && b[20..] == payload
            && b[0] == 0x45 && b[1] == 0 && Short(b, 2) == h.len && Short(b, 4) == 0
            && Short(b, 6) == 0x4000 && b[8] == 128 && b[9] == 6
            && CheckValue(Accumulated(0, b[..20])) == 0
            && Long(b, 12) == h.src && Long(b, 16) == h.dst
  {
    var sealed := h.(cksum := IpCheck(h));
    IpLayout(sealed, payload);
    IpChecksOut(h);
    assert (IpHeaderBytes(sealed).value + payload)[..20] == IpHeaderBytes(sealed).value;
  }

  /** The IPv4 header in front of every segment sent. */
  lemma SentHeaderLayout(a: Adapter, seg: TCPSegment)
    requires Sendable(seg)
    ensures Wrapped(a, seg).Some? && DatagramBytes(Wrapped(a, seg).value).Some?
    ensures var b := DatagramBytes(Wrapped(a, seg).value).value;
            && |b| == 20 + 4 * seg.header.doff + |seg.payload| && b[20..] == Wrapped(a, seg).value.payload
            && b[0] == 0x45 && b[1] == 0 && Short(b, 2) == |b| % TWO16 && Short(b, 4) == 0
            && Short(b, 6) == 0x4000 && b[8] == 128 && b[9] == 6
            && CheckValue(Accumulated(0, b[..20])) == 0
            && Long(b, 12) == a.source.ip && Long(b, 16) == a.destination.ip
  {
    var h, payload := WrapHeader(a, seg), Wrapped(a, seg).value.payload;
    WrapLengths(a, seg);
    SealedLayout(h, payload);
  }

  /** From offset `at` stand the segment's fields, with the adapter's ports, and its payload ends the bytes. */
  predicate SegmentFrom(b: seq<byte>, at: nat, a: Adapter, seg: TCPSegment) {
    var h := seg.header;
    && |b| == at + 4 * h.doff + |seg.payload| && h.doff >= 5
    && Short(b, at) == a.source.port && Short(b, at + 2) == a.destination.port
    && Long(b, at + 4) == h.seqno && Long(b, at + 8) == h.ackno
    && b[at + 12] == 16 * (h.doff % 16)
    && (HasBit(b[at + 13], 1) <==> h.fin) && (HasBit(b[at + 13], 2) <==> h.syn)
    && (HasBit(b[at + 13], 4) <==> h.rst) && (HasBit(b[at + 13], 16) <==> h.ack)
    && Short(b, at + 14) == h.win
    && b[at + 4 * h.doff..] == seg.payload
  }

  /** What a datagram carries is the segment's own bytes, the ports filled in. */
  lemma SentPayload(a: Adapter, seg: TCPSegment) returns (p: seq<byte>)
    requires Sendable(seg)
    ensures Wrapped(a, seg).Some? && p == Wrapped(a, seg).value.payload && SegmentFrom(p, 0, a, seg)
  {
    var s := WithPorts(a, seg);
    var t := s.header.(cksum := SegmentCheck(s, PseudoSum(WrapHeader(a, seg))));
    TcpLayout(t, seg.payload);
    p := HeaderBytes(t).value + seg.payload;
  }

  lemma BehindHeader(b: seq<byte>, p: seq<byte>, a: Adapter, seg: TCPSegment)
    requires |b| == 20 + |p| && b[20..] == p && SegmentFrom(p, 0, a, seg)
    ensures SegmentFrom(b, 20, a, seg)
  {
    TailRead(b, p, 0);
    TailRead(b, p, 2);
    TailRead(b, p, 4);
    TailRead(b, p, 8);
    TailRead(b, p, 12);
    TailRead(b, p, 13);
    TailRead(b, p, 14);
    TailRest(b, p, 4 * seg.header.doff);
  }

  /**
   The whole datagram on the wire: an IPv4 header from the adapter's addresses, then
   the TCP header with the adapter's ports and the segment's own fields, then the payload.
   */
  lemma SentLayout(a: Adapter, seg: TCPSegment)
    requires Sendable(seg)
    ensures Wrapped(a, seg).Some? && DatagramBytes(Wrapped(a, seg).value).Some?
    ensures var b := DatagramBytes(Wrapped(a, seg).value).value;
            && |b| > 20 && SegmentFrom(b, 20, a, seg)
            && Long(b, 12) == a.source.ip && Long(b, 16) == a.destination.ip
  {
    SentHeaderLayout(a, seg);
    var p := SentPayload(a, seg);
    BehindHeader(DatagramBytes(Wrapped(a, seg).value).value, p, a, seg);
  }
}
