/** TCP segments carried in IPv4 datagrams between two adapters. */
module TcpOverIp {
  import opened Words
  import opened Segments
  import opened Checksums
  import opened Parsing
  import opened TcpWire
  import opened Ipv4Wire

  datatype Address = Address(ip: u32, port: u16)

  datatype Adapter = Adapter(source: Address, destination: Address, listening: bool)

  // ---------------------------------------------------------------- out

  function WithPorts(a: Adapter, seg: TCPSegment): TCPSegment {
    seg.(header := seg.header.(sport := a.source.port, dport := a.destination.port))
  }

  /** The length field is sixteen bits wide. */
  function WrapHeader(a: Adapter, seg: TCPSegment): IPv4Header {
    BlankIpHeader().(src := a.source.ip, dst := a.destination.ip,
                     len := (IP_HEADER_LENGTH + 4 * seg.header.doff + |seg.payload|) % TWO16)
  }

  /** The datagram for a segment; None where serializing the segment throws. */
  function Wrapped(a: Adapter, seg: TCPSegment): Option<IPv4Datagram> {
    var h := WrapHeader(a, seg);
    match SegmentBytes(WithPorts(a, seg), PseudoSum(h))
    case None => None
    case Some(bytes) => Some(IPv4Datagram(h, bytes))
  }

  // ---------------------------------------------------------------- in

  /** The tests on addresses and protocol, made before the payload is parsed. */
  predicate Admits(a: Adapter, h: IPv4Header) {
    && (!a.listening ==> h.dst == a.source.ip && h.src == a.destination.ip)
    && h.proto == PROTO_TCP
  }

  function Learned(a: Adapter, h: IPv4Header, t: TCPHeader): Adapter {
    Adapter(Address(h.dst, a.source.port), Address(h.src, t.sport), false)
  }

  /** The adapter after a datagram, and the segment it hands up. */
  function Unwrapped(a: Adapter, d: IPv4Datagram): (Adapter, Option<TCPSegment>) {
    var parsed := ParsedSegment(TCPSegment(BlankHeader(), []), d.payload, PseudoSum(d.header));
    if !Admits(a, d.header) || parsed.1 != NoError then (a, None)
    else Related(a, d.header, parsed.0)
  }

  function Related(a: Adapter, h: IPv4Header, seg: TCPSegment): (Adapter, Option<TCPSegment>) {
    var t := seg.header;
    if t.dport != a.source.port then (a, None)
    else if a.listening then
      if t.syn && !t.rst then (Learned(a, h, t), Some(seg)) else (a, None)
    else if t.sport != a.destination.port then (a, None)
    else (a, Some(seg))
  }

  // ---------------------------------------------------------------- across

  /** What the receiving stack reads off a datagram's bytes. */
  function Carried(b: Adapter, bytes: seq<byte>): (Adapter, Option<TCPSegment>) {
    var parsed := ParsedDatagram(IPv4Datagram(BlankIpHeader(), []), bytes);
    if parsed.1 != NoError then (b, None) else Unwrapped(b, parsed.0)
  }

  /** The segment as it comes out: ports and checksum filled in, all else as it was. */
  function Filled(a: Adapter, seg: TCPSegment): TCPSegment
    requires seg.header.doff >= 5
  {
    Checked(WithPorts(a, seg), PseudoSum(WrapHeader(a, seg)))
  }

  predicate Mirrors(a: Adapter, b: Adapter) {
    b.source == a.destination && b.destination == a.source
  }

  lemma WrapLengths(a: Adapter, seg: TCPSegment)
    requires seg.header.doff >= 5
    ensures Wrapped(a, seg).Some? && |Wrapped(a, seg).value.payload| == 4 * seg.header.doff + |seg.payload|
    ensures PayloadLength(WrapHeader(a, seg)) == (4 * seg.header.doff + |seg.payload|) % TWO16
  {
    var s := WithPorts(a, seg);
    HeaderIsEven(s.header.(cksum := SegmentCheck(s, PseudoSum(WrapHeader(a, seg)))));
    ShiftedLength(4 * seg.header.doff + |seg.payload|);
  }

  lemma ShiftedLength(n: nat)
    ensures ((IP_HEADER_LENGTH + n) % TWO16 - 20) % TWO16 == n % TWO16
  {
  }

  /** Header and payload fit sixteen bits, and the header is not too short. */
  predicate Sendable(seg: TCPSegment) {
    seg.header.doff >= 5 && 4 * seg.header.doff + |seg.payload| < TWO16
  }

  /**
   A segment can be sent at all exactly when its header has the legal length and
   header and payload together fit sixteen bits; up to twenty more bytes than the
   length field can say.
   */
  lemma SendableIff(a: Adapter, seg: TCPSegment)
    ensures (Wrapped(a, seg).Some? && DatagramBytes(Wrapped(a, seg).value).Some?)
       <==> Sendable(seg)
  {
    if seg.header.doff >= 5 {
      WrapLengths(a, seg);
    }
  }

  /** The checksum of every segment an adapter sends covers the pseudo-header and the payload. */
  lemma SentChecksOut(a: Adapter, seg: TCPSegment)
    requires seg.header.doff >= 5
    ensures Wrapped(a, seg).Some?
    ensures var d := Wrapped(a, seg).value;
            && CheckValue(Accumulated(0, PseudoHeader(d.header) + d.payload)) == 0
            && (PayloadLength(d.header) == |d.payload| <==> Sendable(seg))
  {
    var h := WrapHeader(a, seg);
    WrapLengths(a, seg);
    SegmentChecksOut(WithPorts(a, seg), PseudoSum(h));
    StartsFromPseudo(h, Wrapped(a, seg).value.payload);
  }

  /** The datagram an adapter makes survives the wire, with its checksum filled in. */
  lemma DatagramArrives(a: Adapter, seg: TCPSegment, was: IPv4Datagram)
    requires Sendable(seg)
    ensures Wrapped(a, seg).Some? && DatagramBytes(Wrapped(a, seg).value).Some?
    ensures ParsedDatagram(was, DatagramBytes(Wrapped(a, seg).value).value) == (Sealed(Wrapped(a, seg).value), NoError)
  {
    WrapLengths(a, seg);
    DatagramRoundTripIff(Wrapped(a, seg).value, was);
  }

  /** What the receiving side's parser makes of the segment. */
  function Parsed(a: Adapter, seg: TCPSegment): TCPSegment
    requires seg.header.doff >= 5
  {
    var pseudo := PseudoSum(WrapHeader(a, seg));
    ParsedSegment(TCPSegment(BlankHeader(), []), SegmentBytes(WithPorts(a, seg), pseudo).value, pseudo).0
  }

  /** The pseudo-header sums of both sides agree, so the payload of a sealed datagram parses. */
  lemma SegmentArrives(a: Adapter, seg: TCPSegment)
    requires seg.header.doff >= 5 && Wrapped(a, seg).Some?
    ensures var d := Sealed(Wrapped(a, seg).value);
            ParsedSegment(TCPSegment(BlankHeader(), []), d.payload, PseudoSum(d.header)) == (Parsed(a, seg), NoError)
    ensures Parsed(a, seg).header == OnWire(Filled(a, seg).header)
    ensures Parsed(a, seg) == Filled(a, seg) <==> seg.header.doff <= 15
  {
    var h := WrapHeader(a, seg);
    assert PseudoSum(Sealed(Wrapped(a, seg).value).header) == PseudoSum(h);
    SegmentRoundTripIff(WithPorts(a, seg), PseudoSum(h), TCPSegment(BlankHeader(), []));
  }

  lemma UnwrappedGives(b: Adapter, d: IPv4Datagram, seg: TCPSegment)
    requires ParsedSegment(TCPSegment(BlankHeader(), []), d.payload, PseudoSum(d.header)) == (seg, NoError)
    ensures Unwrapped(b, d) == if !Admits(b, d.header) then (b, None) else Related(b, d.header, seg)
  {
  }

  /** The header on the wire: all that the receiving adapter looks at is as it was written. */
  function WireHeader(a: Adapter, seg: TCPSegment): (h: IPv4Header)
    ensures h.src == a.source.ip && h.dst == a.destination.ip && h.proto == PROTO_TCP
  {
    WrapHeader(a, seg).(cksum := IpCheck(WrapHeader(a, seg)))
  }

  lemma WhatIsCarried(a: Adapter, b: Adapter, seg: TCPSegment)
    requires Sendable(seg)
    ensures Wrapped(a, seg).Some? && DatagramBytes(Wrapped(a, seg).value).Some?
    ensures Carried(b, DatagramBytes(Wrapped(a, seg).value).value) ==
            if !Admits(b, WireHeader(a, seg)) then (b, None)
            else Related(b, WireHeader(a, seg), Parsed(a, seg))
  {
    DatagramArrives(a, seg, IPv4Datagram(BlankIpHeader(), []));
    SegmentArrives(a, seg);
    var d := Sealed(Wrapped(a, seg).value);
    assert d.header == WireHeader(a, seg);
    UnwrappedGives(b, d, Parsed(a, seg));
  }

  /**
   The encapsulation theorem. Of every segment that can be sent, a connected
   adapter hands up a segment, and keeps its own state, exactly when the two
   adapters face each other; and it is the very segment exactly when also its data
   offset fits the four bits it has on the wire.
   */
  lemma ConnectedCarriesIff(a: Adapter, b: Adapter, seg: TCPSegment)
    requires Sendable(seg) && !b.listening
    ensures Wrapped(a, seg).Some? && DatagramBytes(Wrapped(a, seg).value).Some?
    ensures var got := Carried(b, DatagramBytes(Wrapped(a, seg).value).value);
            && got.0 == b
            && (got.1.Some? <==> Mirrors(a, b))
            && (got.1 == Some(Filled(a, seg)) <==> Mirrors(a, b) && seg.header.doff <= 15)
  {
    WhatIsCarried(a, b, seg);
    SegmentArrives(a, seg);
  }

  /**
   A listening adapter hands up a segment exactly when it opens a connection to
   its port; it then faces the sender, so that every later segment of the sender
   passes by the theorem above, and its answers pass the other way.
   */
  lemma ListenerCarriesIff(a: Adapter, b: Adapter, seg: TCPSegment)
    requires Sendable(seg) && b.listening
    ensures Wrapped(a, seg).Some? && DatagramBytes(Wrapped(a, seg).value).Some?
    ensures var got := Carried(b, DatagramBytes(Wrapped(a, seg).value).value);
            if a.destination.port == b.source.port && seg.header.syn && !seg.header.rst
            then
              && got.1.Some? && (got.1 == Some(Filled(a, seg)) <==> seg.header.doff <= 15)
              && Mirrors(a, got.0) && !got.0.listening
            else got == (b, None)
  {
    WhatIsCarried(a, b, seg);
    SegmentArrives(a, seg);
  }

  // ---------------------------------------------------------------- as the source runs it

  class TCPOverIPv4Adapter {
    var source: Address
    var destination: Address
    var listening: bool

    function State(): Adapter
      reads this
    {
      Adapter(source, destination, listening)
    }

    constructor (source: Address, destination: Address, listening: bool)
      ensures State() == Adapter(source, destination, listening)
    {
      this.source, this.destination, this.listening := source, destination, listening;
    }

    /** The source sets the ports in the caller's segment. */
    method WrapTcpInIp(seg: TCPSegment) returns (sent: TCPSegment, d: Option<IPv4Datagram>)
      ensures sent == WithPorts(State(), seg)
      ensures d == Wrapped(State(), seg)
      ensures d.Some? <==> seg.header.doff >= 5
      ensures d.Some? ==> CheckValue(Accumulated(0, PseudoHeader(d.value.header) + d.value.payload)) == 0
    {
      sent := WithPorts(State(), seg);
      var h := WrapHeader(State(), seg);
      var bytes := SerializeSegment(sent, PseudoSum(h));
      d := if bytes.None? then None else Some(IPv4Datagram(h, bytes.value));
      if d.Some? {
        SentChecksOut(State(), seg);
      }
    }

    method UnwrapTcpInIp(d: IPv4Datagram) returns (r: Option<TCPSegment>)
      modifies this
      ensures (State(), r) == Unwrapped(old(State()), d)
    {
      if !Admits(State(), d.header) {
        return None;
      }
      var seg, result := ParseSegment(TCPSegment(BlankHeader(), []), d.payload, PseudoSum(d.header));
      if result != NoError {
        return None;
      }
      r := Relate(d.header, seg);
    }

    method Relate(h: IPv4Header, seg: TCPSegment) returns (r: Option<TCPSegment>)
      modifies this
      ensures (State(), r) == Related(old(State()), h, seg)
    {
      if seg.header.dport != source.port {
        return None;
      }
      if listening {
        if !seg.header.syn || seg.header.rst {
          return None;
        }
        source, destination := Address(h.dst, source.port), Address(h.src, seg.header.sport);
        listening := false;
      }
      r := if seg.header.sport != destination.port then None else Some(seg);
    }
  }
}
