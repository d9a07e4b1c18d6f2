/** TCP segments, section 3.1 of RFC 793; options are not supported. */
module Segments {
  import opened Words

  const HEADER_LENGTH := 20

  datatype TCPHeader = TCPHeader(
    sport: u16,
    dport: u16,
    seqno: u32,
    ackno: u32,
    doff: byte,
    urg: bool,
    ack: bool,
    psh: bool,
    rst: bool,
    syn: bool,
    fin: bool,
    win: u16,
    cksum: u16,
    uptr: u16)

  datatype TCPSegment = TCPSegment(header: TCPHeader, payload: seq<byte>)

  /** The header a default-constructed segment carries. */
  function BlankHeader(): TCPHeader {
    TCPHeader(0, 0, 0, 0, HEADER_LENGTH / 4, false, false, false, false, false, false, 0, 0, 0)
  }

  /** Sequence numbers a segment occupies: its payload, one for SYN, one for FIN. */
  function SequenceLength(seg: TCPSegment): nat {
    |seg.payload| + (if seg.header.syn then 1 else 0) + (if seg.header.fin then 1 else 0)
  }
}
