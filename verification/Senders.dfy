/** The sending half of a connection: its value and the operations on it. */
module Senders {
  import opened Words
  import opened WrappingIntegers
  import opened ByteStreams
  import opened Segments
  import opened Timers

  const MAX_PAYLOAD_SIZE := 1000

  datatype Sender = Sender(
    isn: u32,
    segmentsOut: seq<TCPSegment>,
    initialRto: u32,
    stream: Stream,
    nextSeqno: nat,
    rto: u32,
    retransmissions: u32,
    lastAckno: nat,
    lastWin: u16,
    timer: Timer,
    outstanding: seq<TCPSegment>)

  function FreshSender(capacity: nat, timeout: u16, isn: u32): Sender {
    Sender(isn, [], timeout, Fresh(capacity), 0, timeout, 0, 0, 1, Stopped(), [])
  }

  /** Sequence numbers sent and not acknowledged, as an unsigned 64-bit difference. */
  function InFlight(s: Sender): u64 {
    (s.nextSeqno - s.lastAckno) % TWO64
  }

  /** A zero window is treated as one, so that a probe can be sent. */
  function CurrentWindow(s: Sender): u16 {
    if s.lastWin == 0 then 1 else s.lastWin
  }

  /** Unsigned: when more is in flight than the window allows, this is close to 2^64. */
  function RemainingWindow(s: Sender): u64 {
    (CurrentWindow(s) - InFlight(s)) % TWO64
  }

  function SynSegment(): TCPSegment {
    TCPSegment(BlankHeader().(syn := true), [])
  }

  function DataSegment(payload: seq<byte>, fin: bool): TCPSegment {
    TCPSegment(BlankHeader().(fin := fin), payload)
  }

  function Numbered(s: Sender, seg: TCPSegment): TCPSegment {
    seg.(header := seg.header.(seqno := Wrap(s.nextSeqno, s.isn)))
  }

  /** First transmission: number the segment, queue it to go out and to be acknowledged. */
  function AfterSend(s: Sender, seg: TCPSegment): Sender {
    s.(nextSeqno := s.nextSeqno + SequenceLength(seg),
       segmentsOut := s.segmentsOut + [Numbered(s, seg)],
       outstanding := s.outstanding + [Numbered(s, seg)],
       timer := if s.timer.started then s.timer else Started(s.rto))
  }

  function AfterSendEmpty(s: Sender): Sender {
    s.(segmentsOut := s.segmentsOut + [Numbered(s, DataSegment([], false))])
  }

  /** The payload the fill loop takes next, and the sender with it taken from the stream. */
  function NextPayload(s: Sender): seq<byte> {
    Peek(s.stream, Min(MAX_PAYLOAD_SIZE, RemainingWindow(s)))
  }

  function Taken(s: Sender): Sender {
    s.(stream := AfterPop(s.stream, Min(MAX_PAYLOAD_SIZE, RemainingWindow(s))))
  }

  /** FIN rides on the segment that empties the stream if the window has a number left for it. */
  predicate FinRides(s: Sender) {
    Eof(Taken(s).stream) && |NextPayload(s)| < RemainingWindow(s)
  }

  function AfterFillLoop(s: Sender): Sender
    decreases |s.stream.written| - s.stream.read
  {
    if RemainingWindow(s) == 0 then s
    else if !Eof(s.stream) && s.nextSeqno > InFlight(s) then
      if |NextPayload(s)| == 0 && !FinRides(s) then Taken(s)
      else AfterFillLoop(AfterSend(Taken(s), DataSegment(NextPayload(s), FinRides(s))))
    else if Eof(s.stream) && s.nextSeqno < |s.stream.written| + 2 then AfterSend(s, DataSegment([], true))
    else s
  }

  function AfterFill(s: Sender): Sender {
    if s.nextSeqno == 0 then AfterSend(s, SynSegment())
    else if s.nextSeqno == InFlight(s) then s
    else AfterFillLoop(s)
  }

  /** Drops segments from the front while their raw end is at most the raw acknowledgment. */
  function PopAcked(q: seq<TCPSegment>, ackno: u32): seq<TCPSegment> {
    if q != [] && q[0].header.seqno + SequenceLength(q[0]) <= ackno then PopAcked(q[1..], ackno) else q
  }

  /** The effect of an acknowledgment of new data, before the window is refilled. */
  function Advanced(s: Sender, abs: nat, ackno: u32): Sender {
    var q := PopAcked(s.outstanding, ackno);
    s.(lastAckno := abs,
       outstanding := q,
       retransmissions := 0,
       rto := s.initialRto,
       timer := if q != [] then Started(s.initialRto) else Stopped())
  }

  function AfterAck(s: Sender, ackno: u32, win: u16): Sender {
    var abs := Unwrap(ackno, s.isn, s.lastAckno);
    if abs > s.nextSeqno then s
    else AfterFill((if abs > s.lastAckno then Advanced(s, abs, ackno) else s).(lastWin := win))
  }

  /** Sends the oldest outstanding segment again; backs off unless the peer's window is zero. */
  function Resent(s: Sender): Sender
    requires s.outstanding != []
  {
    var rto := if s.lastWin > 0 then (s.rto * 2) % TWO32 else s.rto;
    s.(segmentsOut := s.segmentsOut + [s.outstanding[0]],
       retransmissions := if s.lastWin > 0 then (s.retransmissions + 1) % TWO32 else s.retransmissions,
       rto := rto,
       timer := Started(rto))
  }

  function AfterTick(s: Sender, ms: nat): Sender {
    var timer := Ticked(s.timer, ms);
    if s.outstanding != [] && Expired(timer) then Resent(s)
    else if s.outstanding == [] then s.(timer := Stopped())
    else s.(timer := timer)
  }

  function AfterAppWrite(s: Sender, data: seq<byte>): Sender {
    s.(stream := AfterWrite(s.stream, data))
  }

  function AfterAppEnd(s: Sender): Sender {
    s.(stream := AfterEnd(s.stream))
  }
}
