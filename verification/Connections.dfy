/** A whole endpoint: one receiver and one sender behind one queue of segments. */
module Connections {
  import opened Words
  import opened ByteStreams
  import opened Segments
  import opened Receivers
  import opened Senders
  import opened TcpStates

  const MAX_RETX_ATTEMPTS := 8

  datatype Connection = Connection(
    rtTimeout: u16,
    receiver: Receiver,
    sender: Sender,
    segmentsOut: seq<TCPSegment>,
    linger: bool,
    active: bool,
    sinceReceived: nat)

  function FreshConnection(rtTimeout: u16, recvCapacity: nat, sendCapacity: nat, isn: u32): Connection {
    Connection(rtTimeout, FreshReceiver(recvCapacity), FreshSender(sendCapacity, rtTimeout, isn), [], true, true, 0)
  }

  /** Fills in the acknowledgment and the window, once there is something to acknowledge. */
  function Stamped(r: Receiver, seg: TCPSegment): TCPSegment {
    if Ackno(r).Some?
    then seg.(header := seg.header.(ack := true, ackno := Ackno(r).value, win := AdvertisedWindow(r)))
    else seg
  }

  function StampedAll(r: Receiver, q: seq<TCPSegment>): seq<TCPSegment> {
    if q == [] then [] else [Stamped(r, q[0])] + StampedAll(r, q[1..])
  }

  /** The sender's queue moves, stamped, to the connection's queue. */
  function Flushed(c: Connection): Connection {
    c.(sender := c.sender.(segmentsOut := []),
       segmentsOut := c.segmentsOut + StampedAll(c.receiver, c.sender.segmentsOut))
  }

  function Filled(c: Connection): Connection {
    c.(sender := AfterFill(c.sender))
  }

  function AfterConnect(c: Connection): Connection {
    Flushed(Filled(c))
  }

  function AfterConnWrite(c: Connection, data: seq<byte>): Connection {
    if !c.active || data == [] then c
    else Flushed(Filled(c.(sender := AfterAppWrite(c.sender, data))))
  }

  function AfterEndInput(c: Connection): Connection {
    Flushed(Filled(c.(sender := AfterAppEnd(c.sender))))
  }

  function CleanShutdown(c: Connection): Connection {
    if c.receiver.store.out.ended && !Eof(c.sender.stream) then c.(linger := false)
    else if SummaryOfSender(c.sender) == FIN_ACKED && SummaryOfReceiver(c.receiver) == FIN_RECV
         && (!c.linger || c.sinceReceived >= 10 * c.rtTimeout) then c.(active := false)
    else c
  }

  function UncleanShutdown(c: Connection): Connection {
    c.(sender := c.sender.(stream := AfterError(c.sender.stream)),
       receiver := AfterReceiverError(c.receiver),
       active := false)
  }

  /** The front of the sender's queue goes out with RST; with an empty queue nothing does. */
  function RstSent(c: Connection): Connection {
    var f := Filled(c);
    if f.sender.segmentsOut == [] then f.(sender := AfterSendEmpty(f.sender))
    else
      var seg := Stamped(f.receiver, f.sender.segmentsOut[0]);
      f.(sender := f.sender.(segmentsOut := f.sender.segmentsOut[1..]),
         segmentsOut := f.segmentsOut + [seg.(header := seg.header.(rst := true))])
  }

  /** The clock's part of a tick. */
  function TimePassed(c: Connection, ms: nat): Connection {
    c.(sender := AfterTick(c.sender, ms), sinceReceived := c.sinceReceived + ms)
  }

  /** The end of a tick: give up after too many retransmissions, or send and perhaps close. */
  function Concluded(c: Connection): Connection {
    if c.sender.retransmissions > MAX_RETX_ATTEMPTS then UncleanShutdown(RstSent(c))
    else CleanShutdown(Flushed(c))
  }

  function AfterConnTick(c: Connection, ms: nat): Connection {
    if !c.active then c else Concluded(TimePassed(c, ms))
  }

  /** A segment of no length one before the number wanted is a keep-alive and gets an answer. */
  predicate IsKeepAlive(r: Receiver, seg: TCPSegment) {
    Ackno(r).Some? && SequenceLength(seg) == 0 && seg.header.seqno == (Ackno(r).value - 1) % TWO32
  }

  function AckTaken(s: Sender, seg: TCPSegment): Sender {
    if seg.header.ack then AfterAck(s, seg.header.ackno, seg.header.win) else s
  }

  /** A segment that occupies sequence space gets at least an empty segment back. */
  function Replied(s: Sender, seg: TCPSegment): Sender {
    if SequenceLength(seg) > 0 && s.segmentsOut == [] then AfterSendEmpty(s) else s
  }

  function KeptAlive(s: Sender, r: Receiver, seg: TCPSegment): Sender {
    if IsKeepAlive(r, seg) then AfterSendEmpty(s) else s
  }

  /** The sender's part of taking in a segment, once the receiver has seen it. */
  function Answered(c: Connection, seg: TCPSegment): Connection {
    c.(sender := KeptAlive(Replied(AckTaken(c.sender, seg), seg), c.receiver, seg))
  }

  /** The receiver's part of taking in a segment. */
  function Heard(c: Connection, seg: TCPSegment): Connection {
    c.(sinceReceived := 0, receiver := AfterSegment(c.receiver, seg))
  }

  function Responded(c: Connection, seg: TCPSegment): Connection {
    if SummaryOfReceiver(c.receiver) == SYN_RECV && SummaryOfSender(c.sender) == CLOSED then AfterConnect(c)
    else CleanShutdown(Flushed(Answered(c, seg)))
  }

  function AfterConnSegment(c: Connection, seg: TCPSegment): Connection {
    if !c.active then c
    else if seg.header.rst then UncleanShutdown(c.(sinceReceived := 0))
    else Responded(Heard(c, seg), seg)
  }

  function AfterConnRead(c: Connection, n: nat): Connection {
    c.(receiver := AfterRead(c.receiver, n))
  }

  datatype ConnEvent =
    | Connects
    | AppWrites(data: seq<byte>)
    | AppEnds
    | Ticks(ms: nat)
    | Segment(seg: TCPSegment)
    | AppTakes(n: nat)

  function ConnNext(c: Connection, e: ConnEvent): Connection {
    match e
    case Connects => AfterConnect(c)
    case AppWrites(data) => AfterConnWrite(c, data)
    case AppEnds => AfterEndInput(c)
    case Ticks(ms) => AfterConnTick(c, ms)
    case Segment(seg) => AfterConnSegment(c, seg)
    case AppTakes(n) => AfterConnRead(c, n)
  }

  function ConnRun(c: Connection, es: seq<ConnEvent>): Connection {
    if es == [] then c else ConnNext(ConnRun(c, es[..|es| - 1]), es[|es| - 1])
  }
}
