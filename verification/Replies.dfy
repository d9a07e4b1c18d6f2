/** Exactly what an endpoint sends in answer to each call. */
module Replies {
  import opened Words
  import opened WrappingIntegers
  import opened ByteStreams
  import opened Segments
  import opened Receivers
  import opened Senders
  import opened Segmentation
  import opened SenderRuns
  import opened TcpStates
  import opened Connections
  import opened ConnectionProofs
  import opened ConnectionTheorems

  /** A segment that carries nothing, at the sender's next number. */
  function BareAt(s: Sender): TCPSegment {
    TCPSegment(BlankHeader().(seqno := Wrap(s.nextSeqno, s.isn)), [])
  }

  /** The segment stands one number before the one wanted. */
  predicate OneBefore(r: Receiver, seg: TCPSegment) {
    r.syn && seg.header.seqno == Wrap(AbsoluteAck(r) - 1, r.isn)
  }

  lemma ModIs(x: int, q: int, r: nat)
    requires x == q * TWO32 + r && r < TWO32
    ensures x % TWO32 == r
  {
  }

  lemma ModBefore(x: nat)
    requires x > 0
    ensures (x - 1) % TWO32 == (x % TWO32 - 1) % TWO32
  {
    var q, r := x / TWO32, x % TWO32;
    if r > 0 {
      ModIs(x - 1, q, r - 1);
    } else {
      ModIs(x - 1, q - 1, TWO32 - 1);
    }
  }

  lemma WrapBefore(n: nat, isn: u32)
    requires n > 0
    ensures Wrap(n - 1, isn) == (Wrap(n, isn) - 1) % TWO32
  {
    WrapIsMod(n, isn);
    WrapIsMod(n - 1, isn);
    ModBefore(n + isn);
  }

  lemma WrapIsMod(n: nat, isn: u32)
    ensures Wrap(n, isn) == (n + isn) % TWO32
  {
  }

  lemma KeepAliveMeaning(r: Receiver, seg: TCPSegment)
    ensures IsKeepAlive(r, seg) <==> SequenceLength(seg) == 0 && OneBefore(r, seg)
  {
    WrapBefore(AbsoluteAck(r), r.isn);
  }

  /** What filling puts in an empty queue is new data, laid out from where the sender stood. */
  lemma FillQueues(s: Sender)
    requires SenderOk(s) && Countable(s) && s.segmentsOut == []
    ensures var t := AfterFill(s);
            && t.isn == s.isn && t.stream.written == s.stream.written && t.stream.ended == s.stream.ended
            && Laid(t.segmentsOut, s.isn, s.nextSeqno, t.nextSeqno, s.stream.written, s.stream.ended)
  {
    FillExtends(s);
    assert AfterFill(s).segmentsOut == New(s, AfterFill(s));
  }

  /** What an acknowledgment releases is new data, laid out from where the sender stood. */
  lemma AckSends(s: Sender, seg: TCPSegment)
    requires SenderOk(s) && Countable(s) && s.segmentsOut == []
    ensures var t := AckTaken(s, seg);
            && t.isn == s.isn && t.stream.written == s.stream.written && t.stream.ended == s.stream.ended
            && Laid(t.segmentsOut, s.isn, s.nextSeqno, t.nextSeqno, s.stream.written, s.stream.ended)
  {
    if seg.header.ack && Unwrap(seg.header.ackno, s.isn, s.lastAckno) <= s.nextSeqno {
      AcknowledgedOk(s, seg.header.ackno, seg.header.win);
      FillQueues(Acknowledged(s, seg.header.ackno, seg.header.win));
    }
  }

  /** The bare segment, if any, that goes out after the data. */
  function BareReply(s: Sender, r: Receiver, seg: TCPSegment): seq<TCPSegment> {
    if SequenceLength(seg) > 0 && s.segmentsOut == [] then [BareAt(s)]
    else if SequenceLength(seg) == 0 && OneBefore(r, seg) then [BareAt(s)]
    else []
  }

  lemma ReplyIs(s: Sender, r: Receiver, seg: TCPSegment)
    ensures KeptAlive(Replied(s, seg), r, seg) == s.(segmentsOut := s.segmentsOut + BareReply(s, r, seg))
  {
    KeepAliveMeaning(r, seg);
  }

  /** The endpoint has not opened yet and hears the other side's SYN. */
  predicate OpensBy(c: Connection, seg: TCPSegment) {
    SummaryOfReceiver(AfterSegment(c.receiver, seg)) == SYN_RECV && SummaryOfSender(c.sender) == CLOSED
  }

  lemma CleanSends(c: Connection)
    ensures CleanShutdown(c).segmentsOut == c.segmentsOut && CleanShutdown(c).sender == c.sender
    ensures CleanShutdown(c).receiver == c.receiver
  {
  }

  lemma AnsweredSends(c: Connection, seg: TCPSegment)
    ensures var s := AckTaken(c.sender, seg);
            Answered(c, seg) == c.(sender := s.(segmentsOut := s.segmentsOut + BareReply(s, c.receiver, seg)))
  {
    ReplyIs(AckTaken(c.sender, seg), c.receiver, seg);
  }

  /**
   What goes out in answer to a segment, apart from a reset and from the opening:
   first the data its acknowledgment released, laid out in sequence space from
   where the sender stood to where it stands now; then one bare segment at the
   next number if the segment occupied sequence space and no data went out, or if
   it occupied none and stood one before the number wanted; nothing else. All of it
   carries what the receiver has to say.
   */
  lemma ReplyTheorem(c: Connection, seg: TCPSegment) returns (data: seq<TCPSegment>)
    requires ConnOk(c) && Countable(c.sender) && c.active && !seg.header.rst && !OpensBy(c, seg)
    ensures var t := AfterConnSegment(c, seg); var s := c.sender;
            && t.receiver == AfterSegment(c.receiver, seg)
            && Laid(data, s.isn, s.nextSeqno, t.sender.nextSeqno, s.stream.written, s.stream.ended)
            && t.segmentsOut == c.segmentsOut + StampedAll(t.receiver,
                 if SequenceLength(seg) > 0 && data == [] then data + [BareAt(t.sender)]
                 else if SequenceLength(seg) == 0 && OneBefore(t.receiver, seg) then data + [BareAt(t.sender)]
                 else data)
  {
    var h := Heard(c, seg);
    var s := AckTaken(c.sender, seg);
    data := s.segmentsOut;
    AckSends(c.sender, seg);
    AnsweredSends(h, seg);
    CleanSends(Flushed(Answered(h, seg)));
    assert data + [] == data;
  }

  lemma {:induction false} LaidNotBare(q: seq<TCPSegment>, isn: u32, lo: nat, hi: nat, W: seq<byte>, ended: bool)
    requires Laid(q, isn, lo, hi, W, ended)
    ensures forall k :: 0 <= k < |q| ==> SequenceLength(q[k]) > 0
  {
    if q != [] {
      LaidNotBare(q[1..], isn, lo + SequenceLength(q[0]), hi, W, ended);
    }
  }

  /** A bare segment was sent between `c` and `t`. */
  ghost predicate BareSent(c: Connection, t: Connection)
    requires |c.segmentsOut| <= |t.segmentsOut|
  {
    HasBare(t.segmentsOut[|c.segmentsOut|..])
  }

  ghost predicate HasBare(q: seq<TCPSegment>) {
    exists k :: 0 <= k < |q| && SequenceLength(q[k]) == 0
  }

  lemma NewSegments(c: Connection, t: Connection, q: seq<TCPSegment>)
    requires t.segmentsOut == c.segmentsOut + q
    ensures t.segmentsOut[|c.segmentsOut|..] == q
  {
  }

  lemma NoBare(r: Receiver, data: seq<TCPSegment>)
    requires forall k :: 0 <= k < |data| ==> SequenceLength(data[k]) > 0
    ensures !HasBare(StampedAll(r, data))
  {
    StampedEach(r, data);
  }

  lemma OneBare(r: Receiver, data: seq<TCPSegment>, bare: TCPSegment)
    requires SequenceLength(bare) == 0
    ensures var q := StampedAll(r, data + [bare]);
            HasBare(q) && |q| > 0 && q[|q| - 1] == Stamped(r, bare)
  {
    StampedEach(r, data + [bare]);
    var q := StampedAll(r, data + [bare]);
    assert q[|data|] == Stamped(r, (data + [bare])[|data|]);
    assert SequenceLength(q[|data|]) == 0;
  }

  /**
   Keep-alives: of the segments that occupy no sequence space, exactly those one
   before the number wanted are answered by a bare segment, with the current
   acknowledgment and window, at the sender's next number.
   */
  lemma KeepAliveIff(c: Connection, seg: TCPSegment)
    requires ConnOk(c) && Countable(c.sender) && c.active && !seg.header.rst && !OpensBy(c, seg)
    requires SequenceLength(seg) == 0
    ensures var t := AfterConnSegment(c, seg);
            && c.segmentsOut <= t.segmentsOut
            && (BareSent(c, t) <==> OneBefore(t.receiver, seg))
            && (BareSent(c, t) ==>
                  && |t.segmentsOut| > 0
                  && t.segmentsOut[|t.segmentsOut| - 1] == Stamped(t.receiver, BareAt(t.sender))
                  && CarriesAck(t.receiver, t.segmentsOut[|t.segmentsOut| - 1]))
  {
    var t := AfterConnSegment(c, seg);
    var data := ReplyTheorem(c, seg);
    var s := c.sender;
    LaidNotBare(data, s.isn, s.nextSeqno, t.sender.nextSeqno, s.stream.written, s.stream.ended);
    if OneBefore(t.receiver, seg) {
      OneBare(t.receiver, data, BareAt(t.sender));
      NewSegments(c, t, StampedAll(t.receiver, data + [BareAt(t.sender)]));
    } else {
      NoBare(t.receiver, data);
      NewSegments(c, t, StampedAll(t.receiver, data));
    }
  }

  // ---------------------------------------------------------------- opening and writing

  /** Filling sends exactly new data, laid out from where the sender stood. */
  lemma FillSends(c: Connection) returns (data: seq<TCPSegment>)
    requires SenderOk(c.sender) && Countable(c.sender) && c.sender.segmentsOut == []
    ensures var t := AfterConnect(c); var s := c.sender;
            && Laid(data, s.isn, s.nextSeqno, t.sender.nextSeqno, s.stream.written, s.stream.ended)
            && t.segmentsOut == c.segmentsOut + StampedAll(c.receiver, data)
            && t.sender.stream.written == s.stream.written && t.sender.stream.ended == s.stream.ended
  {
    FillQueues(c.sender);
    data := AfterFill(c.sender).segmentsOut;
  }

  /** What a call by the application sends: new data only, laid out from where the sender stood. */
  lemma CallSends(c: Connection, e: ConnEvent) returns (data: seq<TCPSegment>)
    requires ConnOk(c) && c.active && (e.Connects? || e.AppWrites? || e.AppEnds?)
    requires Countable(ConnNext(c, e).sender)
    ensures var t := ConnNext(c, e);
            && Laid(data, c.sender.isn, c.sender.nextSeqno, t.sender.nextSeqno,
                    t.sender.stream.written, t.sender.stream.ended)
            && t.segmentsOut == c.segmentsOut + StampedAll(c.receiver, data)
  {
    match e
    case Connects =>
      FillKeepsWritten(c.sender);
      data := FillSends(c);
    case AppWrites(bytes) =>
      if bytes == [] {
        data := [];
      } else {
        data := StreamSends(c, AfterWrite(c.sender.stream, bytes));
      }
    case AppEnds => data := StreamSends(c, AfterEnd(c.sender.stream));
  }

  lemma StreamSends(c: Connection, stream: Stream) returns (data: seq<TCPSegment>)
    requires SenderOk(c.sender) && c.sender.segmentsOut == []
    requires c.sender.stream.written <= stream.written && stream.read == c.sender.stream.read
    requires stream.error == c.sender.stream.error
    requires c.sender.stream.ended ==> stream.ended && stream.written == c.sender.stream.written
    requires Countable(AfterConnect(c.(sender := c.sender.(stream := stream))).sender)
    ensures var t := AfterConnect(c.(sender := c.sender.(stream := stream)));
            && Laid(data, c.sender.isn, c.sender.nextSeqno, t.sender.nextSeqno,
                    t.sender.stream.written, t.sender.stream.ended)
            && t.segmentsOut == c.segmentsOut + StampedAll(c.receiver, data)
  {
    var m := c.(sender := c.sender.(stream := stream));
    StreamOk(c.sender, stream);
    FillKeepsWritten(m.sender);
    data := FillSends(m);
  }

  lemma SynOnly(s: Sender)
    requires s.nextSeqno == 0 && s.segmentsOut == []
    ensures AfterFill(s).segmentsOut == [TCPSegment(BlankHeader().(syn := true, seqno := s.isn), [])]
    ensures AfterFill(s).nextSeqno == 1
  {
  }

  /**
   Opening: an endpoint that has sent nothing sends exactly one segment, its SYN at
   its initial number, both when told to connect and when it hears the other side's
   SYN; in the second case the SYN carries the acknowledgment and the window.
   */
  lemma OpeningTheorem(c: Connection, e: ConnEvent)
    requires ConnOk(c) && c.active && c.sender.nextSeqno == 0
    requires e.Connects? || (e.Segment? && !e.seg.header.rst && OpensBy(c, e.seg))
    ensures var t := ConnNext(c, e);
            && t.sender.nextSeqno == 1
            && |t.segmentsOut| == |c.segmentsOut| + 1 && c.segmentsOut <= t.segmentsOut
            && var syn := t.segmentsOut[|c.segmentsOut|];
               && syn.header.syn && !syn.header.fin && !syn.header.rst && syn.payload == []
               && syn.header.seqno == c.sender.isn
               && (t.receiver.syn ==> CarriesAck(t.receiver, syn))
               && (!t.receiver.syn ==> !syn.header.ack)
               && (e.Segment? ==> t.receiver == AfterSegment(c.receiver, e.seg) && t.receiver.syn)
  {
    SynOnly(c.sender);
    var q := AfterFill(c.sender).segmentsOut;
    StampedEach(if e.Segment? then AfterSegment(c.receiver, e.seg) else c.receiver, q);
  }

  /** A listening endpoint answers a plain SYN by acknowledging the number after it, and offers all its buffer. */
  lemma PassiveOpen(rtTimeout: u16, recvCapacity: nat, sendCapacity: nat, isn: u32, seg: TCPSegment)
    requires seg.header.syn && !seg.header.fin && !seg.header.rst && seg.payload == []
    ensures var t := AfterConnSegment(FreshConnection(rtTimeout, recvCapacity, sendCapacity, isn), seg);
            && |t.segmentsOut| == 1
            && var h := t.segmentsOut[0].header;
               && h.syn && h.ack && !h.fin && !h.rst && h.seqno == isn
               && h.ackno == (seg.header.seqno + 1) % TWO32 && h.win == Min(recvCapacity, 65535)
  {
    var f := FreshConnection(rtTimeout, recvCapacity, sendCapacity, isn);
    FreshConnOk(rtTimeout, recvCapacity, sendCapacity, isn);
    var r := AfterSegment(f.receiver, seg);
    assert r.syn && !r.store.out.ended && r.store.out.written == [] && AbsoluteAck(r) == 1;
    OpeningTheorem(f, Segment(seg));
  }
}
