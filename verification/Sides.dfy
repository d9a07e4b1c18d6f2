/** One endpoint seen together with its peer's two halves: what each of its calls keeps. */
module Sides {
  import opened Words
  import opened ByteStreams
  import opened Stores
  import opened Segments
  import opened Receivers
  import opened Senders
  import opened Segmentation
  import opened SenderRuns
  import opened TcpStates
  import opened Links
  import opened Connections

  /** A segment on the wire from the endpoint with halves `s` and `r`, whose peer sends with `ps`. */
  ghost predicate From(seg: TCPSegment, s: Sender, r: Receiver, ps: Sender) {
    Emitted(seg, s) && (seg.header.ack ==> AckedBy(seg.header.ackno, ps, r))
  }

  /** Segments as the sender makes them carry no acknowledgment yet and are no resets. */
  predicate Plain(q: seq<TCPSegment>) {
    forall k :: 0 <= k < |q| ==> !q[k].header.ack && !q[k].header.rst
  }

  predicate PlainSender(s: Sender) {
    Plain(s.outstanding) && Plain(s.segmentsOut)
  }

  /** The endpoint `c` and its peer's halves `ps` and `pr` are linked both ways. */
  ghost predicate Side(c: Connection, ps: Sender, pr: Receiver) {
    && Linked(c.sender, pr) && Linked(ps, c.receiver)
    && OutOk(c.sender) && PlainSender(c.sender)
    && (forall seg :: seg in c.segmentsOut ==> From(seg, c.sender, c.receiver, ps))
  }

  /** What the peer may rely on when the endpoint moves. */
  predicate Advances(c: Connection, t: Connection) {
    && Onward(c.sender, t.sender)
    && AbsoluteAck(c.receiver) <= AbsoluteAck(t.receiver)
    && (c.receiver.syn ==> t.receiver.syn)
  }

  /** Only what says where and what it is decides whether a segment was emitted. */
  lemma EmittedAlike(seg: TCPSegment, like: TCPSegment, s: Sender)
    requires Emitted(seg, s) && like.payload == seg.payload && like.header.seqno == seg.header.seqno
    requires like.header.syn == seg.header.syn && like.header.fin == seg.header.fin
    ensures Emitted(like, s)
  {
    var a: nat :| EmittedAt(seg, a, s);
    assert EmittedAt(like, a, s);
  }

  lemma FromPersists(seg: TCPSegment, c: Connection, t: Connection, ps: Sender)
    requires From(seg, c.sender, c.receiver, ps) && Advances(c, t)
    ensures From(seg, t.sender, t.receiver, ps)
  {
    OnwardEmitted(seg, c.sender, t.sender);
  }

  // ---------------------------------------------------------------- plain segments

  lemma {:induction false} FillLoopPlain(s: Sender)
    requires PlainSender(s)
    ensures PlainSender(AfterFillLoop(s))
    decreases |s.stream.written| - s.stream.read
  {
    if RemainingWindow(s) > 0 && !Eof(s.stream) && s.nextSeqno > InFlight(s) && (|NextPayload(s)| > 0 || FinRides(s)) {
      FillLoopPlain(AfterSend(Taken(s), DataSegment(NextPayload(s), FinRides(s))));
    }
  }

  lemma FillPlain(s: Sender)
    requires PlainSender(s)
    ensures PlainSender(AfterFill(s))
  {
    FillLoopPlain(s);
  }

  lemma {:induction false} PopPlain(q: seq<TCPSegment>, ackno: u32)
    requires Plain(q)
    ensures Plain(PopAcked(q, ackno))
  {
    if q != [] {
      PopPlain(q[1..], ackno);
    }
  }

  lemma AckPlain(s: Sender, ackno: u32, win: u16)
    requires PlainSender(s)
    ensures PlainSender(AfterAck(s, ackno, win))
  {
    PopPlain(s.outstanding, ackno);
    FillPlain(Acknowledged(s, ackno, win));
  }

  // ---------------------------------------------------------------- building blocks

  lemma SetSender(c: Connection, s: Sender, ps: Sender, pr: Receiver)
    requires Side(c, ps, pr) && Linked(s, pr) && Onward(c.sender, s) && OutOk(s) && PlainSender(s)
    ensures Side(c.(sender := s), ps, pr) && Advances(c, c.(sender := s))
  {
    forall seg | seg in c.segmentsOut ensures From(seg, s, c.receiver, ps) {
      FromPersists(seg, c, c.(sender := s), ps);
    }
  }

  /** The sender moved without taking an acknowledgment. */
  lemma MoveSender(c: Connection, s: Sender, ps: Sender, pr: Receiver)
    requires Side(c, ps, pr) && SenderOk(s) && Onward(c.sender, s) && s.lastAckno == c.sender.lastAckno
    requires OutOk(s) && PlainSender(s)
    ensures Side(c.(sender := s), ps, pr) && Advances(c, c.(sender := s))
  {
    SenderMoves(c.sender, s, pr);
    SetSender(c, s, ps, pr);
  }

  lemma SetReceiver(c: Connection, r: Receiver, ps: Sender, pr: Receiver)
    requires Side(c, ps, pr) && Linked(ps, r) && AbsoluteAck(c.receiver) <= AbsoluteAck(r) && (c.receiver.syn ==> r.syn)
    ensures Side(c.(receiver := r), ps, pr) && Advances(c, c.(receiver := r))
  {
    forall seg | seg in c.segmentsOut ensures From(seg, c.sender, r, ps) {
      FromPersists(seg, c, c.(receiver := r), ps);
    }
  }

  lemma FillSide(c: Connection, ps: Sender, pr: Receiver)
    requires Side(c, ps, pr) && Short(c.sender)
    ensures Side(Filled(c), ps, pr) && Advances(c, Filled(c)) && Short(Filled(c).sender)
  {
    FillOk(c.sender);
    FillExtends(c.sender);
    FillPlain(c.sender);
    MoveSender(c, AfterFill(c.sender), ps, pr);
  }

  /** A segment stamped with what the receiver has now may go on the wire. */
  lemma StampedFrom(c: Connection, seg: TCPSegment, ps: Sender)
    requires Linked(ps, c.receiver) && Short(ps) && Emitted(seg, c.sender) && !seg.header.ack
    ensures From(Stamped(c.receiver, seg), c.sender, c.receiver, ps)
  {
    EmittedAlike(seg, Stamped(c.receiver, seg), c.sender);
    if c.receiver.syn {
      AckGiven(ps, c.receiver);
    }
  }

  lemma {:induction false} StampedAllFrom(c: Connection, q: seq<TCPSegment>, ps: Sender)
    requires Linked(ps, c.receiver) && Short(ps) && Plain(q) && forall seg :: seg in q ==> Emitted(seg, c.sender)
    ensures forall seg :: seg in StampedAll(c.receiver, q) ==> From(seg, c.sender, c.receiver, ps)
  {
    if q != [] {
      StampedFrom(c, q[0], ps);
      StampedAllFrom(c, q[1..], ps);
    }
  }

  lemma DropQueue(s: Sender, q: seq<TCPSegment>)
    requires SenderOk(s) && OutOk(s) && PlainSender(s) && Plain(q) && forall seg :: seg in q ==> seg in s.segmentsOut
    ensures var t := s.(segmentsOut := q);
            SenderOk(t) && OutOk(t) && PlainSender(t) && Onward(s, t)
  {
    var t := s.(segmentsOut := q);
    forall seg | seg in q ensures Emitted(seg, t) {
      OnwardEmitted(seg, s, t);
    }
  }

  lemma FlushSide(c: Connection, ps: Sender, pr: Receiver)
    requires Side(c, ps, pr) && Short(ps)
    ensures Side(Flushed(c), ps, pr) && Advances(c, Flushed(c))
  {
    var s := c.sender.(segmentsOut := []);
    DropQueue(c.sender, []);
    MoveSender(c, s, ps, pr);
    StampedAllFrom(c, c.sender.segmentsOut, ps);
    forall seg | seg in StampedAll(c.receiver, c.sender.segmentsOut) ensures From(seg, s, c.receiver, ps) {
      FromPersists(seg, c, c.(sender := s), ps);
    }
  }

  lemma ErrorLinked(s: Sender, r: Receiver)
    requires Linked(s, r)
    ensures Linked(s.(stream := AfterError(s.stream)), r)
    ensures Linked(s, AfterReceiverError(r))
  {
    assert forall i: nat :: Knows(AfterReceiverError(r).store, i) <==> Knows(r.store, i);
  }

  lemma UncleanSide(c: Connection, ps: Sender, pr: Receiver)
    requires Side(c, ps, pr)
    ensures Side(UncleanShutdown(c), ps, pr) && Advances(c, UncleanShutdown(c))
  {
    var s := c.sender.(stream := AfterError(c.sender.stream));
    ErrorLinked(c.sender, pr);
    StreamOk(c.sender, AfterError(c.sender.stream));
    SetSender(c, s, ps, pr);
    ErrorLinked(ps, c.receiver);
    SetReceiver(c.(sender := s), AfterReceiverError(c.receiver), ps, pr);
  }

  lemma AdvancesThen(c: Connection, m: Connection, t: Connection)
    requires Advances(c, m) && Advances(m, t)
    ensures Advances(c, t)
  {
  }

  // ---------------------------------------------------------------- each call

  lemma ConnectSide(c: Connection, ps: Sender, pr: Receiver)
    requires Side(c, ps, pr) && Short(c.sender) && Short(ps)
    ensures Side(AfterConnect(c), ps, pr) && Advances(c, AfterConnect(c))
  {
    FillSide(c, ps, pr);
    FlushSide(Filled(c), ps, pr);
  }

  lemma StreamSide(c: Connection, stream: Stream, ps: Sender, pr: Receiver)
    requires Side(c, ps, pr) && Short(c.sender.(stream := stream)) && Short(ps)
    requires c.sender.stream.written <= stream.written && stream.read == c.sender.stream.read
    requires stream.error == c.sender.stream.error
    requires c.sender.stream.ended ==> stream.ended && stream.written == c.sender.stream.written
    ensures var t := AfterConnect(c.(sender := c.sender.(stream := stream)));
            Side(t, ps, pr) && Advances(c, t)
  {
    StreamOk(c.sender, stream);
    MoveSender(c, c.sender.(stream := stream), ps, pr);
    ConnectSide(c.(sender := c.sender.(stream := stream)), ps, pr);
  }

  lemma TickSide(c: Connection, ms: nat, ps: Sender, pr: Receiver)
    requires Side(c, ps, pr) && Short(c.sender) && Short(ps)
    ensures var t := TimePassed(c, ms);
            Side(t, ps, pr) && Advances(c, t) && Short(t.sender)
  {
    TickOk(c.sender, ms);
    MoveSender(c, AfterTick(c.sender, ms), ps, pr);
  }

  lemma RstSide(c: Connection, ps: Sender, pr: Receiver)
    requires Side(c, ps, pr) && Short(c.sender) && Short(ps)
    ensures Side(RstSent(c), ps, pr) && Advances(c, RstSent(c))
  {
    FillSide(c, ps, pr);
    var f := Filled(c);
    if f.sender.segmentsOut == [] {
      EmptySide(f, ps, pr);
    } else {
      PopSide(f, ps, pr);
    }
  }

  lemma EmptySide(c: Connection, ps: Sender, pr: Receiver)
    requires Side(c, ps, pr) && Short(c.sender)
    ensures var t := c.(sender := AfterSendEmpty(c.sender));
            Side(t, ps, pr) && Advances(c, t) && Short(t.sender)
  {
    EmptyOk(c.sender);
    MoveSender(c, AfterSendEmpty(c.sender), ps, pr);
  }

  /** The front of the sender's queue goes out, stamped and marked RST. */
  lemma PopSide(c: Connection, ps: Sender, pr: Receiver)
    requires Side(c, ps, pr) && Short(ps) && c.sender.segmentsOut != []
    ensures var seg := Stamped(c.receiver, c.sender.segmentsOut[0]);
            var t := c.(sender := c.sender.(segmentsOut := c.sender.segmentsOut[1..]),
                        segmentsOut := c.segmentsOut + [seg.(header := seg.header.(rst := true))]);
            Side(t, ps, pr) && Advances(c, t)
  {
    var q := c.sender.segmentsOut;
    var s := c.sender.(segmentsOut := q[1..]);
    DropQueue(c.sender, q[1..]);
    MoveSender(c, s, ps, pr);
    StampedFrom(c, q[0], ps);
    var seg := Stamped(c.receiver, q[0]);
    var rst := seg.(header := seg.header.(rst := true));
    EmittedAlike(seg, rst, c.sender);
    FromPersists(rst, c, c.(sender := s), ps);
  }

  lemma CleanSide(c: Connection, ps: Sender, pr: Receiver)
    requires Side(c, ps, pr)
    ensures Side(CleanShutdown(c), ps, pr) && Advances(c, CleanShutdown(c))
  {
  }

  lemma GiveUpSide(c: Connection, ps: Sender, pr: Receiver)
    requires Side(c, ps, pr) && Short(c.sender) && Short(ps)
    ensures Side(UncleanShutdown(RstSent(c)), ps, pr) && Advances(c, UncleanShutdown(RstSent(c)))
  {
    RstSide(c, ps, pr);
    var t := RstSent(c);
    UncleanSide(t, ps, pr);
    AdvancesThen(c, t, UncleanShutdown(t));
  }

  lemma SettleSide(c: Connection, ps: Sender, pr: Receiver)
    requires Side(c, ps, pr) && Short(ps)
    ensures Side(CleanShutdown(Flushed(c)), ps, pr) && Advances(c, CleanShutdown(Flushed(c)))
  {
    FlushSide(c, ps, pr);
    var t := Flushed(c);
    CleanSide(t, ps, pr);
    AdvancesThen(c, t, CleanShutdown(t));
  }

  lemma ConcludeSide(c: Connection, ps: Sender, pr: Receiver)
    requires Side(c, ps, pr) && Short(c.sender) && Short(ps)
    ensures Side(Concluded(c), ps, pr) && Advances(c, Concluded(c))
  {
    if c.sender.retransmissions > MAX_RETX_ATTEMPTS {
      GiveUpSide(c, ps, pr);
    } else {
      SettleSide(c, ps, pr);
    }
  }

  lemma ConnTickSide(c: Connection, ms: nat, ps: Sender, pr: Receiver)
    requires Side(c, ps, pr) && Short(c.sender) && Short(ps)
    ensures Side(AfterConnTick(c, ms), ps, pr) && Advances(c, AfterConnTick(c, ms))
  {
    if c.active {
      TickSide(c, ms, ps, pr);
      var m := TimePassed(c, ms);
      ConcludeSide(m, ps, pr);
      AdvancesThen(c, m, Concluded(m));
    }
  }

  /** What `Side` asks of the sender alone. */
  ghost predicate HalfSide(s: Sender, pr: Receiver) {
    Linked(s, pr) && OutOk(s) && PlainSender(s) && Short(s)
  }

  /** The part of the answer that takes the acknowledgment. */
  lemma AckHalf(s: Sender, seg: TCPSegment, pr: Receiver)
    requires HalfSide(s, pr) && (seg.header.ack ==> AckedBy(seg.header.ackno, s, pr))
    ensures HalfSide(AckTaken(s, seg), pr) && Onward(s, AckTaken(s, seg))
  {
    if seg.header.ack {
      AckArrives(s, pr, seg.header.ackno, seg.header.win);
      AckOk(s, seg.header.ackno, seg.header.win);
      AckPlain(s, seg.header.ackno, seg.header.win);
      FillKeepsWritten(Acknowledged(s, seg.header.ackno, seg.header.win));
    }
  }

  lemma EmptyHalf(s: Sender, pr: Receiver)
    requires HalfSide(s, pr)
    ensures HalfSide(AfterSendEmpty(s), pr) && Onward(s, AfterSendEmpty(s))
  {
    EmptyOk(s);
    SenderMoves(s, AfterSendEmpty(s), pr);
  }

  lemma OnwardThen(s: Sender, m: Sender, t: Sender)
    requires Onward(s, m) && Onward(m, t)
    ensures Onward(s, t)
  {
  }

  lemma AnswerHalf(s: Sender, r: Receiver, seg: TCPSegment, pr: Receiver)
    requires HalfSide(s, pr) && (seg.header.ack ==> AckedBy(seg.header.ackno, s, pr))
    ensures var t := KeptAlive(Replied(AckTaken(s, seg), seg), r, seg);
            HalfSide(t, pr) && Onward(s, t)
  {
    var s1 := AckTaken(s, seg);
    AckHalf(s, seg, pr);
    var s2 := Replied(s1, seg);
    EmptyHalf(s1, pr);
    OnwardThen(s, s1, s2);
    var s3 := KeptAlive(s2, r, seg);
    EmptyHalf(s2, pr);
    OnwardThen(s, s2, s3);
  }

  lemma AnswerSide(c: Connection, seg: TCPSegment, ps: Sender, pr: Receiver)
    requires Side(c, ps, pr) && Short(c.sender) && (seg.header.ack ==> AckedBy(seg.header.ackno, c.sender, pr))
    ensures Side(Answered(c, seg), ps, pr) && Advances(c, Answered(c, seg))
  {
    AnswerHalf(c.sender, c.receiver, seg, pr);
    SetSender(c, Answered(c, seg).sender, ps, pr);
  }

  /** A segment from the peer, delivered late, twice or out of order. */
  lemma SegmentSide(c: Connection, seg: TCPSegment, ps: Sender, pr: Receiver) returns (t: Connection)
    requires Side(c, ps, pr) && Short(c.sender) && Short(ps) && From(seg, ps, pr, c.sender)
    ensures t == AfterConnSegment(c, seg)
    ensures Side(t, ps, pr) && Advances(c, t)
  {
    t := c;
    if c.active && seg.header.rst {
      t := UncleanShutdown(c.(sinceReceived := 0));
      UncleanSide(c.(sinceReceived := 0), ps, pr);
    } else if c.active {
      var m := Heard(c, seg);
      ArrivalSide(c, m, seg, ps, pr);
      if SummaryOfReceiver(m.receiver) == SYN_RECV && SummaryOfSender(m.sender) == CLOSED {
        t := AfterConnect(m);
        ConnectSide(m, ps, pr);
        AdvancesThen(c, m, t);
      } else {
        var u := Answered(m, seg);
        AnswerSide(m, seg, ps, pr);
        AdvancesThen(c, m, u);
        t := CleanShutdown(Flushed(u));
        SettleSide(u, ps, pr);
        AdvancesThen(c, u, t);
      }
    }
  }

  lemma ArrivalSide(c: Connection, m: Connection, seg: TCPSegment, ps: Sender, pr: Receiver)
    requires Side(c, ps, pr) && Short(ps) && Emitted(seg, ps)
    requires m == Heard(c, seg)
    ensures Side(m, ps, pr) && Advances(c, m)
  {
    SegmentArrives(ps, c.receiver, seg);
    SetReceiver(c, m.receiver, ps, pr);
  }

  lemma SideStep(c: Connection, e: ConnEvent, ps: Sender, pr: Receiver)
    requires Side(c, ps, pr) && Short(c.sender) && Short(ConnNext(c, e).sender) && Short(ps)
    requires e.Segment? ==> From(e.seg, ps, pr, c.sender)
    ensures Side(ConnNext(c, e), ps, pr) && Advances(c, ConnNext(c, e))
  {
    match e
    case Connects => ConnectSide(c, ps, pr);
    case AppWrites(data) => WriteSide(c, data, ps, pr);
    case AppEnds => StreamSide(c, AfterEnd(c.sender.stream), ps, pr);
    case Ticks(ms) => ConnTickSide(c, ms, ps, pr);
    case Segment(seg) => var t := SegmentSide(c, seg, ps, pr);
    case AppTakes(n) =>
      ReadHappens(ps, c.receiver, n);
      SetReceiver(c, AfterRead(c.receiver, n), ps, pr);
  }

  lemma WriteSide(c: Connection, data: seq<byte>, ps: Sender, pr: Receiver)
    requires Side(c, ps, pr) && Short(c.sender) && Short(AfterConnWrite(c, data).sender) && Short(ps)
    ensures Side(AfterConnWrite(c, data), ps, pr) && Advances(c, AfterConnWrite(c, data))
  {
    if c.active && data != [] {
      FillKeepsWritten(AfterAppWrite(c.sender, data));
      StreamSide(c, AfterWrite(c.sender.stream, data), ps, pr);
    }
  }
}
