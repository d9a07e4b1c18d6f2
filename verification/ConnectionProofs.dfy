/** What one endpoint keeps in every run, whatever segments arrive. */
module ConnectionProofs {
  import opened Words
  import opened WrappingIntegers
  import opened ByteStreams
  import opened Stores
  import opened Segments
  import opened Receivers
  import opened Senders
  import opened Segmentation
  import opened SenderRuns
  import opened TcpStates
  import opened Connections

  /** The timeout after `n` doublings. */
  function Doubled(timeout: nat, n: nat): nat {
    if n == 0 then timeout else 2 * Doubled(timeout, n - 1)
  }

  /** The timeout is the initial one doubled once per retransmission in a row, at most nine. */
  predicate BackoffOk(s: Sender, timeout: u16) {
    && s.initialRto == timeout && s.retransmissions <= MAX_RETX_ATTEMPTS + 1
    && s.rto == Doubled(timeout, s.retransmissions)
  }

  ghost predicate ConnOk(c: Connection) {
    && SenderOk(c.sender)
    && BackoffOk(c.sender, c.rtTimeout)
    && (!c.sender.stream.error ==> c.sender.segmentsOut == [])
    && (c.active ==> c.sender.retransmissions <= MAX_RETX_ATTEMPTS)
    && (c.sender.stream.error <==> c.receiver.store.out.error)
    && (c.active ==> !c.sender.stream.error)
    && (!c.active && !c.sender.stream.error ==>
          SummaryOfSender(c.sender) == FIN_ACKED && SummaryOfReceiver(c.receiver) == FIN_RECV)
    && (!c.linger ==> c.receiver.store.out.ended)
  }

  // ---------------------------------------------------------------- the halves

  /** The sender went on without a retransmission. */
  predicate Steady(s: Sender, t: Sender) {
    && Onward(s, t)
    && t.stream.error == s.stream.error
    && ((t.rto == s.rto && t.retransmissions == s.retransmissions) || (t.rto == t.initialRto && t.retransmissions == 0))
  }

  lemma FillSteady(s: Sender)
    requires SenderOk(s) && Countable(s)
    ensures SenderOk(AfterFill(s)) && Steady(s, AfterFill(s))
    ensures s.segmentsOut <= AfterFill(s).segmentsOut
  {
    FillOk(s);
    FillExtends(s);
  }

  lemma AckSteady(s: Sender, ackno: u32, win: u16)
    requires SenderOk(s) && Countable(s)
    ensures SenderOk(AfterAck(s, ackno, win)) && Steady(s, AfterAck(s, ackno, win))
  {
    AckOk(s, ackno, win);
    if Unwrap(ackno, s.isn, s.lastAckno) <= s.nextSeqno {
      AcknowledgedOk(s, ackno, win);
      FillSteady(Acknowledged(s, ackno, win));
    }
  }

  lemma SteadyBackoff(s: Sender, t: Sender, timeout: u16)
    requires Steady(s, t) && BackoffOk(s, timeout)
    ensures BackoffOk(t, timeout) && t.retransmissions <= s.retransmissions
  {
  }

  lemma {:induction false} DoubledBound(timeout: u16, n: nat, bound: nat)
    requires timeout <= bound
    ensures Doubled(timeout, n) <= Doubled(bound, n)
  {
    if n > 0 {
      DoubledBound(timeout, n - 1, bound);
    }
  }

  /** Doubling a timeout within the bound never leaves 32 bits. */
  lemma DoublingFits(timeout: u16, n: nat)
    requires n <= MAX_RETX_ATTEMPTS
    ensures (Doubled(timeout, n) * 2) % TWO32 == Doubled(timeout, n + 1) < TWO32
  {
    DoubledBound(timeout, n, 0xffff);
    DoubledGrows(0xffff, n, MAX_RETX_ATTEMPTS);
    assert Doubled(0xffff, 4) == 0xffff0;
    assert Doubled(0xffff, 8) == 0xffff00;
  }

  lemma {:induction false} DoubledGrows(timeout: nat, m: nat, n: nat)
    requires m <= n
    ensures Doubled(timeout, m) <= Doubled(timeout, n)
    decreases n
  {
    if m < n {
      DoubledGrows(timeout, m, n - 1);
    }
  }

  lemma TickBackoff(s: Sender, ms: nat, timeout: u16)
    requires BackoffOk(s, timeout) && s.retransmissions <= MAX_RETX_ATTEMPTS
    ensures BackoffOk(AfterTick(s, ms), timeout)
  {
    DoublingFits(timeout, s.retransmissions);
  }

  lemma RankForward(r: Receiver, t: Receiver)
    requires r.syn ==> t.syn
    requires r.store.out.ended ==> t.store.out.ended
    requires r.store.out.error ==> t.store.out.error
    ensures ReceiverRank(SummaryOfReceiver(r)) <= ReceiverRank(SummaryOfReceiver(t))
  {
  }

  lemma ReceiverForward(r: Receiver, seg: TCPSegment)
    ensures ReceiverGoes(r, AfterSegment(r, seg))
  {
    if r.syn {
      PushForward(r.store, seg.payload, StreamIndex(r, seg), seg.header.fin);
    } else {
      PushForward(r.store, seg.payload, 0, seg.header.fin);
    }
  }

  /** The receiver kept or gained its SYN and its end, and its error flag is as before. */
  predicate ReceiverGoes(r: Receiver, t: Receiver) {
    && (r.syn ==> t.syn)
    && (r.store.out.ended ==> t.store.out.ended)
    && t.store.out.error == r.store.out.error
  }

  // ---------------------------------------------------------------- each call

  /** The two endpoints' halves after a call that is not a shutdown. */
  ghost predicate Goes(c: Connection, t: Connection) {
    && SenderOk(t.sender) && Steady(c.sender, t.sender)
    && t.rtTimeout == c.rtTimeout
    && ReceiverGoes(c.receiver, t.receiver)
    && t.linger == c.linger && t.active == c.active
    && t.sender.segmentsOut == []
  }

  lemma GoesOk(c: Connection, t: Connection)
    requires ConnOk(c) && Goes(c, t) && Countable(t.sender)
    ensures ConnOk(t)
  {
    SteadyBackoff(c.sender, t.sender, c.rtTimeout);
    SenderForward(c.sender, t.sender);
  }

  lemma GoesRanks(c: Connection, t: Connection)
    requires SenderOk(c.sender) && Goes(c, t) && Countable(t.sender)
    ensures SenderRank(SummaryOfSender(c.sender)) <= SenderRank(SummaryOfSender(t.sender))
    ensures ReceiverRank(SummaryOfReceiver(c.receiver)) <= ReceiverRank(SummaryOfReceiver(t.receiver))
  {
    SenderForward(c.sender, t.sender);
    RankForward(c.receiver, t.receiver);
  }

  lemma CleanOk(c: Connection)
    requires ConnOk(c)
    ensures ConnOk(CleanShutdown(c))
  {
  }

  lemma FlushedGoes(c: Connection, t: Connection)
    requires SenderOk(t.sender) && Steady(c.sender, t.sender)
    requires t.rtTimeout == c.rtTimeout && t.linger == c.linger && t.active == c.active
    requires ReceiverGoes(c.receiver, t.receiver)
    ensures Goes(c, Flushed(t))
  {
  }

  lemma ConnectGoes(c: Connection, t: Connection)
    requires SenderOk(t.sender) && Countable(t.sender) && Steady(c.sender, t.sender)
    requires t.rtTimeout == c.rtTimeout && t.linger == c.linger && t.active == c.active
    requires ReceiverGoes(c.receiver, t.receiver)
    ensures Goes(c, AfterConnect(t))
  {
    FillSteady(t.sender);
    FlushedGoes(c, Filled(t));
  }

  lemma SendEmptySteady(s: Sender)
    requires SenderOk(s)
    ensures SenderOk(AfterSendEmpty(s)) && Steady(s, AfterSendEmpty(s))
  {
  }

  lemma RepliedSteady(s: Sender, r: Receiver, seg: TCPSegment)
    requires SenderOk(s)
    ensures SenderOk(Replied(s, seg)) && Steady(s, Replied(s, seg))
    ensures SenderOk(KeptAlive(s, r, seg)) && Steady(s, KeptAlive(s, r, seg))
  {
    SendEmptySteady(s);
  }

  lemma SteadyThen(s: Sender, m: Sender, t: Sender)
    requires Steady(s, m) && Steady(m, t)
    ensures Steady(s, t)
  {
  }

  lemma AnsweredSteady(c: Connection, seg: TCPSegment)
    requires SenderOk(c.sender) && Countable(c.sender)
    ensures SenderOk(Answered(c, seg).sender) && Steady(c.sender, Answered(c, seg).sender)
  {
    var s1 := AckTaken(c.sender, seg);
    if seg.header.ack { AckSteady(c.sender, seg.header.ackno, seg.header.win); }
    var s2 := Replied(s1, seg);
    RepliedSteady(s1, c.receiver, seg);
    SteadyThen(c.sender, s1, s2);
    var s3 := KeptAlive(s2, c.receiver, seg);
    RepliedSteady(s2, c.receiver, seg);
    SteadyThen(c.sender, s2, s3);
  }

  /** What taking in a segment leaves before the shutdown test. */
  function TakenIn(c: Connection, seg: TCPSegment): Connection {
    var t := Heard(c, seg);
    if SummaryOfReceiver(t.receiver) == SYN_RECV && SummaryOfSender(t.sender) == CLOSED then AfterConnect(t)
    else Flushed(Answered(t, seg))
  }

  lemma SegmentIs(c: Connection, seg: TCPSegment)
    requires c.active && !seg.header.rst
    ensures AfterConnSegment(c, seg) == TakenIn(c, seg)
         || AfterConnSegment(c, seg) == CleanShutdown(TakenIn(c, seg))
  {
  }

  lemma SegmentGoes(c: Connection, seg: TCPSegment)
    requires SenderOk(c.sender) && Countable(c.sender)
    ensures Goes(c, TakenIn(c, seg)) && Countable(TakenIn(c, seg).sender)
  {
    var t := Heard(c, seg);
    ReceiverForward(c.receiver, seg);
    if SummaryOfReceiver(t.receiver) == SYN_RECV && SummaryOfSender(t.sender) == CLOSED {
      ConnectGoes(c, t);
      FillKeepsWritten(t.sender);
    } else {
      AnsweredSteady(t, seg);
      FlushedGoes(c, Answered(t, seg));
      AnswerKeepsWritten(t, seg);
    }
  }

  lemma SegmentOk(c: Connection, seg: TCPSegment)
    requires ConnOk(c) && Countable(c.sender)
    ensures ConnOk(AfterConnSegment(c, seg))
  {
    if c.active && !seg.header.rst {
      SegmentIs(c, seg);
      SegmentGoes(c, seg);
      GoesOk(c, TakenIn(c, seg));
      CleanOk(TakenIn(c, seg));
    }
  }

  lemma AnswerKeepsWritten(c: Connection, seg: TCPSegment)
    ensures Answered(c, seg).sender.stream.written == c.sender.stream.written
  {
    if seg.header.ack {
      FillKeepsWritten(Acknowledged(c.sender, seg.header.ackno, seg.header.win));
    }
  }

  lemma RstSentOk(c: Connection)
    requires SenderOk(c.sender) && Countable(c.sender) && BackoffOk(c.sender, c.rtTimeout)
    ensures var t := RstSent(c);
            && SenderOk(t.sender) && BackoffOk(t.sender, c.rtTimeout)
            && t.receiver == c.receiver && t.linger == c.linger && t.rtTimeout == c.rtTimeout
  {
    var s := AfterFill(c.sender);
    FillSteady(c.sender);
    SteadyBackoff(c.sender, s, c.rtTimeout);
    QueueAside(s, s.segmentsOut + [Numbered(s, DataSegment([], false))], c.rtTimeout);
    if s.segmentsOut != [] {
      QueueAside(s, s.segmentsOut[1..], c.rtTimeout);
    }
  }

  /** The outgoing queue plays no part in the sender's invariant. */
  lemma QueueAside(s: Sender, q: seq<TCPSegment>, timeout: u16)
    requires SenderOk(s) && BackoffOk(s, timeout)
    ensures SenderOk(s.(segmentsOut := q)) && BackoffOk(s.(segmentsOut := q), timeout)
  {
  }

  lemma UncleanOk(c: Connection)
    requires SenderOk(c.sender) && BackoffOk(c.sender, c.rtTimeout) && (!c.linger ==> c.receiver.store.out.ended)
    ensures ConnOk(UncleanShutdown(c))
  {
  }

  lemma TickFlushedOk(c: Connection, ms: nat)
    requires ConnOk(c) && Countable(c.sender) && c.active
    requires AfterTick(c.sender, ms).retransmissions <= MAX_RETX_ATTEMPTS
    ensures ConnOk(Flushed(TimePassed(c, ms)))
  {
    TickOk(c.sender, ms);
    TickBackoff(c.sender, ms, c.rtTimeout);
    assert AfterTick(c.sender, ms).stream == c.sender.stream;
  }

  lemma GiveUpOk(c: Connection, ms: nat)
    requires ConnOk(c) && Countable(c.sender) && c.active
    ensures ConnOk(UncleanShutdown(RstSent(TimePassed(c, ms))))
  {
    var t := TimePassed(c, ms);
    TickOk(c.sender, ms);
    TickBackoff(c.sender, ms, c.rtTimeout);
    RstSentOk(t);
    UncleanOk(RstSent(t));
  }

  lemma ConnTickOk(c: Connection, ms: nat)
    requires ConnOk(c) && Countable(c.sender)
    ensures ConnOk(AfterConnTick(c, ms))
  {
    if c.active {
      var t := TimePassed(c, ms);
      if t.sender.retransmissions > MAX_RETX_ATTEMPTS {
        GiveUpOk(c, ms);
      } else {
        TickFlushedOk(c, ms);
        CleanOk(Flushed(t));
      }
    }
  }

  lemma ConnStepOk(c: Connection, e: ConnEvent)
    requires ConnOk(c) && Countable(ConnNext(c, e).sender) && Countable(c.sender)
    ensures ConnOk(ConnNext(c, e))
  {
    match e
    case Connects =>
      ConnectGoes(c, c);
      GoesOk(c, AfterConnect(c));
    case AppWrites(data) =>
      if c.active && data != [] {
        StreamGoes(c, AfterWrite(c.sender.stream, data));
      }
    case AppEnds => StreamGoes(c, AfterEnd(c.sender.stream));
    case Ticks(ms) => ConnTickOk(c, ms);
    case Segment(seg) => SegmentOk(c, seg);
    case AppTakes(n) =>
  }

  lemma StreamGoes(c: Connection, stream: Stream)
    requires ConnOk(c)
    requires c.sender.stream.written <= stream.written && stream.read == c.sender.stream.read
    requires stream.error == c.sender.stream.error
    requires c.sender.stream.ended ==> stream.ended && stream.written == c.sender.stream.written
    requires var t := c.(sender := c.sender.(stream := stream));
             Countable(t.sender) || Countable(Flushed(Filled(t)).sender)
    ensures ConnOk(Flushed(Filled(c.(sender := c.sender.(stream := stream)))))
  {
    var t := c.(sender := c.sender.(stream := stream));
    StreamOk(c.sender, stream);
    FillKeepsWritten(t.sender);
    ConnectGoes(c, t);
    GoesOk(c, AfterConnect(t));
  }

  lemma SegmentGrows(c: Connection, seg: TCPSegment)
    ensures c.sender.stream.written <= AfterConnSegment(c, seg).sender.stream.written
  {
    if c.active && !seg.header.rst {
      var t := Heard(c, seg);
      FillKeepsWritten(t.sender);
      AnswerKeepsWritten(t, seg);
      SegmentIs(c, seg);
    }
  }

  lemma ConnStepGrows(c: Connection, e: ConnEvent)
    ensures c.sender.stream.written <= ConnNext(c, e).sender.stream.written
  {
    match e
    case Connects => FillKeepsWritten(c.sender);
    case AppWrites(data) => FillKeepsWritten(AfterAppWrite(c.sender, data));
    case AppEnds => FillKeepsWritten(AfterAppEnd(c.sender));
    case Ticks(ms) => FillKeepsWritten(AfterTick(c.sender, ms));
    case Segment(seg) => SegmentGrows(c, seg);
    case AppTakes(n) =>
  }

  lemma {:induction false} ConnRunOk(c: Connection, es: seq<ConnEvent>)
    requires ConnOk(c) && Countable(ConnRun(c, es).sender)
    ensures ConnOk(ConnRun(c, es)) && Countable(c.sender)
  {
    if es != [] {
      ConnStepGrows(ConnRun(c, es[..|es| - 1]), es[|es| - 1]);
      ConnRunOk(c, es[..|es| - 1]);
      ConnStepOk(ConnRun(c, es[..|es| - 1]), es[|es| - 1]);
    }
  }

  lemma FreshConnOk(rtTimeout: u16, recvCapacity: nat, sendCapacity: nat, isn: u32)
    ensures ConnOk(FreshConnection(rtTimeout, recvCapacity, sendCapacity, isn))
  {
    FreshSenderOk(sendCapacity, rtTimeout, isn);
  }
}
