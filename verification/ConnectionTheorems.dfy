/** The main results about one endpoint. */
module ConnectionTheorems {
  import opened Words
  import opened WrappingIntegers
  import opened ByteStreams
  import opened Segments
  import opened Receivers
  import opened Timers
  import opened Senders
  import opened Segmentation
  import opened SenderProofs
  import opened SenderRuns
  import opened SenderTheorems
  import opened TcpStates
  import opened Connections
  import opened ConnectionProofs

  // ---------------------------------------------------------------- back-off and giving up

  /** The tick on which the endpoint gives up. */
  predicate GivesUp(c: Connection, ms: nat) {
    && c.active && c.sender.outstanding != [] && Expired(Ticked(c.sender.timer, ms))
    && c.sender.retransmissions == MAX_RETX_ATTEMPTS && c.sender.lastWin > 0
  }

  function Pow2(n: nat): nat {
    if n == 0 then 1 else 2 * Pow2(n - 1)
  }

  lemma {:induction false} DoubledIs(timeout: nat, n: nat)
    ensures Doubled(timeout, n) == timeout * Pow2(n)
  {
    if n > 0 {
      DoubledIs(timeout, n - 1);
    }
  }

  /**
   In every run the timeout is the initial one doubled per retransmission, at most
   nine times, so 32 bits suffice; an active endpoint has nothing left in its
   sender's queue and has not passed eight retransmissions.
   */
  lemma BackoffTheorem(rtTimeout: u16, recvCapacity: nat, sendCapacity: nat, isn: u32, es: seq<ConnEvent>)
    requires Countable(ConnRun(FreshConnection(rtTimeout, recvCapacity, sendCapacity, isn), es).sender)
    ensures var c := ConnRun(FreshConnection(rtTimeout, recvCapacity, sendCapacity, isn), es);
            && c.sender.retransmissions <= MAX_RETX_ATTEMPTS + 1
            && c.sender.rto == rtTimeout * Pow2(c.sender.retransmissions) < TWO32
            && (c.active ==> c.sender.retransmissions <= MAX_RETX_ATTEMPTS && c.sender.segmentsOut == [])
            && TimerOk(c.sender)
  {
    var f := FreshConnection(rtTimeout, recvCapacity, sendCapacity, isn);
    FreshConnOk(rtTimeout, recvCapacity, sendCapacity, isn);
    ConnRunOk(f, es);
    RunKeepsTimeout(f, es);
    BackoffMeaning(ConnRun(f, es).sender, rtTimeout);
  }

  lemma BackoffMeaning(s: Sender, timeout: u16)
    requires BackoffOk(s, timeout)
    ensures s.rto == timeout * Pow2(s.retransmissions) < TWO32
  {
    DoubledIs(timeout, s.retransmissions);
  }

  lemma StepKeepsTimeout(c: Connection, e: ConnEvent)
    ensures ConnNext(c, e).rtTimeout == c.rtTimeout
  {
  }

  lemma {:induction false} RunKeepsTimeout(c: Connection, es: seq<ConnEvent>)
    ensures ConnRun(c, es).rtTimeout == c.rtTimeout
  {
    if es != [] {
      RunKeepsTimeout(c, es[..|es| - 1]);
      StepKeepsTimeout(ConnRun(c, es[..|es| - 1]), es[|es| - 1]);
    }
  }

  lemma TickCounts(c: Connection, ms: nat)
    requires ConnOk(c) && c.active
    ensures AfterTick(c.sender, ms).retransmissions > MAX_RETX_ATTEMPTS <==> GivesUp(c, ms)
  {
  }

  function Reset(seg: TCPSegment): TCPSegment {
    seg.(header := seg.header.(rst := true))
  }

  /**
   Giving up: exactly when a ninth retransmission in a row falls due, the endpoint
   queues its oldest outstanding segment once more, as a reset, and nothing else,
   puts both streams in error and goes inactive.
   */
  lemma GiveUpTheorem(c: Connection, ms: nat)
    requires ConnOk(c) && Countable(c.sender) && GivesUp(c, ms)
    ensures var t := AfterConnTick(c, ms);
            && t.segmentsOut == c.segmentsOut + [Reset(Stamped(c.receiver, c.sender.outstanding[0]))]
            && !t.active && t.sender.stream.error && t.receiver.store.out.error
  {
    TickCounts(c, ms);
    TickOk(c.sender, ms);
    var s := AfterTick(c.sender, ms);
    assert s.segmentsOut == [c.sender.outstanding[0]];
    FillSteady(s);
    assert AfterFill(s).segmentsOut[0] == s.segmentsOut[0];
  }

  /** What the window still had room for has been cut and numbered by then, and stays behind in the sender's queue. */
  lemma LeftBehind(c: Connection, ms: nat)
    requires ConnOk(c) && Countable(c.sender) && GivesUp(c, ms)
    ensures var s, t := c.sender, AfterConnTick(c, ms).sender;
            && t.nextSeqno == (if s.lastAckno == 0 then s.nextSeqno else Target(s))
            && Laid(t.segmentsOut, s.isn, s.nextSeqno, t.nextSeqno, s.stream.written, s.stream.ended)
  {
    TickCounts(c, ms);
    TickOk(c.sender, ms);
    var m := AfterTick(c.sender, ms);
    FillTarget(m);
    FillExtends(m);
    assert AfterFill(m).segmentsOut[1..] == New(m, AfterFill(m));
  }

  /** A tick that does not give up never puts the streams in error and sends no RST. */
  lemma OtherTicks(c: Connection, ms: nat)
    requires ConnOk(c) && c.active && !GivesUp(c, ms)
    ensures var t := AfterConnTick(c, ms);
            && t.sender.stream == c.sender.stream && t.receiver == c.receiver
            && t.sender.nextSeqno == c.sender.nextSeqno && t.sender.lastAckno == c.sender.lastAckno
            && (c.sender.outstanding != [] && Expired(Ticked(c.sender.timer, ms)) ==>
                  t.segmentsOut == c.segmentsOut + [Stamped(c.receiver, c.sender.outstanding[0])])
            && (c.sender.outstanding == [] || !Expired(Ticked(c.sender.timer, ms)) ==> t.segmentsOut == c.segmentsOut)
  {
    TickCounts(c, ms);
    var q := AfterTick(c.sender, ms).segmentsOut;
    if q != [] {
      assert q == [c.sender.outstanding[0]] && q[1..] == [];
      assert StampedAll(c.receiver, q) == [Stamped(c.receiver, q[0])] + StampedAll(c.receiver, q[1..]);
    }
  }

  // ---------------------------------------------------------------- timeouts in a row

  /** The call brings neither a reset nor an acknowledgment of new data. */
  predicate QuietCall(c: Connection, e: ConnEvent) {
    e.Segment? ==>
      && !e.seg.header.rst
      && (e.seg.header.ack ==> !AcksNew(c.sender, e.seg.header.ackno))
  }

  predicate AcksNew(s: Sender, ackno: u32) {
    s.lastAckno < Unwrap(ackno, s.isn, s.lastAckno) <= s.nextSeqno
  }

  ghost predicate QuietCalls(c: Connection, es: seq<ConnEvent>) {
    || es == []
    || (QuietCalls(c, es[..|es| - 1]) && QuietCall(ConnRun(c, es[..|es| - 1]), es[|es| - 1]))
  }

  /** The timer of an active endpoint runs out while the peer's window is open. */
  predicate TimesOut(c: Connection, e: ConnEvent) {
    && c.active && e.Ticks? && c.sender.outstanding != []
    && Expired(Ticked(c.sender.timer, e.ms)) && c.sender.lastWin > 0
  }

  /** How often that happens in a run. */
  function Timeouts(c: Connection, es: seq<ConnEvent>): nat {
    if es == [] then 0
    else
      Timeouts(c, es[..|es| - 1]) + (if TimesOut(ConnRun(c, es[..|es| - 1]), es[|es| - 1]) then 1 else 0)
  }

  /** Active, and its stream is not yet acknowledged to the end. */
  ghost predicate Unfinished(c: Connection) {
    ConnOk(c) && c.active && SummaryOfSender(c.sender) != FIN_ACKED
  }

  /** No acknowledgment was taken and no timeout counted. */
  predicate Unmoved(s: Sender, t: Sender) {
    && Onward(s, t) && t.stream.error == s.stream.error
    && t.retransmissions == s.retransmissions && t.lastAckno == s.lastAckno
  }

  lemma FillUnmoved(s: Sender)
    requires SenderOk(s) && Countable(s)
    ensures Unmoved(s, AfterFill(s))
  {
    FillOk(s);
    FillExtends(s);
  }

  lemma AckUnmoved(s: Sender, ackno: u32, win: u16)
    requires SenderOk(s) && Countable(s) && !AcksNew(s, ackno)
    ensures Unmoved(s, AfterAck(s, ackno, win))
  {
    if Unwrap(ackno, s.isn, s.lastAckno) <= s.nextSeqno {
      FillUnmoved(s.(lastWin := win));
    }
  }

  lemma TakenInUnmoved(c: Connection, seg: TCPSegment)
    requires SenderOk(c.sender) && Countable(c.sender) && QuietCall(c, Segment(seg))
    ensures Unmoved(c.sender, TakenIn(c, seg).sender)
  {
    FillUnmoved(c.sender);
    AnswerUnmoved(c.sender, AfterSegment(c.receiver, seg), seg);
  }

  lemma AnswerUnmoved(s: Sender, r: Receiver, seg: TCPSegment)
    requires SenderOk(s) && Countable(s) && (seg.header.ack ==> !AcksNew(s, seg.header.ackno))
    ensures Unmoved(s, KeptAlive(Replied(AckTaken(s, seg), seg), r, seg))
  {
    var m := AckTaken(s, seg);
    if seg.header.ack {
      AckUnmoved(s, seg.header.ackno, seg.header.win);
    }
    assert Unmoved(s, m);
    assert Unmoved(s, Replied(m, seg));
  }

  lemma StreamUnmoved(c: Connection, stream: Stream)
    requires SenderOk(c.sender) && Countable(c.sender.(stream := stream))
    requires c.sender.stream.written <= stream.written && stream.read == c.sender.stream.read
    requires stream.error == c.sender.stream.error
    requires c.sender.stream.ended ==> stream.ended && stream.written == c.sender.stream.written
    ensures Unmoved(c.sender, AfterConnect(c.(sender := c.sender.(stream := stream))).sender)
  {
    StreamOk(c.sender, stream);
    FillUnmoved(c.sender.(stream := stream));
  }

  lemma TickUnmoved(c: Connection, ms: nat)
    requires ConnOk(c) && c.active && !TimesOut(c, Ticks(ms))
    ensures Unmoved(c.sender, AfterConnTick(c, ms).sender)
  {
    OtherTicks(c, ms);
  }

  lemma QuietUnmoved(c: Connection, e: ConnEvent)
    requires ConnOk(c) && c.active && QuietCall(c, e) && !TimesOut(c, e)
    requires Countable(c.sender) && Countable(ConnNext(c, e).sender)
    ensures Unmoved(c.sender, ConnNext(c, e).sender)
  {
    match e
    case Connects => FillUnmoved(c.sender);
    case AppWrites(data) =>
      FillKeepsWritten(AfterAppWrite(c.sender, data));
      if data != [] {
        StreamUnmoved(c, AfterWrite(c.sender.stream, data));
      }
    case AppEnds => StreamUnmoved(c, AfterEnd(c.sender.stream));
    case Ticks(ms) => TickUnmoved(c, ms);
    case Segment(seg) =>
      SegmentIs(c, seg);
      TakenInUnmoved(c, seg);
    case AppTakes(n) =>
  }

  /** Without an acknowledgment the stream does not become acknowledged to the end. */
  lemma UnfinishedStays(s: Sender, t: Sender)
    requires SenderOk(s) && Countable(s) && SenderOk(t) && Countable(t) && !s.stream.error && !t.stream.error
    requires Onward(s, t) && t.lastAckno == s.lastAckno && SummaryOfSender(s) != FIN_ACKED
    ensures SummaryOfSender(t) != FIN_ACKED
  {
    FinAckedIff(s);
    FinAckedIff(t);
  }

  /** A counted timeout short of the ninth. */
  lemma TimeoutCounts(c: Connection, ms: nat)
    requires ConnOk(c) && c.active && TimesOut(c, Ticks(ms)) && !GivesUp(c, ms)
    ensures var t := AfterConnTick(c, ms).sender;
            && Onward(c.sender, t) && t.stream == c.sender.stream && t.lastAckno == c.sender.lastAckno
            && t.retransmissions == c.sender.retransmissions + 1
  {
    TickCounts(c, ms);
    TickedSender(c, ms);
    assert AfterTick(c.sender, ms) == Resent(c.sender);
  }

  /** A tick that does not give up leaves the sender as the clock left it, its queue sent. */
  lemma TickedSender(c: Connection, ms: nat)
    requires c.active && AfterTick(c.sender, ms).retransmissions <= MAX_RETX_ATTEMPTS
    ensures AfterConnTick(c, ms).sender == AfterTick(c.sender, ms).(segmentsOut := [])
    ensures AfterConnTick(c, ms).receiver == c.receiver
  {
  }

  lemma QuietStepCounts(c: Connection, e: ConnEvent) returns (t: Connection)
    requires Unfinished(c) && QuietCall(c, e) && Countable(c.sender) && Countable(ConnNext(c, e).sender)
    ensures t == ConnNext(c, e)
    ensures if e.Ticks? && GivesUp(c, e.ms) then !t.active && t.sender.stream.error && t.receiver.store.out.error
            else
              && Unfinished(t)
              && t.sender.retransmissions == c.sender.retransmissions + (if TimesOut(c, e) then 1 else 0)
  {
    t := ConnNext(c, e);
    ConnStepOk(c, e);
    if e.Ticks? && GivesUp(c, e.ms) {
      GiveUpTheorem(c, e.ms);
    } else {
      if TimesOut(c, e) {
        TimeoutCounts(c, e.ms);
      } else {
        QuietUnmoved(c, e);
      }
      UnfinishedStays(c.sender, t.sender);
    }
  }

  /**
   The retransmission count over any calls at all -- writes, reads, ticks, segments
   -- among which there is no reset and no acknowledgment of new data: it is the
   number of timeouts so far. The endpoint stays active through eight and the
   ninth resets it.
   */
  lemma {:induction false} TimeoutsTheorem(c: Connection, es: seq<ConnEvent>)
    requires Unfinished(c) && QuietCalls(c, es) && Countable(ConnRun(c, es).sender)
    ensures var t := ConnRun(c, es);
            var n := c.sender.retransmissions + Timeouts(c, es);
            && n <= MAX_RETX_ATTEMPTS + 1
            && (t.active <==> n <= MAX_RETX_ATTEMPTS)
            && (t.active ==> Unfinished(t) && t.sender.retransmissions == n)
            && (!t.active ==> t.sender.stream.error && t.receiver.store.out.error)
  {
    if es != [] {
      var init, last := es[..|es| - 1], es[|es| - 1];
      var m := ConnRun(c, init);
      ConnStepGrows(m, last);
      TimeoutsTheorem(c, init);
      if m.active {
        var t := QuietStepCounts(m, last);
      } else {
        StaysReset(m, last);
      }
    }
  }

  lemma StaysReset(c: Connection, e: ConnEvent)
    requires !c.active && c.sender.stream.error && c.receiver.store.out.error
    ensures var t := ConnNext(c, e);
            !t.active && t.sender.stream.error && t.receiver.store.out.error
  {
    FillKeepsError(c.sender);
    FillKeepsError(AfterAppEnd(c.sender));
  }

  lemma RunSnoc(c: Connection, es: seq<ConnEvent>, e: ConnEvent)
    ensures ConnRun(c, es + [e]) == ConnNext(ConnRun(c, es), e)
  {
    assert (es + [e])[..|es + [e]| - 1] == es;
  }

  /** A run of ticks and nothing else. */
  function AfterTicks(c: Connection, ms: seq<nat>): Connection
    decreases |ms|
  {
    if ms == [] then c else AfterTicks(AfterConnTick(c, ms[0]), ms[1..])
  }

  /** Each tick lasts at least as long as the timeout it meets. */
  predicate LongEnough(timeout: u16, count: nat, ms: seq<nat>)
    decreases |ms|
  {
    ms == [] || (ms[0] >= Doubled(timeout, count) && LongEnough(timeout, count + 1, ms[1..]))
  }

  /** Unfinished, with something outstanding and an open window. */
  ghost predicate Waiting(c: Connection) {
    Unfinished(c) && Countable(c.sender) && c.sender.outstanding != [] && c.sender.lastWin > 0
  }

  lemma LongTickTimesOut(c: Connection, ms: nat)
    requires Waiting(c) && ms >= Doubled(c.rtTimeout, c.sender.retransmissions)
    ensures TimesOut(c, Ticks(ms))
  {
  }

  lemma LongTick(c: Connection, ms: nat, t: Connection)
    requires Waiting(c) && ms >= Doubled(c.rtTimeout, c.sender.retransmissions) && t == AfterConnTick(c, ms)
    requires c.sender.retransmissions < MAX_RETX_ATTEMPTS
    ensures Waiting(t) && t.sender.retransmissions == c.sender.retransmissions + 1 && t.rtTimeout == c.rtTimeout
  {
    LongTickTimesOut(c, ms);
    WaitsOn(c, ms, t);
  }

  lemma WaitsOn(c: Connection, ms: nat, t: Connection)
    requires Waiting(c) && TimesOut(c, Ticks(ms)) && !GivesUp(c, ms) && t == AfterConnTick(c, ms)
    ensures Waiting(t) && t.sender.retransmissions == c.sender.retransmissions + 1 && t.rtTimeout == c.rtTimeout
  {
    TickStays(c, ms, t);
    CountedTick(c, ms, t);
  }

  lemma CountedTick(c: Connection, ms: nat, t: Connection)
    requires Unfinished(c) && Countable(c.sender) && TimesOut(c, Ticks(ms)) && !GivesUp(c, ms)
    requires t == ConnNext(c, Ticks(ms)) && Countable(t.sender)
    ensures Unfinished(t) && t.sender.retransmissions == c.sender.retransmissions + 1
  {
    var u := QuietStepCounts(c, Ticks(ms));
  }

  lemma TickStays(c: Connection, ms: nat, t: Connection)
    requires ConnOk(c) && c.active && !GivesUp(c, ms) && t == AfterConnTick(c, ms)
    ensures t.sender.outstanding == c.sender.outstanding && t.sender.lastWin == c.sender.lastWin
    ensures t.sender.stream == c.sender.stream && t.rtTimeout == c.rtTimeout
  {
    StepKeepsTimeout(c, Ticks(ms));
    QueueStays(c, ms);
  }

  lemma TickKeepsQueue(s: Sender, ms: nat)
    ensures var t := AfterTick(s, ms);
            t.outstanding == s.outstanding && t.lastWin == s.lastWin && t.stream == s.stream
  {
  }

  lemma QueueStays(c: Connection, ms: nat)
    requires ConnOk(c) && c.active && !GivesUp(c, ms)
    ensures var t := AfterConnTick(c, ms).sender;
            t.outstanding == c.sender.outstanding && t.lastWin == c.sender.lastWin && t.stream == c.sender.stream
  {
    TickCounts(c, ms);
    TickKeepsQueue(c.sender, ms);
    TickedSender(c, ms);
  }

  /** The ninth. */
  lemma LastTick(c: Connection, ms: nat, t: Connection)
    requires Waiting(c) && ms >= Doubled(c.rtTimeout, c.sender.retransmissions) && t == AfterConnTick(c, ms)
    requires c.sender.retransmissions == MAX_RETX_ATTEMPTS
    ensures !t.active && t.sender.stream.error && t.receiver.store.out.error
  {
    LongTickTimesOut(c, ms);
    GiveUpTheorem(c, ms);
  }

  /**
   A silent peer: whatever the ticks, as long as each lasts its timeout, the
   endpoint is active through the eighth timeout in a row and reset by the ninth.
   */
  lemma {:induction false} NineTimeouts(c: Connection, ms: seq<nat>)
    requires Waiting(c) && LongEnough(c.rtTimeout, c.sender.retransmissions, ms)
    requires c.sender.retransmissions + |ms| == MAX_RETX_ATTEMPTS + 1
    ensures AfterTicks(c, ms[..|ms| - 1]).active
    ensures var t := AfterTicks(c, ms);
            !t.active && t.sender.stream.error && t.receiver.store.out.error
    decreases |ms|
  {
    var t := AfterConnTick(c, ms[0]);
    var rest := ms[1..];
    if rest == [] {
      LastTick(c, ms[0], t);
      assert ms[..0] == [];
    } else {
      LongTick(c, ms[0], t);
      NineTimeouts(t, rest);
      assert ms[..|ms| - 1][0] == ms[0] && ms[..|ms| - 1][1..] == rest[..|rest| - 1];
    }
  }

  /**
   What the raw comparison of acknowledgments leads to: an idle connection, with
   nothing in flight, resets itself after nine timeouts if its last acknowledgment
   lies past the wrap of the raw numbers, and stays open if it does not.
   */
  lemma IdleResetsIff(c: Connection, ms: seq<nat>)
    requires Unfinished(c) && Countable(c.sender) && InFlight(c.sender) == 0 && c.sender.lastWin > 0
    requires LongEnough(c.rtTimeout, c.sender.retransmissions, ms)
    requires c.sender.retransmissions + |ms| == MAX_RETX_ATTEMPTS + 1
    ensures !AfterTicks(c, ms).active <==> c.sender.isn + c.sender.lastAckno >= TWO32
  {
    QueueEmptyIff(c.sender);
    if c.sender.outstanding != [] {
      NineTimeouts(c, ms);
    } else {
      IdleStays(c, ms);
    }
  }

  /** A bare acknowledgment of raw number 0. */
  function RawZero(win: u16): TCPSegment {
    TCPSegment(BlankHeader().(ack := true, ackno := 0, win := win), [])
  }

  lemma SynSent(rtTimeout: u16, recvCapacity: nat, sendCapacity: nat, isn: u32)
    ensures var f := FreshConnection(rtTimeout, recvCapacity, sendCapacity, isn);
            ConnNext(f, Connects).sender == AfterFill(f.sender).(segmentsOut := [])
            && ConnNext(f, Connects).receiver == f.receiver && ConnNext(f, Connects).active
  {
  }

  /** The acknowledgment wraps past its segment, which stays queued. */
  lemma SynStuck(s: Sender, win: u16)
    requires s.isn == TWO32 - 1 && s.nextSeqno == 1 && s.lastAckno == 0 && |s.outstanding| == 1
    requires s.outstanding[0].header.seqno == TWO32 - 1 && s.stream.written == [] && !s.stream.ended
    ensures var t := AfterAck(s, 0, win);
            t.nextSeqno == 1 && t.lastAckno == 1 && t.lastWin == win && t.retransmissions == 0
            && t.stream == s.stream && t.isn == s.isn
  {
    assert Unwrap(0, s.isn, 0) == 1;
    var m := Acknowledged(s, 0, win);
    assert Eof(m.stream) == false && NextPayload(m) == [];
    assert AfterFillLoop(m) == m;
  }

  /**
   Such a connection exists: with the largest initial sequence number, connecting
   and hearing SYN acknowledged leaves nothing in flight, and nine timeouts reset it.
   */
  lemma IdleResetsItself(rtTimeout: u16, recvCapacity: nat, sendCapacity: nat, win: u16, ms: seq<nat>)
    requires win > 0 && |ms| == MAX_RETX_ATTEMPTS + 1 && LongEnough(rtTimeout, 0, ms)
    ensures var f := FreshConnection(rtTimeout, recvCapacity, sendCapacity, TWO32 - 1);
            var c := ConnRun(f, [Connects, Segment(RawZero(win))]);
            c.active && InFlight(c.sender) == 0 && !AfterTicks(c, ms).active
  {
    var f := FreshConnection(rtTimeout, recvCapacity, sendCapacity, TWO32 - 1);
    var es := [Connects, Segment(RawZero(win))];
    var m, c := ConnNext(f, Connects), ConnRun(f, es);
    assert es == [] + [Connects] + [Segment(RawZero(win))];
    RunSnoc(f, [], Connects);
    RunSnoc(f, [] + [Connects], Segment(RawZero(win)));
    SynSent(rtTimeout, recvCapacity, sendCapacity, TWO32 - 1);
    SynStuck(m.sender, win);
    AckedSyn(m, c, win);
    FreshConnOk(rtTimeout, recvCapacity, sendCapacity, TWO32 - 1);
    ConnRunOk(f, es);
    RunKeepsTimeout(f, es);
    IdleResetsIff(c, ms);
  }

  lemma AckedSyn(m: Connection, c: Connection, win: u16)
    requires m.active && !m.receiver.syn && !m.receiver.store.out.error && !m.receiver.store.out.ended
    requires m.sender.nextSeqno == 1 && !m.sender.stream.error && !m.sender.stream.ended
    requires AfterAck(m.sender, 0, win).nextSeqno == 1 && AfterAck(m.sender, 0, win).stream == m.sender.stream
    requires c == ConnNext(m, Segment(RawZero(win)))
    ensures c.active && c.sender == AfterAck(m.sender, 0, win).(segmentsOut := [])
  {
    SegmentIs(m, RawZero(win));
  }

  lemma IdleTick(c: Connection, ms: nat, t: Connection)
    requires Unfinished(c) && Countable(c.sender) && c.sender.outstanding == [] && t == AfterConnTick(c, ms)
    ensures Unfinished(t) && Countable(t.sender) && t.sender.outstanding == []
  {
    var u := QuietStepCounts(c, Ticks(ms));
    QueueStays(c, ms);
  }

  lemma {:induction false} IdleStays(c: Connection, ms: seq<nat>)
    requires Unfinished(c) && Countable(c.sender) && c.sender.outstanding == []
    ensures AfterTicks(c, ms).active
    decreases |ms|
  {
    if ms != [] {
      IdleTick(c, ms[0], AfterConnTick(c, ms[0]));
      IdleStays(AfterConnTick(c, ms[0]), ms[1..]);
    }
  }

  // ---------------------------------------------------------------- the duty to acknowledge

  lemma {:induction false} StampedEach(r: Receiver, q: seq<TCPSegment>)
    ensures |StampedAll(r, q)| == |q|
    ensures forall k :: 0 <= k < |q| ==> StampedAll(r, q)[k] == Stamped(r, q[k])
  {
    if q != [] {
      StampedEach(r, q[1..]);
    }
  }

  /** The segment acknowledges what `r` has and announces its window. */
  predicate CarriesAck(r: Receiver, seg: TCPSegment) {
    && seg.header.ack
    && seg.header.ackno == Wrap(AbsoluteAck(r), r.isn)
    && seg.header.win == Min(WindowSize(r), 65535)
  }

  lemma FlushedAcks(c: Connection)
    requires c.receiver.syn
    ensures var t := Flushed(c);
            && |t.segmentsOut| == |c.segmentsOut| + |c.sender.segmentsOut|
            && forall k :: |c.segmentsOut| <= k < |t.segmentsOut| ==> CarriesAck(c.receiver, t.segmentsOut[k])
  {
    StampedEach(c.receiver, c.sender.segmentsOut);
  }

  lemma AnsweredSpeaks(c: Connection, seg: TCPSegment)
    requires SequenceLength(seg) > 0
    ensures Answered(c, seg).sender.segmentsOut != []
  {
  }

  lemma TakenInSpeaks(c: Connection, seg: TCPSegment)
    requires SequenceLength(seg) > 0 && AfterSegment(c.receiver, seg).syn
    ensures var t := TakenIn(c, seg);
            && t.receiver == AfterSegment(c.receiver, seg)
            && |t.segmentsOut| > |c.segmentsOut| && c.segmentsOut <= t.segmentsOut
            && forall k :: |c.segmentsOut| <= k < |t.segmentsOut| ==> CarriesAck(t.receiver, t.segmentsOut[k])
  {
    var t := Heard(c, seg);
    if SummaryOfReceiver(t.receiver) == SYN_RECV && SummaryOfSender(t.sender) == CLOSED {
      FlushedAcks(Filled(t));
    } else {
      AnsweredSpeaks(t, seg);
      FlushedAcks(Answered(t, seg));
    }
  }

  /**
   ACK duty: an active endpoint that takes in a segment occupying sequence space,
   not a reset, and has a SYN to acknowledge, queues at least one segment, and
   every segment it queues carries the current acknowledgment and window.
   */
  lemma AckDuty(c: Connection, seg: TCPSegment)
    requires ConnOk(c) && Countable(c.sender) && c.active
    requires !seg.header.rst && SequenceLength(seg) > 0 && AfterSegment(c.receiver, seg).syn
    ensures var t := AfterConnSegment(c, seg);
            && t.receiver == AfterSegment(c.receiver, seg)
            && |t.segmentsOut| > |c.segmentsOut| && c.segmentsOut <= t.segmentsOut
            && (forall k :: |c.segmentsOut| <= k < |t.segmentsOut| ==> CarriesAck(t.receiver, t.segmentsOut[k]))
            && t.sender.segmentsOut == []
  {
    TakenInSpeaks(c, seg);
    var t := TakenIn(c, seg);
    SegmentIs(c, seg);
  }

  // ---------------------------------------------------------------- states only move forward

  lemma SegmentRanks(c: Connection, seg: TCPSegment)
    requires ConnOk(c) && Countable(c.sender)
    ensures var t := AfterConnSegment(c, seg);
            && SenderRank(SummaryOfSender(c.sender)) <= SenderRank(SummaryOfSender(t.sender))
            && ReceiverRank(SummaryOfReceiver(c.receiver)) <= ReceiverRank(SummaryOfReceiver(t.receiver))
  {
    if c.active && !seg.header.rst {
      SegmentIs(c, seg);
      SegmentGoes(c, seg);
      GoesRanks(c, TakenIn(c, seg));
    }
  }

  lemma StreamRanks(c: Connection, stream: Stream)
    requires ConnOk(c) && Countable(c.sender.(stream := stream))
    requires c.sender.stream.written <= stream.written && stream.read == c.sender.stream.read
    requires stream.error == c.sender.stream.error
    requires c.sender.stream.ended ==> stream.ended && stream.written == c.sender.stream.written
    ensures var t := AfterConnect(c.(sender := c.sender.(stream := stream)));
            SenderRank(SummaryOfSender(c.sender)) <= SenderRank(SummaryOfSender(t.sender))
  {
    var t := c.(sender := c.sender.(stream := stream));
    StreamOk(c.sender, stream);
    FillKeepsWritten(t.sender);
    ConnectGoes(c, t);
    GoesRanks(c, AfterConnect(t));
  }

  /** No call takes either half back to an earlier state. */
  lemma StepRanks(c: Connection, e: ConnEvent)
    requires ConnOk(c) && Countable(c.sender) && Countable(ConnNext(c, e).sender)
    ensures var t := ConnNext(c, e);
            && SenderRank(SummaryOfSender(c.sender)) <= SenderRank(SummaryOfSender(t.sender))
            && ReceiverRank(SummaryOfReceiver(c.receiver)) <= ReceiverRank(SummaryOfReceiver(t.receiver))
  {
    match e
    case Connects => StreamRanks(c, c.sender.stream);
    case AppWrites(data) =>
      if c.active && data != [] {
        FillKeepsWritten(AfterAppWrite(c.sender, data));
        StreamRanks(c, AfterWrite(c.sender.stream, data));
      }
    case AppEnds => StreamRanks(c, AfterEnd(c.sender.stream));
    case Ticks(ms) => TickRanks(c, ms);
    case Segment(seg) => SegmentRanks(c, seg);
    case AppTakes(n) =>
  }

  lemma SummaryDepends(s: Sender, t: Sender)
    requires t.stream == s.stream && t.nextSeqno == s.nextSeqno && t.lastAckno == s.lastAckno
    ensures SummaryOfSender(t) == SummaryOfSender(s)
  {
  }

  lemma TickRanks(c: Connection, ms: nat)
    requires ConnOk(c) && Countable(c.sender)
    ensures var t := AfterConnTick(c, ms);
            && SenderRank(SummaryOfSender(c.sender)) <= SenderRank(SummaryOfSender(t.sender))
            && ReceiverRank(SummaryOfReceiver(c.receiver)) <= ReceiverRank(SummaryOfReceiver(t.receiver))
  {
    var t := AfterConnTick(c, ms);
    if c.active && !GivesUp(c, ms) {
      OtherTicks(c, ms);
      SummaryDepends(c.sender, t.sender);
    } else if c.active {
      GiveUpTheorem(c, ms);
    }
  }

  lemma {:induction false} RunRanks(c: Connection, es: seq<ConnEvent>)
    requires ConnOk(c) && Countable(ConnRun(c, es).sender)
    ensures var t := ConnRun(c, es);
            && SenderRank(SummaryOfSender(c.sender)) <= SenderRank(SummaryOfSender(t.sender))
            && ReceiverRank(SummaryOfReceiver(c.receiver)) <= ReceiverRank(SummaryOfReceiver(t.receiver))
            && (!c.active ==> !t.active)
  {
    if es != [] {
      var init, last := es[..|es| - 1], es[|es| - 1];
      ConnStepGrows(ConnRun(c, init), last);
      ConnRunOk(c, init);
      RunRanks(c, init);
      StepRanks(ConnRun(c, init), last);
    }
  }

  // ---------------------------------------------------------------- going inactive

  /** Ticks since the last segment arrived. */
  function Silence(es: seq<ConnEvent>): nat {
    if es == [] then 0
    else
      match es[|es| - 1]
      case Ticks(ms) => Silence(es[..|es| - 1]) + ms
      case Segment(seg) => 0
      case _ => Silence(es[..|es| - 1])
  }

  lemma {:induction false} SilenceIs(c: Connection, es: seq<ConnEvent>)
    requires c.sinceReceived == 0 && (es == [] || ConnRun(c, es[..|es| - 1]).active)
    ensures ConnRun(c, es).sinceReceived == Silence(es)
  {
    if es != [] {
      var init := es[..|es| - 1];
      if init != [] {
        StaysInactive(ConnRun(c, init[..|init| - 1]), init[|init| - 1]);
      }
      SilenceIs(c, init);
      StepSilence(ConnRun(c, init), es[|es| - 1]);
    }
  }

  lemma StepSilence(c: Connection, e: ConnEvent)
    requires c.active
    ensures ConnNext(c, e).sinceReceived ==
              match e
              case Ticks(ms) => c.sinceReceived + ms
              case Segment(seg) => 0
              case _ => c.sinceReceived
  {
  }

  lemma StaysInactive(c: Connection, e: ConnEvent)
    ensures !c.active ==> !ConnNext(c, e).active
  {
  }

  /** The call that ends a connection in error: a reset arrives, or it gives up. */
  predicate EndsInError(c: Connection, e: ConnEvent) {
    (e.Segment? && e.seg.header.rst) || (e.Ticks? && GivesUp(c, e.ms))
  }

  /**
   What an arriving reset does: both streams are in error and the connection is
   inactive; nothing is sent, and nothing else of either half changes.
   */
  lemma ResetHeard(c: Connection, seg: TCPSegment)
    requires c.active && seg.header.rst
    ensures var t := ConnNext(c, Segment(seg));
            && !t.active && t.sender.stream.error && t.receiver.store.out.error
            && t.segmentsOut == c.segmentsOut && t.sinceReceived == 0 && t.linger == c.linger
            && t.sender.(stream := c.sender.stream) == c.sender
            && t.sender.stream.(error := c.sender.stream.error) == c.sender.stream
            && t.receiver.store.out.(error := c.receiver.store.out.error) == c.receiver.store.out
            && t.receiver.store.held == c.receiver.store.held
  {
  }

  /** The last test of a call that was neither a reset nor giving up. */
  lemma CleanInactiveIff(c: Connection)
    requires c.active
    ensures var t := CleanShutdown(c);
            && (!t.active <==>
                  && SummaryOfSender(t.sender) == FIN_ACKED && SummaryOfReceiver(t.receiver) == FIN_RECV
                  && (t.linger ==> c.sinceReceived >= 10 * c.rtTimeout))
            && t == c.(active := t.active, linger := t.linger)
  {
  }

  /** When one call makes an active endpoint inactive, and how. */
  lemma InactiveIff(c: Connection, e: ConnEvent)
    requires ConnOk(c) && Countable(c.sender) && c.active
    ensures var t := ConnNext(c, e);
            && (EndsInError(c, e) <==> t.sender.stream.error)
            && (EndsInError(c, e) ==> !t.active && t.receiver.store.out.error)
            && (!EndsInError(c, e) ==>
                  (!t.active <==>
                     && (e.Ticks? || e.Segment?)
                     && SummaryOfSender(t.sender) == FIN_ACKED && SummaryOfReceiver(t.receiver) == FIN_RECV
                     && (t.linger ==> t.sinceReceived >= 10 * t.rtTimeout)))
  {
    match e
    case Connects => FillKeepsError(c.sender);
    case AppWrites(data) => FillKeepsError(AfterAppWrite(c.sender, data));
    case AppEnds => FillKeepsError(AfterAppEnd(c.sender));
    case Ticks(ms) => TickInactiveIff(c, ms);
    case Segment(seg) =>
      if seg.header.rst {
        ResetHeard(c, seg);
      } else {
        SegmentInactiveIff(c, seg);
      }
    case AppTakes(n) =>
  }

  lemma TickInactiveIff(c: Connection, ms: nat)
    requires ConnOk(c) && Countable(c.sender) && c.active
    ensures var t := AfterConnTick(c, ms);
            && (GivesUp(c, ms) <==> t.sender.stream.error)
            && (GivesUp(c, ms) ==> !t.active && t.receiver.store.out.error)
            && (!GivesUp(c, ms) ==>
                  (!t.active <==>
                     && SummaryOfSender(t.sender) == FIN_ACKED && SummaryOfReceiver(t.receiver) == FIN_RECV
                     && (t.linger ==> t.sinceReceived >= 10 * t.rtTimeout)))
  {
    TickCounts(c, ms);
    if GivesUp(c, ms) {
      GiveUpTheorem(c, ms);
    } else {
      OtherTicks(c, ms);
      CleanInactiveIff(Flushed(TimePassed(c, ms)));
    }
  }

  lemma SegmentInactiveIff(c: Connection, seg: TCPSegment)
    requires ConnOk(c) && Countable(c.sender) && c.active && !seg.header.rst
    ensures var t := AfterConnSegment(c, seg);
            && !t.sender.stream.error
            && (!t.active <==>
                  && SummaryOfSender(t.sender) == FIN_ACKED && SummaryOfReceiver(t.receiver) == FIN_RECV
                  && (t.linger ==> t.sinceReceived >= 10 * t.rtTimeout))
  {
    SegmentGoes(c, seg);
    var h := Heard(c, seg);
    if SummaryOfReceiver(h.receiver) != SYN_RECV || SummaryOfSender(h.sender) != CLOSED {
      CleanInactiveIff(TakenIn(c, seg));
    }
  }

  /**
   When a connection goes inactive, in every run: in error -- then with both
   streams in error -- if and only if the call brings a reset or is the tick on
   which it gives up; and without error if and only if a tick or a segment leaves
   both streams finished and acknowledged and it does not linger, or the ticks since
   the last segment received add up to ten times the initial timeout.
   */
  lemma GoingInactive(rtTimeout: u16, recvCapacity: nat, sendCapacity: nat, isn: u32, es: seq<ConnEvent>, e: ConnEvent)
    requires var c := ConnRun(FreshConnection(rtTimeout, recvCapacity, sendCapacity, isn), es);
             Countable(c.sender) && c.active
    ensures var c := ConnRun(FreshConnection(rtTimeout, recvCapacity, sendCapacity, isn), es);
            var t := ConnNext(c, e);
            && (EndsInError(c, e) <==> !t.active && t.sender.stream.error && t.receiver.store.out.error)
            && (!t.active && !EndsInError(c, e) <==>
                  && (e.Ticks? || e.Segment?) && !EndsInError(c, e)
                  && SummaryOfSender(t.sender) == FIN_ACKED && SummaryOfReceiver(t.receiver) == FIN_RECV
                  && (t.linger ==> Silence(es + [e]) >= 10 * rtTimeout))
  {
    var f := FreshConnection(rtTimeout, recvCapacity, sendCapacity, isn);
    FreshConnOk(rtTimeout, recvCapacity, sendCapacity, isn);
    ConnRunOk(f, es);
    RunKeepsTimeout(f, es + [e]);
    RunSnoc(f, es, e);
    assert (es + [e])[..|es|] == es;
    SilenceIs(f, es + [e]);
    InactiveIff(ConnRun(f, es), e);
  }

  /** An inactive connection takes no writes, segments or time. */
  lemma InactiveIsSilent(c: Connection, e: ConnEvent)
    requires !c.active && (e.AppWrites? || e.Ticks? || e.Segment?)
    ensures ConnNext(c, e) == c
  {
  }
}
