/**
 The exact condition under which two endpoints can still close cleanly, from every
 state they reach without error; and that any exchange can be completed.
 */
module CloseTheorems {
  import opened Words
  import opened WrappingIntegers
  import opened ByteStreams
  import opened Segments
  import opened Receivers
  import opened Senders
  import opened Segmentation
  import opened SenderProofs
  import opened SenderRuns
  import opened SenderTheorems
  import opened TcpStates
  import opened Links
  import opened Connections
  import opened ConnectionProofs
  import opened ConnectionTheorems
  import opened Sides
  import opened Pairs
  import opened Upkeep
  import opened Progress
  import opened Closing

  // ---------------------------------------------------------------- nothing else closes

  /** A call other than hearing a segment, by an endpoint at its last timeout, changes and sends nothing. */
  lemma FragileIdles(c: Connection, e: ConnEvent, t: Connection)
    requires ConnOk(c) && Countable(c.sender) && Fragile(c) && t == ConnNext(c, e)
    requires e.Connects? || e.AppWrites? || e.AppEnds? || e.AppTakes?
    ensures t == c.(receiver := t.receiver) && SummaryOfReceiver(t.receiver) == SummaryOfReceiver(c.receiver)
  {
    FillDone(c.sender);
    FinAckedIff(c.sender);
    InFlightIs(c.sender);
    assert c.sender.(segmentsOut := []) == c.sender;
    assert AfterAppEnd(c.sender) == c.sender;
  }

  /** A tick that does not reset it only moves the time on, and closes it only if it had time. */
  lemma FragileWaits(c: Connection, ms: nat, t: Connection)
    requires ConnOk(c) && Countable(c.sender) && Fragile(c) && c.sender.lastWin > 0
    requires t == AfterConnTick(c, ms) && !t.sender.stream.error
    ensures t.segmentsOut == c.segmentsOut && t.receiver == c.receiver
    ensures !t.active ==> HasTime(c)
    ensures t.active ==>
              && t == c.(sender := t.sender, sinceReceived := c.sinceReceived + ms)
              && t.sender == c.sender.(timer := c.sender.timer.(remaining := c.sender.timer.remaining - ms))
  {
    if ms >= c.sender.timer.remaining {
      GiveUpTheorem(c, ms);
    } else {
      OtherTicks(c, ms);
      TickCounts(c, ms);
      TickedSender(c, ms);
    }
  }

  /** Hearing a segment with an open window leaves it where it was, its waiting time lost. */
  lemma FragileHears(c: Connection, w: TCPSegment, t: Connection)
    requires ConnOk(c) && Countable(c.sender) && Fragile(c) && !w.header.rst && t == ConnNext(c, Segment(w))
    requires w.header.ack ==> Unwrap(w.header.ackno, c.sender.isn, c.sender.lastAckno) <= c.sender.nextSeqno
    ensures t.active && t.linger && t.rtTimeout == c.rtTimeout && t.sinceReceived == 0
    ensures t.sender == if w.header.ack then c.sender.(lastWin := w.header.win) else c.sender
  {
    DoneHears(c, w);
    SummaryDepends(c.sender, TakenIn(c, w).sender);
    SegmentIs(c, w);
  }

  /** Where a call that does not reset it leaves an endpoint at its last timeout. */
  ghost predicate StillAtRisk(c: Connection, e: ConnEvent, t: Connection) {
    && (t.active ==> Fragile(t) && t.sender.timer.remaining <= LingerTime(t))
    && (!t.active || HasTime(t) ==> HasTime(c) && !e.Segment?)
    && (!e.Segment? ==> t.segmentsOut == c.segmentsOut)
  }

  lemma IdleRisk(c: Connection, e: ConnEvent, t: Connection)
    requires ConnOk(c) && Countable(c.sender) && Fragile(c) && t == ConnNext(c, e)
    requires c.sender.timer.remaining <= LingerTime(c)
    requires e.Connects? || e.AppWrites? || e.AppEnds? || e.AppTakes?
    ensures StillAtRisk(c, e, t)
  {
    FragileIdles(c, e, t);
  }

  lemma TickRisk(c: Connection, ms: nat, t: Connection)
    requires ConnOk(c) && Countable(c.sender) && Fragile(c) && c.sender.lastWin > 0
    requires c.sender.timer.remaining <= LingerTime(c)
    requires t == AfterConnTick(c, ms) && !t.sender.stream.error
    ensures StillAtRisk(c, Ticks(ms), t)
  {
    FragileWaits(c, ms, t);
    if t.active {
      SummaryDepends(c.sender, t.sender);
    }
  }

  lemma HearRisk(c: Connection, w: TCPSegment, t: Connection)
    requires ConnOk(c) && Countable(c.sender) && Fragile(c) && !w.header.rst && t == ConnNext(c, Segment(w))
    requires c.sender.timer.remaining <= LingerTime(c)
    requires w.header.ack ==> Unwrap(w.header.ackno, c.sender.isn, c.sender.lastAckno) <= c.sender.nextSeqno
    ensures StillAtRisk(c, Segment(w), t)
  {
    FragileHears(c, w, t);
    SummaryDepends(c.sender, t.sender);
  }

  /** One call at an endpoint that is not safe. */
  lemma RiskStep(p: Pair, e: ConnEvent, q: Pair)
    requires Ready(p) && PossibleAtA(p, e) && Short(ConnNext(p.a, e).sender)
    requires q == StepA(p, e) && !q.a.sender.stream.error && !Fine(p.a, p.fromB)
    ensures Fine(q.a, q.fromB) || HasTime(q.a) ==> HasTime(p.a) && !e.Segment?
    ensures Fine(q.a, q.fromB) ==> !q.a.active
    ensures !e.Segment? ==> q.fromA == p.fromA
  {
    var c, t := p.a, ConnNext(p.a, e);
    match e {
      case Ticks(ms) => TickRisk(c, ms, t);
      case Segment(w) =>
        if w.header.ack {
          AckWithin(p, w);
        }
        HearRisk(c, w, t);
      case Connects => IdleRisk(c, e, t);
      case AppWrites(data) => IdleRisk(c, e, t);
      case AppEnds => IdleRisk(c, e, t);
      case AppTakes(n) => IdleRisk(c, e, t);
    }
    assert StillAtRisk(c, e, t);
  }

  /** What a stream never loses. */
  predicate Wider(s: Stream, t: Stream) {
    s.written <= t.written && s.read <= t.read && t.capacity == s.capacity && (s.ended ==> t.ended)
  }

  lemma TickReceiver(c: Connection, ms: nat)
    ensures Wider(c.receiver.store.out, AfterConnTick(c, ms).receiver.store.out)
  {
  }

  lemma ReceiverGrows(c: Connection, e: ConnEvent)
    ensures Wider(c.receiver.store.out, ConnNext(c, e).receiver.store.out)
  {
    match e
    case Connects =>
    case AppWrites(data) =>
    case AppEnds =>
    case Ticks(ms) => TickReceiver(c, ms);
    case Segment(seg) =>
      if c.active && !seg.header.rst {
        HeardIs(c, seg);
        HeardKeeps(c.receiver, seg);
      }
    case AppTakes(n) =>
  }

  /** An endpoint that closed without error sends nothing more. */
  lemma ClosedSilent(c: Connection, e: ConnEvent, t: Connection)
    requires ConnOk(c) && Countable(c.sender) && !c.active && !c.sender.stream.error && t == ConnNext(c, e)
    ensures t.segmentsOut == c.segmentsOut
  {
    FillDone(c.sender);
    assert c.sender.(segmentsOut := []) == c.sender;
    assert AfterAppEnd(c.sender) == c.sender;
  }

  lemma SentNow(c: Connection, e: ConnEvent, t: Connection, seg: TCPSegment)
    requires ConnOk(c) && Countable(c.sender) && PlainSender(c.sender) && c.segmentsOut == []
    requires t == ConnNext(c, e) && !c.sender.stream.error && seg in t.segmentsOut
    ensures c.active && (seg.header.ack ==> CarriesAck(t.receiver, seg))
  {
    SentCarries(c, e, t, seg);
    if !c.active {
      ClosedSilent(c, e, t);
    }
  }

  /** What the first endpoint does not change about the risk of the second. */
  lemma PeerStep(p: Pair, e: ConnEvent, q: Pair)
    requires Ready(p) && PossibleAtA(p, e) && Short(ConnNext(p.a, e).sender)
    requires q == StepA(p, e) && !q.a.sender.stream.error && Fragile(p.b)
    ensures Full(q.a) ==> Full(p.a)
    ensures HasZero(q.fromA) ==> HasZero(p.fromA) || Full(p.a)
  {
    var c, t := p.a, ConnNext(p.a, e);
    StepAKeen(p, e);
    LinkedMeaning(p.b.sender, c.receiver);
    LinkedMeaning(p.b.sender, q.a.receiver);
    ReceiverGrows(c, e);
    assert WindowSize(t.receiver) == 0 ==> WindowSize(c.receiver) == 0;
    if !c.active {
      StaysInactive(c, e);
    }
    if HasZero(q.fromA) && !HasZero(p.fromA) {
      var w :| w in q.fromA && ZeroAck(w);
      SentNow(c, e, t, w);
    }
  }

  /** No call makes a clean close possible that was not. */
  lemma ClosableBefore(p: Pair, e: ConnEvent, q: Pair)
    requires Ready(p) && PossibleAtA(p, e) && Short(ConnNext(p.a, e).sender)
    requires q == StepA(p, e) && !q.a.sender.stream.error && Closable(q)
    ensures Closable(p)
  {
    if !Fine(p.a, p.fromB) {
      RiskStep(p, e, q);
    }
    if Fragile(p.b) {
      PeerStep(p, e, q);
    }
  }

  // ---------------------------------------------------------------- the theorem

  lemma ErrorStays(c: Connection, e: ConnEvent)
    requires ConnOk(c) && c.sender.stream.error
    ensures ConnNext(c, e).sender.stream.error
  {
    StaysReset(c, e);
  }

  lemma ClosableStep(p: Pair, e: PairEvent, q: Pair)
    requires Ready(p) && Possible(p, e) && q == PairNext(p, e) && BothShort(q) && NoError(q) && Closable(q)
    ensures Closable(p)
  {
    match e
    case AtA(call) => ClosableBefore(p, call, q);
    case AtB(call) => ClosableBefore(Swapped(p), call, Swapped(q));
  }

  lemma NoErrorBefore(p: Pair, e: PairEvent)
    requires PairInv(p) && NoError(PairNext(p, e))
    ensures NoError(p)
  {
    if p.a.sender.stream.error && e.AtA? {
      ErrorStays(p.a, e.call);
    } else if p.b.sender.stream.error && e.AtB? {
      ErrorStays(p.b, e.call);
    }
  }

  lemma {:induction false} RunClosable(p: Pair, es: seq<PairEvent>)
    requires Ready(p) && PairRun(p, es).Some?
    requires var q := PairRun(p, es).value;
             BothShort(q) && NoError(q) && Closable(q)
    ensures Closable(p)
  {
    if es != [] {
      var init, last := es[..|es| - 1], es[|es| - 1];
      var m := PairRun(p, init).value;
      PairStepGrows(m, last);
      PairRunKeen(p, init);
      NoErrorBefore(m, last);
      RunKeepsRoom(p, init);
      ClosableStep(m, last, PairRun(p, es).value);
      RunClosable(p, init);
    }
  }

  /** Some way to go on closes both endpoints without error. */
  ghost predicate CanClose(p: Pair) {
    exists q :: Reaches(p, q) && BothShort(q) && BothClosed(q)
  }

  lemma ClosesIff(p: Pair)
    requires Ready(p)
    ensures CanClose(p) <==> Closable(p)
  {
    if Closable(p) {
      var q := Closes(p);
    } else if CanClose(p) {
      var q :| Reaches(p, q) && BothShort(q) && BothClosed(q);
      var es :| PairRun(p, es) == Some(q);
      RunClosable(p, es);
    }
  }

  /**
   When clean close is still within reach, for every state two endpoints reach
   without error: if and only if each of them is safe or its peer can tell it to
   stop counting timeouts, or each is safe or has time to wait out its linger time.
   An endpoint not past the wrap of the raw numbers, or with fewer than eight
   timeouts, or not yet acknowledged to the end, is always safe.
   */
  lemma CanCloseIff(ta: u16, ra: nat, sa: nat, ia: u32, tb: u16, rb: nat, sb: nat, ib: u32, es: seq<PairEvent>)
    requires PairRun(FreshPair(ta, ra, sa, ia, tb, rb, sb, ib), es).Some? && ra > 0 && rb > 0
    requires var p := PairRun(FreshPair(ta, ra, sa, ia, tb, rb, sb, ib), es).value;
             BothShort(p) && NoError(p)
    ensures var p := PairRun(FreshPair(ta, ra, sa, ia, tb, rb, sb, ib), es).value;
            CanClose(p) <==> Closable(p)
  {
    ReachableReady(ta, ra, sa, ia, tb, rb, sb, ib, es);
    ClosesIff(PairRun(FreshPair(ta, ra, sa, ia, tb, rb, sb, ib), es).value);
  }

  lemma SafeWhen(c: Connection, wire: set<TCPSegment>)
    requires ConnOk(c) && Countable(c.sender)
    requires || c.sender.isn + c.sender.lastAckno < TWO32
             || c.sender.retransmissions < MAX_RETX_ATTEMPTS
             || SummaryOfSender(c.sender) != FIN_ACKED
    ensures Fine(c, wire)
  {
    QueueEmptyIff(c.sender);
    InFlightIs(c.sender);
  }

  /** Each side has exactly what the other's application wrote. */
  predicate Exchanged(p: Pair, x: seq<byte>, y: seq<byte>) {
    && p.b.receiver.store.out.written == x == p.a.sender.stream.written && p.b.receiver.store.out.ended
    && p.a.receiver.store.out.written == y == p.b.sender.stream.written && p.a.receiver.store.out.ended
  }

  /** And then everything written is delivered, both ways, before the endpoints close. */
  lemma CanAlwaysClose(ta: u16, ra: nat, sa: nat, ia: u32, tb: u16, rb: nat, sb: nat, ib: u32, es: seq<PairEvent>)
    returns (q: Pair)
    requires PairRun(FreshPair(ta, ra, sa, ia, tb, rb, sb, ib), es).Some? && ra > 0 && rb > 0
    requires var p := PairRun(FreshPair(ta, ra, sa, ia, tb, rb, sb, ib), es).value;
             BothShort(p) && NoError(p) && Closable(p)
    ensures var p := PairRun(FreshPair(ta, ra, sa, ia, tb, rb, sb, ib), es).value;
            && Reaches(p, q) && BothClosed(q)
            && Exchanged(q, p.a.sender.stream.written, p.b.sender.stream.written)
  {
    ReachableReady(ta, ra, sa, ia, tb, rb, sb, ib, es);
    q := Closes(PairRun(FreshPair(ta, ra, sa, ia, tb, rb, sb, ib), es).value);
    ClosedMeaning(q);
  }

  lemma ClosedMeaning(q: Pair)
    requires Ready(q) && BothClosed(q)
    ensures Exchanged(q, q.a.sender.stream.written, q.b.sender.stream.written)
  {
    HalfMeaning(q);
  }

  // ---------------------------------------------------------------- any exchange

  /** The first application wrote `x` more on the way from `p` to `q`, and that is all. */
  ghost predicate Fed(p: Pair, q: Pair, x: seq<byte>) {
    && Reaches(p, q) && Ready(q)
    && q.a.sender.stream.written == p.a.sender.stream.written + x
    && q.a.sender.stream.ended == p.a.sender.stream.ended
    && q.a.sender.stream.capacity == p.a.sender.stream.capacity
    && q.b.sender.stream.written == p.b.sender.stream.written
    && q.b.sender.stream.ended == p.b.sender.stream.ended
    && q.b.sender.stream.capacity == p.b.sender.stream.capacity
  }

  lemma FedThen(p: Pair, m: Pair, q: Pair, x: seq<byte>, y: seq<byte>)
    requires Fed(p, m, x) && Fed(m, q, y)
    ensures Fed(p, q, x + y)
  {
    ReachesThen(p, m, q);
    Regroup(p.a.sender.stream.written, x, y);
  }

  lemma HeadAndRest(x: seq<byte>)
    requires x != []
    ensures [x[0]] + x[1..] == x
  {
  }

  lemma WriteOne(s: Sender, x: byte)
    requires SenderOk(s) && !s.stream.ended && s.stream.capacity > 0 && s.nextSeqno == Goal(s)
    ensures AfterWrite(s.stream, [x]) == s.stream.(written := s.stream.written + [x])
  {
  }

  /** Once all is sent there is room for one byte more. */
  lemma FeedOne(p: Pair, x: byte) returns (q: Pair)
    requires Ready(p) && !p.a.sender.stream.ended && p.a.sender.stream.capacity > 0
    requires |p.a.sender.stream.written| + 3 < TWO31
    ensures Fed(p, q, [x])
  {
    var m := Converge(p);
    WriteOne(m.a.sender, x);
    var s := AfterAppWrite(m.a.sender, [x]);
    StreamOk(m.a.sender, s.stream);
    FillExtends(s);
    q := StepReady(m, AppWrites([x]), ConnNext(m.a, AppWrites([x])));
    ReachesThen(p, m, q);
  }

  /** A stream of any length goes through a send buffer of any size, byte by byte. */
  lemma {:induction false} Feed(p: Pair, x: seq<byte>) returns (q: Pair)
    requires Ready(p) && !p.a.sender.stream.ended && p.a.sender.stream.capacity > 0
    requires |p.a.sender.stream.written| + |x| + 2 < TWO31
    ensures Fed(p, q, x)
    decreases |x|
  {
    if x == [] {
      q := p;
      ReachesSelf(p);
    } else {
      var m := FeedOne(p, x[0]);
      q := Feed(m, x[1..]);
      FedThen(p, m, q, [x[0]], x[1..]);
      HeadAndRest(x);
    }
  }

  /**
   Any two byte strings can be exchanged and both connections closed cleanly, from
   the start, for any initial sequence numbers and any buffers of at least a byte.
   */
  lemma AnyExchange(x: seq<byte>, y: seq<byte>, ta: u16, ra: nat, sa: nat, ia: u32, tb: u16, rb: nat, sb: nat, ib: u32)
    returns (q: Pair)
    requires ra > 0 && rb > 0 && sa > 0 && sb > 0 && |x| + 2 < TWO31 && |y| + 2 < TWO31
    ensures Reaches(FreshPair(ta, ra, sa, ia, tb, rb, sb, ib), q) && BothClosed(q) && Exchanged(q, x, y)
  {
    var f := FreshPair(ta, ra, sa, ia, tb, rb, sb, ib);
    assert PairRun(f, []) == Some(f);
    ReachableReady(ta, ra, sa, ia, tb, rb, sb, ib, []);
    var m := Feed(f, x);
    var t := Feed(Swapped(m), y);
    var n := Swapped(t);
    SwappedReaches(Swapped(m), t);
    ReachesThen(f, m, n);
    Unended(n);
    q := FineCloses(n);
    ReachesThen(f, n, q);
    ClosedMeaning(q);
  }

  lemma Unended(p: Pair)
    requires Ready(p) && !p.a.sender.stream.ended && !p.b.sender.stream.ended
    ensures Fine(p.a, p.fromB) && Fine(p.b, p.fromA)
  {
  }
}
