/**
 Flow control between two endpoints, when the network may lose and repeat segments
 but keeps each side's segments in the order they were sent.
 */
module PairFlow {
  import opened Words
  import opened WrappingIntegers
  import opened ByteStreams
  import opened Segments
  import opened Receivers
  import opened Senders
  import opened Segmentation
  import opened SenderProofs
  import opened SenderRuns
  import opened SenderTheorems
  import opened TcpStates
  import opened Links
  import opened Connections
  import opened ConnectionProofs
  import opened ConnectionTheorems
  import opened Sides
  import opened Pairs
  import opened Upkeep
  import opened Progress

  /** All that each side sent, in order; `seenA` is one past the segment of `logB` that arrived last. */
  datatype Ordered = Ordered(p: Pair, logA: seq<TCPSegment>, logB: seq<TCPSegment>, seenA: nat, seenB: nat)

  /** A call by the application or the clock, or the arrival of the peer's segment number `k`. */
  datatype OneEvent = Call(call: ConnEvent) | Arrival(k: nat)

  datatype OrderedEvent = First(e: OneEvent) | Second(e: OneEvent)

  function Flip(o: Ordered): Ordered {
    Ordered(Swapped(o.p), o.logB, o.logA, o.seenB, o.seenA)
  }

  /** A segment may arrive again, but not after a later one. */
  predicate PossibleFirst(o: Ordered, e: OneEvent) {
    match e
    case Call(call) => !call.Segment?
    case Arrival(k) => k < |o.logB| && o.seenA <= k + 1
  }

  function CallOf(o: Ordered, e: OneEvent): ConnEvent
    requires PossibleFirst(o, e)
  {
    match e
    case Call(call) => call
    case Arrival(k) => Segment(o.logB[k])
  }

  function NextFirst(o: Ordered, e: OneEvent): Ordered
    requires PossibleFirst(o, e)
  {
    var call := CallOf(o, e);
    o.(p := StepA(o.p, call),
       logA := o.logA + ConnNext(o.p.a, call).segmentsOut,
       seenA := if e.Arrival? then e.k + 1 else o.seenA)
  }

  predicate PossibleOrdered(o: Ordered, e: OrderedEvent) {
    if e.First? then PossibleFirst(o, e.e) else PossibleFirst(Flip(o), e.e)
  }

  function OrderedNext(o: Ordered, e: OrderedEvent): Ordered
    requires PossibleOrdered(o, e)
  {
    if e.First? then NextFirst(o, e.e) else Flip(NextFirst(Flip(o), e.e))
  }

  function OrderedRun(o: Ordered, es: seq<OrderedEvent>): Option<Ordered> {
    if es == [] then Some(o)
    else
      var m := OrderedRun(o, es[..|es| - 1]);
      if m.Some? && PossibleOrdered(m.value, es[|es| - 1]) then Some(OrderedNext(m.value, es[|es| - 1])) else None
  }

  // ---------------------------------------------------------------- the invariant

  function AbsOf(seg: TCPSegment, isn: u32): nat {
    Absolute(seg.header.ackno, isn)
  }

  function EdgeOf(seg: TCPSegment, isn: u32): nat {
    AbsOf(seg, isn) + seg.header.win
  }

  predicate NotAfter(x: TCPSegment, y: TCPSegment, isn: u32) {
    AbsOf(x, isn) <= AbsOf(y, isn) && EdgeOf(x, isn) <= EdgeOf(y, isn)
  }

  /** Acknowledgments never went back, in number or in right edge. */
  predicate Forward(log: seq<TCPSegment>, isn: u32, r: Receiver) {
    && (forall k :: 0 <= k < |log| && log[k].header.ack ==>
          AbsOf(log[k], isn) <= AbsoluteAck(r) && EdgeOf(log[k], isn) <= RightEdge(r))
    && (forall j, k :: 0 <= j <= k < |log| && log[j].header.ack && log[k].header.ack ==>
          NotAfter(log[j], log[k], isn))
  }

  /** The sender has heard nothing yet, or believes the segment `j` that arrived. */
  predicate Believes(s: Sender, log: seq<TCPSegment>, seen: nat, j: nat) {
    && j < seen && j < |log| && log[j].header.ack
    && s.lastAckno == AbsOf(log[j], s.isn) && s.lastWin == log[j].header.win
  }

  predicate Unheard(s: Sender) {
    s.lastAckno == 0 && s.lastWin == 1 && s.nextSeqno <= 1
  }

  ghost predicate View(s: Sender, log: seq<TCPSegment>, seen: nat) {
    WithinWindow(s) && (Unheard(s) || exists j: nat :: Believes(s, log, seen, j))
  }

  ghost predicate HalfFlow(o: Ordered) {
    && (forall seg :: seg in o.logB ==> seg in o.p.fromB)
    && Forward(o.logB, o.p.a.sender.isn, o.p.b.receiver)
    && View(o.p.a.sender, o.logB, o.seenA)
  }

  ghost predicate FlowOk(o: Ordered) {
    PairInv(o.p) && HalfFlow(o) && HalfFlow(Flip(o))
  }

  // ---------------------------------------------------------------- the sender's side

  /** The sender went on without hearing an acknowledgment. */
  predicate Unheeding(s: Sender, t: Sender) {
    && t.isn == s.isn && t.lastAckno == s.lastAckno && t.lastWin == s.lastWin
    && (WithinWindow(s) ==> WithinWindow(t))
    && (Unheard(s) ==> t.nextSeqno <= 1)
  }

  lemma FillUnheeding(s: Sender)
    requires SenderOk(s) && Countable(s)
    ensures Unheeding(s, AfterFill(s))
  {
    FillExtends(s);
    FillWithinWindowIff(s);
    FillTarget(s);
  }

  lemma StreamUnheeding(c: Connection, stream: Stream)
    requires SenderOk(c.sender) && Countable(c.sender.(stream := stream))
    requires c.sender.stream.written <= stream.written && stream.read == c.sender.stream.read
    requires stream.error == c.sender.stream.error
    requires c.sender.stream.ended ==> stream.ended && stream.written == c.sender.stream.written
    ensures Unheeding(c.sender, AfterConnect(c.(sender := c.sender.(stream := stream))).sender)
  {
    StreamOk(c.sender, stream);
    FillUnheeding(c.sender.(stream := stream));
  }

  lemma RstUnheeding(c: Connection)
    requires SenderOk(c.sender) && Countable(c.sender)
    ensures Unheeding(c.sender, UncleanShutdown(RstSent(c)).sender)
  {
    FillUnheeding(c.sender);
  }

  lemma UnheedingThen(s: Sender, m: Sender, t: Sender)
    requires Unheeding(s, m) && Unheeding(m, t)
    ensures Unheeding(s, t)
  {
  }

  lemma TickUnheeding(c: Connection, ms: nat)
    requires ConnOk(c) && Countable(c.sender)
    ensures Unheeding(c.sender, AfterConnTick(c, ms).sender)
  {
    if c.active {
      var m := TimePassed(c, ms);
      TickOk(c.sender, ms);
      TickKeepsQueue(c.sender, ms);
      assert Unheeding(c.sender, m.sender);
      if m.sender.retransmissions <= MAX_RETX_ATTEMPTS {
        TickedSender(c, ms);
      } else {
        RstUnheeding(m);
        UnheedingThen(c.sender, m.sender, UncleanShutdown(RstSent(m)).sender);
      }
    }
  }

  lemma CallUnheeding(c: Connection, e: ConnEvent)
    requires ConnOk(c) && Countable(c.sender) && Countable(ConnNext(c, e).sender) && !e.Segment?
    ensures Unheeding(c.sender, ConnNext(c, e).sender)
  {
    match e
    case Connects => FillUnheeding(c.sender);
    case AppWrites(data) =>
      if c.active && data != [] {
        FillKeepsWritten(AfterAppWrite(c.sender, data));
        StreamUnheeding(c, AfterAppWrite(c.sender, data).stream);
      }
    case AppEnds => StreamUnheeding(c, AfterAppEnd(c.sender).stream);
    case Ticks(ms) => TickUnheeding(c, ms);
    case AppTakes(n) =>
  }

  lemma UnheedingView(s: Sender, t: Sender, log: seq<TCPSegment>, seen: nat, more: nat)
    requires View(s, log, seen) && Unheeding(s, t) && seen <= more
    ensures View(t, log, more)
  {
    if !Unheard(s) {
      var j: nat :| Believes(s, log, seen, j);
      assert Believes(t, log, more, j);
    }
  }

  /** The next acknowledgment in order leaves no more in flight than it allows. */
  lemma NextAllows(s: Sender, log: seq<TCPSegment>, seen: nat, k: nat, r: Receiver)
    requires View(s, log, seen) && Forward(log, s.isn, r) && seen <= k + 1 && k < |log| && log[k].header.ack
    requires AbsOf(log[k], s.isn) >= 1
    ensures s.lastAckno <= AbsOf(log[k], s.isn)
    ensures s.nextSeqno - AbsOf(log[k], s.isn) <= Max(1, log[k].header.win)
  {
    if !Unheard(s) {
      var j: nat :| Believes(s, log, seen, j);
      assert NotAfter(log[j], log[k], s.isn);
    }
  }

  lemma AckView(s: Sender, pr: Receiver, log: seq<TCPSegment>, seen: nat, k: nat)
    requires Linked(s, pr) && Short(s) && View(s, log, seen) && Forward(log, s.isn, pr)
    requires seen <= k + 1 && k < |log| && log[k].header.ack && AckedBy(log[k].header.ackno, s, pr)
    ensures View(AfterAck(s, log[k].header.ackno, log[k].header.win), log, k + 1)
  {
    var w := log[k];
    var t := AfterAck(s, w.header.ackno, w.header.win);
    NextAllows(s, log, seen, k, pr);
    AckRead(s, pr, w.header.ackno);
    AckWithinWindowIff(s, w.header.ackno, w.header.win);
    AckSetsWindow(s, w.header.ackno, w.header.win);
    AckOk(s, w.header.ackno, w.header.win);
    assert Believes(t, log, k + 1, k);
  }

  /** What the rest of the answer does not touch. */
  lemma AnswerNumbers(s: Sender, r: Receiver, seg: TCPSegment)
    ensures var m, t := AckTaken(s, seg), KeptAlive(Replied(AckTaken(s, seg), seg), r, seg);
            t == m.(segmentsOut := t.segmentsOut)
  {
  }

  lemma ViewIgnoresQueue(s: Sender, q: seq<TCPSegment>, log: seq<TCPSegment>, seen: nat)
    requires View(s, log, seen)
    ensures View(s.(segmentsOut := q), log, seen)
  {
    var t := s.(segmentsOut := q);
    if !Unheard(s) {
      var j: nat :| Believes(s, log, seen, j);
      assert Believes(t, log, seen, j);
    }
  }

  lemma TakenInView(c: Connection, pr: Receiver, log: seq<TCPSegment>, seen: nat, k: nat)
    requires Linked(c.sender, pr) && Short(c.sender) && View(c.sender, log, seen) && Forward(log, c.sender.isn, pr)
    requires seen <= k + 1 && k < |log|
    requires log[k].header.ack ==> AckedBy(log[k].header.ackno, c.sender, pr)
    ensures View(TakenIn(c, log[k]).sender, log, k + 1)
  {
    var w, s := log[k], c.sender;
    var t := Heard(c, w);
    if SummaryOfReceiver(t.receiver) == SYN_RECV && SummaryOfSender(t.sender) == CLOSED {
      FillUnheeding(s);
      UnheedingView(s, AfterConnect(t).sender, log, seen, k + 1);
    } else {
      if w.header.ack {
        AckView(s, pr, log, seen, k);
      } else {
        UnheedingView(s, s, log, seen, k + 1);
      }
      AnswerNumbers(s, t.receiver, w);
      ViewIgnoresQueue(AckTaken(s, w), [], log, k + 1);
    }
  }

  lemma ArrivalView(c: Connection, pr: Receiver, log: seq<TCPSegment>, seen: nat, k: nat, t: Connection)
    requires Linked(c.sender, pr) && Short(c.sender) && View(c.sender, log, seen) && Forward(log, c.sender.isn, pr)
    requires seen <= k + 1 && k < |log| && t == ConnNext(c, Segment(log[k]))
    requires log[k].header.ack ==> AckedBy(log[k].header.ackno, c.sender, pr)
    ensures View(t.sender, log, k + 1)
  {
    if c.active && !log[k].header.rst {
      TakenInView(c, pr, log, seen, k);
      SegmentIs(c, log[k]);
    } else {
      UnheedingView(c.sender, t.sender, log, seen, k + 1);
    }
  }

  // ---------------------------------------------------------------- the receiver's side

  lemma ReceiverForwardStep(c: Connection, e: ConnEvent)
    ensures var r, t := c.receiver, ConnNext(c, e).receiver;
            AbsoluteAck(r) <= AbsoluteAck(t) && RightEdge(r) <= RightEdge(t)
  {
    match e
    case Connects =>
    case AppWrites(data) =>
    case AppEnds =>
    case Ticks(ms) => TickForward(c, ms);
    case Segment(seg) => SegmentForward(c, seg);
    case AppTakes(n) => ReceiverStepForward(c.receiver, Reads(n));
  }

  lemma SegmentForward(c: Connection, seg: TCPSegment)
    ensures var r, t := c.receiver, ConnNext(c, Segment(seg)).receiver;
            AbsoluteAck(r) <= AbsoluteAck(t) && RightEdge(r) <= RightEdge(t)
  {
    if c.active && !seg.header.rst {
      ReceiverStepForward(c.receiver, Arrives(seg));
      HeardIs(c, seg);
    }
  }

  lemma TickForward(c: Connection, ms: nat)
    ensures var r, t := c.receiver, AfterConnTick(c, ms).receiver;
            AbsoluteAck(r) == AbsoluteAck(t) && RightEdge(r) == RightEdge(t)
  {
  }

  /** A segment stamped now stands exactly where the receiver does. */
  lemma StampedNow(ps: Sender, r: Receiver, seg: TCPSegment)
    requires Linked(ps, r) && Short(ps) && r.syn && CarriesAck(r, seg)
    ensures AbsOf(seg, ps.isn) == AbsoluteAck(r) && EdgeOf(seg, ps.isn) == RightEdge(r)
  {
    AckGiven(ps, r);
  }

  lemma ForwardGrows(log: seq<TCPSegment>, more: seq<TCPSegment>, isn: u32, r: Receiver, t: Receiver)
    requires Forward(log, isn, r) && AbsoluteAck(r) <= AbsoluteAck(t) && RightEdge(r) <= RightEdge(t)
    requires forall seg :: seg in more && seg.header.ack ==>
               AbsOf(seg, isn) == AbsoluteAck(t) && EdgeOf(seg, isn) == RightEdge(t)
    ensures Forward(log + more, isn, t)
  {
    var all := log + more;
    forall k | 0 <= k < |all| && all[k].header.ack
      ensures AbsOf(all[k], isn) <= AbsoluteAck(t) && EdgeOf(all[k], isn) <= RightEdge(t)
    {
      if k >= |log| {
        assert all[k] == more[k - |log|] && all[k] in more;
      }
    }
    forall j, k | 0 <= j <= k < |all| && all[j].header.ack && all[k].header.ack
      ensures NotAfter(all[j], all[k], isn)
    {
      if k >= |log| {
        assert all[k] == more[k - |log|] && all[k] in more;
      }
    }
  }

  lemma SentForward(o: Ordered, call: ConnEvent, q: Pair)
    requires PairInv(o.p) && BothShort(o.p) && PairInv(q) && q == StepA(o.p, call) && HalfFlow(Flip(o))
    ensures Forward(o.logA + ConnNext(o.p.a, call).segmentsOut, o.p.b.sender.isn, q.a.receiver)
  {
    var t := ConnNext(o.p.a, call);
    ReceiverForwardStep(o.p.a, call);
    forall seg | seg in t.segmentsOut && seg.header.ack
      ensures AbsOf(seg, o.p.b.sender.isn) == AbsoluteAck(t.receiver)
      ensures EdgeOf(seg, o.p.b.sender.isn) == RightEdge(t.receiver)
    {
      SentCarries(o.p.a, call, t, seg);
      assert From(seg, q.a.sender, q.a.receiver, q.b.sender);
      StampedNow(q.b.sender, q.a.receiver, seg);
    }
    ForwardGrows(o.logA, t.segmentsOut, o.p.b.sender.isn, o.p.a.receiver, q.a.receiver);
  }

  // ---------------------------------------------------------------- runs

  lemma FirstView(o: Ordered, e: OneEvent, t: Connection)
    requires PairInv(o.p) && BothShort(o.p) && HalfFlow(o) && PossibleFirst(o, e)
    requires t == ConnNext(o.p.a, CallOf(o, e)) && Short(t.sender)
    ensures View(t.sender, o.logB, if e.Arrival? then e.k + 1 else o.seenA)
  {
    var c, r := o.p.a, o.p.b.receiver;
    if e.Call? {
      CallView(o, e.call, t);
    } else {
      LogIsLegal(o, e.k);
      ArrivalView(c, r, o.logB, o.seenA, e.k, t);
    }
  }

  lemma CallView(o: Ordered, call: ConnEvent, t: Connection)
    requires ConnOk(o.p.a) && Short(o.p.a.sender) && View(o.p.a.sender, o.logB, o.seenA) && !call.Segment?
    requires t == ConnNext(o.p.a, call) && Short(t.sender)
    ensures View(t.sender, o.logB, o.seenA)
  {
    CallUnheeding(o.p.a, call);
    UnheedingView(o.p.a.sender, t.sender, o.logB, o.seenA, o.seenA);
  }

  lemma LogIsLegal(o: Ordered, k: nat)
    requires PairInv(o.p) && HalfFlow(o) && k < |o.logB|
    ensures o.logB[k] in o.p.fromB && Linked(o.p.a.sender, o.p.b.receiver)
    ensures o.logB[k].header.ack ==> AckedBy(o.logB[k].header.ackno, o.p.a.sender, o.p.b.receiver)
  {
    assert From(o.logB[k], o.p.b.sender, o.p.b.receiver, o.p.a.sender);
  }

  lemma FirstFlows(o: Ordered, e: OneEvent)
    requires FlowOk(o) && BothShort(o.p) && PossibleFirst(o, e) && BothShort(NextFirst(o, e).p)
    ensures FlowOk(NextFirst(o, e))
  {
    var call := CallOf(o, e);
    var t, n := ConnNext(o.p.a, call), NextFirst(o, e);
    StepAInv(o.p, call);
    FirstView(o, e, t);
    ViewIgnoresQueue(t.sender, t.sender.segmentsOut, o.logB, n.seenA);
    SideStep(o.p.a, call, o.p.b.sender, o.p.b.receiver);
    SentForward(o, call, n.p);
    SecondView(o.p.b.sender, o.logA, t.segmentsOut, o.seenB);
  }

  lemma SecondView(s: Sender, log: seq<TCPSegment>, more: seq<TCPSegment>, seen: nat)
    requires View(s, log, seen)
    ensures View(s, log + more, seen)
  {
    if !Unheard(s) {
      var j: nat :| Believes(s, log, seen, j);
      assert Believes(s, log + more, seen, j);
    }
  }

  lemma OrderedStep(o: Ordered, e: OrderedEvent)
    requires FlowOk(o) && BothShort(o.p) && PossibleOrdered(o, e) && BothShort(OrderedNext(o, e).p)
    ensures FlowOk(OrderedNext(o, e))
  {
    if e.First? {
      FirstFlows(o, e.e);
    } else {
      FirstFlows(Flip(o), e.e);
    }
  }

  lemma OrderedGrows(o: Ordered, e: OrderedEvent)
    requires PossibleOrdered(o, e) && BothShort(OrderedNext(o, e).p)
    ensures BothShort(o.p)
  {
    if e.First? {
      ConnStepGrows(o.p.a, CallOf(o, e.e));
    } else {
      ConnStepGrows(o.p.b, CallOf(Flip(o), e.e));
    }
  }

  lemma {:induction false} OrderedRunFlows(o: Ordered, es: seq<OrderedEvent>)
    requires FlowOk(o) && OrderedRun(o, es).Some? && BothShort(OrderedRun(o, es).value.p)
    ensures FlowOk(OrderedRun(o, es).value)
  {
    if es != [] {
      var init, last := es[..|es| - 1], es[|es| - 1];
      OrderedGrows(OrderedRun(o, init).value, last);
      OrderedRunFlows(o, init);
      OrderedStep(OrderedRun(o, init).value, last);
    }
  }

  /**
   Flow control for the whole system: when neither side's segments overtake one
   another, in every state two endpoints reach each has at most the window it was
   last told in flight, or the single probe a zero window allows.
   */
  lemma PairFlowControl(ta: u16, ra: nat, sa: nat, ia: u32, tb: u16, rb: nat, sb: nat, ib: u32, es: seq<OrderedEvent>)
    requires OrderedRun(Ordered(FreshPair(ta, ra, sa, ia, tb, rb, sb, ib), [], [], 0, 0), es).Some?
    requires BothShort(OrderedRun(Ordered(FreshPair(ta, ra, sa, ia, tb, rb, sb, ib), [], [], 0, 0), es).value.p)
    ensures var p := OrderedRun(Ordered(FreshPair(ta, ra, sa, ia, tb, rb, sb, ib), [], [], 0, 0), es).value.p;
            && InFlight(p.a.sender) <= Max(1, p.a.sender.lastWin)
            && InFlight(p.b.sender) <= Max(1, p.b.sender.lastWin)
  {
    FreshFlow(ta, ra, sa, ia, tb, rb, sb, ib);
    var o := Ordered(FreshPair(ta, ra, sa, ia, tb, rb, sb, ib), [], [], 0, 0);
    OrderedRunFlows(o, es);
    FlowBound(OrderedRun(o, es).value);
    FlowBound(Flip(OrderedRun(o, es).value));
  }

  lemma FreshFlow(ta: u16, ra: nat, sa: nat, ia: u32, tb: u16, rb: nat, sb: nat, ib: u32)
    ensures FlowOk(Ordered(FreshPair(ta, ra, sa, ia, tb, rb, sb, ib), [], [], 0, 0))
  {
    FreshHalf(ta, ra, sa, ia, tb, rb, sb, ib);
    FreshHalf(tb, rb, sb, ib, ta, ra, sa, ia);
  }

  lemma FlowBound(o: Ordered)
    requires FlowOk(o) && BothShort(o.p)
    ensures InFlight(o.p.a.sender) <= Max(1, o.p.a.sender.lastWin)
  {
    InFlightIs(o.p.a.sender);
  }

  /** Every state so reached is one that the theorems about pairs speak of. */
  lemma {:induction false} OrderedIsRun(o: Ordered, es: seq<OrderedEvent>)
    requires FlowOk(o) && OrderedRun(o, es).Some? && BothShort(OrderedRun(o, es).value.p)
    ensures Reaches(o.p, OrderedRun(o, es).value.p)
  {
    if es == [] {
      ReachesSelf(o.p);
    } else {
      var init, last := es[..|es| - 1], es[|es| - 1];
      var m := OrderedRun(o, init).value;
      OrderedGrows(m, last);
      OrderedRunFlows(o, init);
      OrderedIsRun(o, init);
      if last.First? {
        PossibleIs(m, last.e);
        ReachesStep(o.p, m.p, AtA(CallOf(m, last.e)));
      } else {
        PossibleIs(Flip(m), last.e);
        ReachesStep(o.p, m.p, AtB(CallOf(Flip(m), last.e)));
      }
    }
  }

  lemma PossibleIs(o: Ordered, e: OneEvent)
    requires FlowOk(o) && PossibleFirst(o, e)
    ensures PossibleAtA(o.p, CallOf(o, e))
  {
  }
}
