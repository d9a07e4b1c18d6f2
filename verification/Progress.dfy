/**
 What the protocol can still do. From every state that two endpoints can reach
 without error there is a way to go on that delivers everything written on both
 sides, and a way to close cleanly once both streams are ended.
 */
module Progress {
  import opened Words
  import opened WrappingIntegers
  import opened ByteStreams
  import opened Stores
  import opened Segments
  import opened Receivers
  import opened Senders
  import opened Segmentation
  import opened SenderProofs
  import opened SenderRuns
  import opened TcpStates
  import opened Links
  import opened Connections
  import opened ConnectionProofs
  import opened ConnectionTheorems
  import opened Sides
  import opened Pairs
  import opened Upkeep

  // ---------------------------------------------------------------- going on

  /** `q` comes from `p` by some run. */
  ghost predicate Reaches(p: Pair, q: Pair) {
    exists es :: PairRun(p, es) == Some(q)
  }

  lemma ReachesSelf(p: Pair)
    ensures Reaches(p, p)
  {
    assert PairRun(p, []) == Some(p);
  }

  lemma RunThen(p: Pair, es: seq<PairEvent>, e: PairEvent)
    requires PairRun(p, es).Some? && Possible(PairRun(p, es).value, e)
    ensures PairRun(p, es + [e]) == Some(PairNext(PairRun(p, es).value, e))
  {
    assert (es + [e])[..|es|] == es;
  }

  lemma ReachesStep(p: Pair, m: Pair, e: PairEvent)
    requires Reaches(p, m) && Possible(m, e)
    ensures Reaches(p, PairNext(m, e))
  {
    var es :| PairRun(p, es) == Some(m);
    RunThen(p, es, e);
  }

  lemma {:induction false} ReachesRun(p: Pair, m: Pair, es: seq<PairEvent>)
    requires Reaches(p, m) && PairRun(m, es).Some?
    ensures Reaches(p, PairRun(m, es).value)
  {
    if es != [] {
      ReachesRun(p, m, es[..|es| - 1]);
      ReachesStep(p, PairRun(m, es[..|es| - 1]).value, es[|es| - 1]);
    }
  }

  lemma ReachesThen(p: Pair, m: Pair, q: Pair)
    requires Reaches(p, m) && Reaches(m, q)
    ensures Reaches(p, q)
  {
    var es :| PairRun(m, es) == Some(q);
    ReachesRun(p, m, es);
  }

  predicate NoError(p: Pair) {
    !p.a.sender.stream.error && !p.b.sender.stream.error
  }

  predicate SomeRoom(p: Pair) {
    p.a.receiver.store.out.capacity > 0 && p.b.receiver.store.out.capacity > 0
  }

  ghost predicate Ready(p: Pair) {
    PairKeen(p) && BothShort(p) && NoError(p) && SomeRoom(p)
  }

  /** What the peer has of a stream, in sequence numbers. */
  function Got(r: Receiver): nat {
    if r.syn then AbsoluteAck(r) else 0
  }

  /** Count and timer of retransmissions stand still until new data is acknowledged, which clears the count. */
  predicate SameCount(s: Sender, t: Sender) {
    && s.lastAckno <= t.lastAckno
    && (t.lastAckno == s.lastAckno ==>
          && t.retransmissions == s.retransmissions
          && (s.outstanding != [] ==> t.outstanding != [] && t.timer == s.timer))
    && (t.lastAckno > s.lastAckno ==> t.retransmissions == 0)
  }

  /** The application of this endpoint did nothing meanwhile, and no time passed. */
  predicate SameStream(s: Sender, t: Sender) {
    && t.stream.written == s.stream.written && t.stream.ended == s.stream.ended
    && t.stream.error == s.stream.error && t.stream.capacity == s.stream.capacity && t.isn == s.isn
    && s.nextSeqno <= t.nextSeqno && SameCount(s, t)
  }

  predicate Onwards(c: Connection, t: Connection) {
    && SameStream(c.sender, t.sender)
    && Got(c.receiver) <= Got(t.receiver)
    && t.receiver.store.out.capacity == c.receiver.store.out.capacity
    && t.rtTimeout == c.rtTimeout
    && (t.active ==> c.active) && (t.linger ==> c.linger)
  }

  /** From `p` to `q` with nothing written, no time passed and nothing lost. */
  ghost predicate Forth(p: Pair, q: Pair) {
    && Reaches(p, q) && Ready(q) && Onwards(p.a, q.a) && Onwards(p.b, q.b)
    && p.fromA <= q.fromA && p.fromB <= q.fromB
  }

  lemma ForthSelf(p: Pair)
    requires Ready(p)
    ensures Forth(p, p)
  {
    ReachesSelf(p);
  }

  lemma ForthThen(p: Pair, m: Pair, q: Pair)
    requires Forth(p, m) && Forth(m, q)
    ensures Forth(p, q)
  {
    ReachesThen(p, m, q);
  }

  /** Calls that write nothing and cannot end in error. */
  predicate Harmless(e: ConnEvent) {
    e.Connects? || e.AppTakes? || (e.Segment? && !e.seg.header.rst)
  }

  lemma FillSameStream(s: Sender)
    requires SenderOk(s) && Countable(s)
    ensures SameStream(s, AfterFill(s))
  {
    FillExtends(s);
    FillOk(s);
  }

  lemma AnswerSameStream(s: Sender, r: Receiver, seg: TCPSegment)
    requires SenderOk(s) && Countable(s)
    ensures SameStream(s, KeptAlive(Replied(AckTaken(s, seg), seg), r, seg))
  {
    if seg.header.ack && Unwrap(seg.header.ackno, s.isn, s.lastAckno) <= s.nextSeqno {
      AcknowledgedOk(s, seg.header.ackno, seg.header.win);
      FillSameStream(Acknowledged(s, seg.header.ackno, seg.header.win));
    }
  }

  lemma TakenInSameStream(c: Connection, seg: TCPSegment)
    requires SenderOk(c.sender) && Countable(c.sender)
    ensures SameStream(c.sender, TakenIn(c, seg).sender)
  {
    FillSameStream(c.sender);
    AnswerSameStream(c.sender, AfterSegment(c.receiver, seg), seg);
  }

  lemma HeardCapacity(r: Receiver, seg: TCPSegment)
    ensures AfterSegment(r, seg).store.out.capacity == r.store.out.capacity
    ensures Got(r) <= Got(AfterSegment(r, seg))
  {
    ReceiverStepForward(r, Arrives(seg));
    PushForward(r.store, seg.payload, StreamIndex(r, seg), seg.header.fin);
    PushForward(r.store, seg.payload, 0, seg.header.fin);
  }

  lemma HarmlessStep(c: Connection, e: ConnEvent)
    requires ConnOk(c) && Countable(c.sender) && Harmless(e)
    ensures Onwards(c, ConnNext(c, e))
  {
    match e
    case Connects => FillSameStream(c.sender);
    case AppTakes(n) =>
    case Segment(seg) =>
      if c.active {
        TakenInSameStream(c, seg);
        HeardCapacity(c.receiver, seg);
        TakenInGrows(c, seg);
        SegmentIs(c, seg);
        StepKeepsTimeout(c, e);
      }
  }

  lemma StepAForth(p: Pair, e: ConnEvent, t: Connection) returns (q: Pair)
    requires Ready(p) && Harmless(e) && PossibleAtA(p, e) && t == ConnNext(p.a, e)
    ensures q == StepA(p, e) && Forth(p, q) && q.b == p.b && q.a == t.(segmentsOut := [])
  {
    q := StepA(p, e);
    HarmlessStep(p.a, e);
    StepAKeen(p, e);
    ReachesSelf(p);
    ReachesStep(p, p, AtA(e));
  }

  lemma {:induction false} SwappedRun(p: Pair, es: seq<PairEvent>)
    requires PairRun(p, es).Some?
    ensures Reaches(Swapped(p), Swapped(PairRun(p, es).value))
  {
    if es == [] {
      ReachesSelf(Swapped(p));
    } else {
      var init, last := es[..|es| - 1], es[|es| - 1];
      var m := PairRun(p, init).value;
      SwappedRun(p, init);
      var mirror := match last case AtA(call) => AtB(call) case AtB(call) => AtA(call);
      ReachesStep(Swapped(p), Swapped(m), mirror);
    }
  }

  /** The two endpoints play the same part. */
  lemma SwappedReaches(p: Pair, q: Pair)
    requires Reaches(p, q)
    ensures Reaches(Swapped(p), Swapped(q))
  {
    var es :| PairRun(p, es) == Some(q);
    SwappedRun(p, es);
  }

  lemma SwappedForth(p: Pair, q: Pair)
    requires Forth(p, q)
    ensures Forth(Swapped(p), Swapped(q))
  {
    SwappedReaches(p, q);
  }

  lemma StepBForth(p: Pair, e: ConnEvent, t: Connection) returns (q: Pair)
    requires Ready(p) && Harmless(e) && PossibleAtA(Swapped(p), e) && t == ConnNext(p.b, e)
    ensures q == PairNext(p, AtB(e)) && Forth(p, q) && q.a == p.a && q.b == t.(segmentsOut := [])
  {
    var m := StepAForth(Swapped(p), e, t);
    q := Swapped(m);
    SwappedForth(Swapped(p), m);
  }

  // ---------------------------------------------------------------- one more number delivered

  lemma {:induction false} FindCover(q: seq<TCPSegment>, isn: u32, lo: nat, hi: nat, W: seq<byte>, ended: bool, n: nat)
    returns (k: nat, a: nat)
    requires Laid(q, isn, lo, hi, W, ended) && lo <= n < hi
    ensures k < |q| && a <= n < a + SequenceLength(q[k]) && a + SequenceLength(q[k]) <= hi
    ensures q[k].header.seqno == Wrap(a, isn) && CarriedAt(q[k], a, W, ended)
  {
    var next := lo + SequenceLength(q[0]);
    LaidLength(q[1..], isn, next, hi, W, ended);
    if n < next {
      k, a := 0, lo;
    } else {
      var j, b := FindCover(q[1..], isn, next, hi, W, ended, n);
      k, a := j + 1, b;
    }
  }

  /** While something is not delivered neither endpoint has closed. */
  lemma StillOpen(p: Pair)
    requires Ready(p) && Got(p.b.receiver) < Goal(p.a.sender)
    ensures p.a.active && p.b.active
  {
    HalfMeaning(p);
    HalfMeaning(Swapped(p));
    assert Linked(p.a.sender, p.b.receiver);
  }

  lemma GotBounds(p: Pair)
    requires Ready(p)
    ensures p.a.sender.lastAckno <= Got(p.b.receiver) <= p.a.sender.nextSeqno <= Goal(p.a.sender)
  {
    assert Linked(p.a.sender, p.b.receiver);
    if p.b.receiver.syn {
      AckBounded(p.a.sender, p.b.receiver);
    }
  }

  /** Between calls everything outstanding is on the wire. */
  lemma OutstandingOnWire(p: Pair, k: nat) returns (w: TCPSegment)
    requires Ready(p) && k < |p.a.sender.outstanding|
    ensures w in p.fromA && Copy(w, p.a.sender.outstanding[k])
  {
    assert ConnOk(p.a) && Keen(p.a, p.fromA) && Out(p.a) == {};
    assert p.a.sender.segmentsOut == [];
    w :| w in p.fromA + Out(p.a) && Copy(w, p.a.sender.outstanding[k]);
  }

  /** The segment the peer wants next is on the wire. */
  lemma FindWanted(p: Pair) returns (w: TCPSegment, a: nat)
    requires Ready(p) && Got(p.b.receiver) < p.a.sender.nextSeqno
    ensures w in p.fromA && !w.header.rst && EmittedAt(w, a, p.a.sender)
    ensures a <= Got(p.b.receiver) < a + SequenceLength(w)
  {
    var s := p.a.sender;
    GotBounds(p);
    StillOpen(p);
    var k;
    k, a := FindCover(s.outstanding, s.isn, QueueHead(s), s.nextSeqno, s.stream.written, s.stream.ended,
                      Got(p.b.receiver));
    w := OutstandingOnWire(p, k);
  }

  /** A receiver with room that gets the segment it wants gets on. */
  lemma WantedArrives(s: Sender, r: Receiver, seg: TCPSegment, a: nat)
    requires Linked(s, r) && Short(s) && EmittedAt(seg, a, s)
    requires a <= Got(r) < a + SequenceLength(seg) && WindowSize(r) > 0
    ensures Got(r) < Got(AfterSegment(r, seg))
  {
    InFlightIs(s);
    AbsoluteOfWrap(a, s.isn);
    assert Emitted(seg, s);
    SegmentArrives(s, r, seg);
    if r.syn {
      EmittedFits(s, r, seg);
      WantedDataArrives(s, r, seg, a);
    }
  }

  lemma WantedDataArrives(s: Sender, r: Receiver, seg: TCPSegment, a: nat)
    requires Linked(s, r) && Short(s) && EmittedAt(seg, a, s) && r.syn
    requires a <= AbsoluteAck(r) < a + SequenceLength(seg) && WindowSize(r) > 0
    requires Fits(r, seg, s.stream.written)
    requires !seg.header.syn ==> StreamIndex(r, seg) == a - 1
    requires Linked(s, AfterSegment(r, seg)) && AbsoluteAck(r) <= AbsoluteAck(AfterSegment(r, seg))
    ensures AbsoluteAck(r) < AbsoluteAck(AfterSegment(r, seg))
  {
    var t, i := AfterSegment(r, seg), FirstUnassembled(r.store);
    assert !r.store.out.ended;
    PushFaithful(r.store, s.stream.written, seg.payload, StreamIndex(r, seg), seg.header.fin);
    if i < a - 1 + |seg.payload| {
      assert Covers(seg.payload, a - 1, i) && i < FirstUnacceptable(r.store);
      assert Knows(t.store, i);
    }
  }

  lemma ReadRoom(r: Receiver)
    ensures var t := AfterRead(r, |r.store.out.written|);
            Got(t) == Got(r) && WindowSize(t) == r.store.out.capacity
  {
  }

  /** The peer's application reads all it has. */
  lemma MakeRoom(p: Pair) returns (q: Pair)
    requires Ready(p)
    ensures Forth(p, q) && q.a == p.a && Got(q.b.receiver) == Got(p.b.receiver) && WindowSize(q.b.receiver) > 0
  {
    var r := p.b.receiver;
    q := StepBForth(p, AppTakes(|r.store.out.written|), p.b.(receiver := AfterRead(r, |r.store.out.written|)));
    ReadRoom(r);
  }

  lemma HeardIs(c: Connection, seg: TCPSegment)
    requires c.active && !seg.header.rst
    ensures ConnNext(c, Segment(seg)).receiver == AfterSegment(c.receiver, seg)
  {
    TakenInGrows(c, seg);
    SegmentIs(c, seg);
  }

  /** A segment on the wire reaches the second endpoint. */
  lemma DeliverToB(p: Pair, w: TCPSegment) returns (q: Pair)
    requires Ready(p) && p.b.active && w in p.fromA && !w.header.rst
    ensures Forth(p, q) && q.a == p.a && q.b.receiver == AfterSegment(p.b.receiver, w)
  {
    var t := ConnNext(p.b, Segment(w));
    HeardIs(p.b, w);
    q := StepBForth(p, Segment(w), t);
  }

  lemma DeliverWanted(p: Pair) returns (q: Pair)
    requires Ready(p) && Got(p.b.receiver) < p.a.sender.nextSeqno && WindowSize(p.b.receiver) > 0
    ensures Forth(p, q) && q.a == p.a && Got(p.b.receiver) < Got(q.b.receiver)
  {
    GotBounds(p);
    StillOpen(p);
    var w, a := FindWanted(p);
    q := DeliverToB(p, w);
    ReadyLinked(p);
    WantedArrives(p.a.sender, p.b.receiver, w, a);
  }

  lemma ReadyLinked(p: Pair)
    requires Ready(p)
    ensures Linked(p.a.sender, p.b.receiver) && Short(p.a.sender)
  {
  }

  /** Some number the sender has sent gets through. */
  lemma PushOn(p: Pair) returns (q: Pair)
    requires Ready(p) && Got(p.b.receiver) < p.a.sender.nextSeqno
    ensures Forth(p, q) && q.a == p.a && Got(p.b.receiver) < Got(q.b.receiver)
  {
    var m := MakeRoom(p);
    q := DeliverWanted(m);
    ForthThen(p, m, q);
  }

  // ---------------------------------------------------------------- one more number sent

  /** The latest acknowledgment of the peer is on the wire. */
  lemma FindAck(p: Pair) returns (w: TCPSegment)
    requires Ready(p) && p.b.receiver.syn
    ensures w in p.fromB && Gives(w, p.b.receiver)
  {
    assert HalfKeen(Swapped(p)) && Out(p.b) == {};
    w :| w in p.fromB + Out(p.b) && Gives(w, p.b.receiver);
  }

  /** What taking it does to the sender. */
  lemma AckMovesSender(s: Sender, r: Receiver, w: TCPSegment)
    requires Linked(s, r) && Short(s) && r.syn && Gives(w, r) && AckedBy(w.header.ackno, s, r)
    ensures var t := AfterAck(s, w.header.ackno, w.header.win);
            && t.lastAckno == AbsoluteAck(r)
            && (AbsoluteAck(r) == s.nextSeqno < Goal(s) ==> s.nextSeqno < t.nextSeqno)
  {
    InFlightIs(s);
    AckBounded(s, r);
    AbsoluteOfWrap(AbsoluteAck(r), s.isn);
    AckArrives(s, r, w.header.ackno, w.header.win);
    AckRead(s, r, w.header.ackno);
    AcknowledgedOk(s, w.header.ackno, w.header.win);
    FillTarget(Acknowledged(s, w.header.ackno, w.header.win));
  }

  lemma AnsweredNumbers(s: Sender, r: Receiver, seg: TCPSegment)
    requires seg.header.ack
    ensures var t := KeptAlive(Replied(AckTaken(s, seg), seg), r, seg);
            var m := AfterAck(s, seg.header.ackno, seg.header.win);
            t.nextSeqno == m.nextSeqno && t.lastAckno == m.lastAckno
  {
  }

  lemma TakenInNumbers(c: Connection, seg: TCPSegment)
    requires c.active && !seg.header.rst && seg.header.ack && c.sender.nextSeqno > 0 && !c.sender.stream.error
    ensures var t := ConnNext(c, Segment(seg)).sender;
            var m := AfterAck(c.sender, seg.header.ackno, seg.header.win);
            t.nextSeqno == m.nextSeqno && t.lastAckno == m.lastAckno
  {
    AnsweredNumbers(c.sender, AfterSegment(c.receiver, seg), seg);
    SegmentIs(c, seg);
  }

  /** A segment on the wire reaches the first endpoint. */
  lemma DeliverToA(p: Pair, w: TCPSegment) returns (q: Pair)
    requires Ready(p) && p.a.active && w in p.fromB && !w.header.rst && w.header.ack && p.a.sender.nextSeqno > 0
    ensures Forth(p, q) && q.b == p.b
    ensures var m := AfterAck(p.a.sender, w.header.ackno, w.header.win);
            q.a.sender.nextSeqno == m.nextSeqno && q.a.sender.lastAckno == m.lastAckno
  {
    var t := ConnNext(p.a, Segment(w));
    TakenInNumbers(p.a, w);
    q := StepAForth(p, Segment(w), t);
  }

  lemma DeliverAck(p: Pair) returns (q: Pair)
    requires Ready(p) && p.a.active && p.b.receiver.syn
    ensures Forth(p, q) && q.b == p.b && q.a.sender.lastAckno == Got(p.b.receiver)
    ensures Got(p.b.receiver) == p.a.sender.nextSeqno < Goal(p.a.sender) ==> p.a.sender.nextSeqno < q.a.sender.nextSeqno
  {
    var w := FindAck(p);
    ReadyLinked(p);
    AckIsLegal(p, w);
    AckMovesSender(p.a.sender, p.b.receiver, w);
    q := DeliverToA(p, w);
  }

  lemma AckIsLegal(p: Pair, w: TCPSegment)
    requires Ready(p) && p.b.receiver.syn && w in p.fromB && Gives(w, p.b.receiver)
    ensures AckedBy(w.header.ackno, p.a.sender, p.b.receiver) && p.a.sender.nextSeqno > 0
  {
    assert From(w, p.b.sender, p.b.receiver, p.a.sender);
  }

  /** The sender sends some more once all it sent has got through. */
  lemma PullOn(p: Pair) returns (q: Pair)
    requires Ready(p) && Got(p.b.receiver) == p.a.sender.nextSeqno < Goal(p.a.sender)
    ensures Forth(p, q) && q.b == p.b && p.a.sender.nextSeqno < q.a.sender.nextSeqno
  {
    StillOpen(p);
    if p.a.sender.nextSeqno == 0 {
      q := StepAForth(p, Connects, ConnNext(p.a, Connects));
      FillTarget(p.a.sender);
    } else {
      q := DeliverAck(p);
    }
  }

  // ---------------------------------------------------------------- everything delivered

  /** All that the first endpoint was given to send has arrived, and it knows. */
  predicate AllArrived(p: Pair) {
    Got(p.b.receiver) == p.a.sender.nextSeqno == p.a.sender.lastAckno == Goal(p.a.sender)
  }

  lemma {:induction false} Converge(p: Pair) returns (q: Pair)
    requires Ready(p)
    ensures Forth(p, q) && AllArrived(q)
    decreases 2 * Goal(p.a.sender) - Got(p.b.receiver) - p.a.sender.nextSeqno
  {
    GotBounds(p);
    if Got(p.b.receiver) < p.a.sender.nextSeqno {
      var m := PushOn(p);
      GotBounds(m);
      q := Converge(m);
      ForthThen(p, m, q);
    } else if p.a.sender.nextSeqno < Goal(p.a.sender) {
      var m := PullOn(p);
      GotBounds(m);
      q := Converge(m);
      ForthThen(p, m, q);
    } else {
      q := Conclude(p);
    }
  }

  lemma Conclude(p: Pair) returns (q: Pair)
    requires Ready(p) && Got(p.b.receiver) == p.a.sender.nextSeqno == Goal(p.a.sender)
    ensures Forth(p, q) && AllArrived(q)
  {
    if p.a.active {
      q := DeliverAck(p);
      GotBounds(q);
    } else {
      q := p;
      ForthSelf(p);
      assert ConnOk(p.a);
      FinAckedIff(p.a.sender);
    }
  }

  lemma StaysArrived(p: Pair, q: Pair)
    requires Ready(p) && AllArrived(p) && Forth(p, q)
    ensures AllArrived(q)
  {
    GotBounds(q);
  }

  /** Both directions, one after the other. */
  lemma ConvergeBoth(p: Pair) returns (q: Pair)
    requires Ready(p)
    ensures Forth(p, q) && AllArrived(q) && AllArrived(Swapped(q))
  {
    var m := Converge(p);
    var t := Converge(Swapped(m));
    q := Swapped(t);
    SwappedForth(Swapped(m), t);
    StaysArrived(m, q);
    ForthThen(p, m, q);
  }

  /** What that means for the two applications. */
  lemma ArrivedMeaning(p: Pair)
    requires Ready(p) && AllArrived(p)
    ensures p.b.receiver.syn && p.b.receiver.store.out.written == p.a.sender.stream.written
    ensures p.b.receiver.store.out.ended == p.a.sender.stream.ended
  {
    ReadyLinked(p);
    LinkedMeaning(p.a.sender, p.b.receiver);
  }

  // ---------------------------------------------------------------- from every reachable state

  lemma StepKeepsRoom(c: Connection, e: ConnEvent)
    ensures ConnNext(c, e).receiver.store.out.capacity == c.receiver.store.out.capacity
  {
    if e.Segment? {
      HeardCapacity(c.receiver, e.seg);
    }
  }

  lemma {:induction false} RunKeepsRoom(p: Pair, es: seq<PairEvent>)
    requires PairRun(p, es).Some? && SomeRoom(p)
    ensures SomeRoom(PairRun(p, es).value)
  {
    if es != [] {
      var m, e := PairRun(p, es[..|es| - 1]).value, es[|es| - 1];
      RunKeepsRoom(p, es[..|es| - 1]);
      match e {
        case AtA(call) => StepKeepsRoom(m.a, call);
        case AtB(call) => StepKeepsRoom(m.b, call);
      }
    }
  }

  lemma ReachableReady(ta: u16, ra: nat, sa: nat, ia: u32, tb: u16, rb: nat, sb: nat, ib: u32, es: seq<PairEvent>)
    requires PairRun(FreshPair(ta, ra, sa, ia, tb, rb, sb, ib), es).Some? && ra > 0 && rb > 0
    requires var p := PairRun(FreshPair(ta, ra, sa, ia, tb, rb, sb, ib), es).value;
             BothShort(p) && NoError(p)
    ensures Ready(PairRun(FreshPair(ta, ra, sa, ia, tb, rb, sb, ib), es).value)
  {
    var f := FreshPair(ta, ra, sa, ia, tb, rb, sb, ib);
    FreshHalf(ta, ra, sa, ia, tb, rb, sb, ib);
    FreshHalf(tb, rb, sb, ib, ta, ra, sa, ia);
    PairRunKeen(f, es);
    RunKeepsRoom(f, es);
  }

  /** Each side has exactly what the other's application wrote, and its end if there is one. */
  predicate AllDelivered(p: Pair, q: Pair) {
    && q.b.receiver.store.out.written == q.a.sender.stream.written == p.a.sender.stream.written
    && q.a.receiver.store.out.written == q.b.sender.stream.written == p.b.sender.stream.written
    && q.b.receiver.store.out.ended == p.a.sender.stream.ended
    && q.a.receiver.store.out.ended == p.b.sender.stream.ended
  }

  /**
   No reachable state is a dead end. Whatever two endpoints with room to receive
   have done, and whatever the network has lost so far, as long as neither is in
   error there is a way to go on after which each side has assembled everything
   the other's application wrote.
   */
  lemma CanAlwaysDeliver(ta: u16, ra: nat, sa: nat, ia: u32, tb: u16, rb: nat, sb: nat, ib: u32, es: seq<PairEvent>)
    returns (q: Pair)
    requires PairRun(FreshPair(ta, ra, sa, ia, tb, rb, sb, ib), es).Some? && ra > 0 && rb > 0
    requires var p := PairRun(FreshPair(ta, ra, sa, ia, tb, rb, sb, ib), es).value;
             BothShort(p) && NoError(p)
    ensures var p := PairRun(FreshPair(ta, ra, sa, ia, tb, rb, sb, ib), es).value;
            Reaches(p, q) && NoError(q) && AllDelivered(p, q)
  {
    ReachableReady(ta, ra, sa, ia, tb, rb, sb, ib, es);
    q := ConvergeBoth(PairRun(FreshPair(ta, ra, sa, ia, tb, rb, sb, ib), es).value);
    ArrivedMeaning(q);
    ArrivedMeaning(Swapped(q));
  }
}
