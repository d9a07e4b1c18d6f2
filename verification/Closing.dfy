/**
 When two endpoints can still close cleanly. An endpoint whose acknowledgments have
 passed the wrap of the raw numbers keeps resending although all is acknowledged;
 if that has brought it to its last timeout while it lingers, it may have to reset.
 */
module Closing {
  import opened Words
  import opened WrappingIntegers
  import opened ByteStreams
  import opened Stores
  import opened Segments
  import opened Receivers
  import opened Senders
  import opened Segmentation
  import opened SenderProofs
  import opened SenderRuns
  import opened SenderTheorems
  import opened TcpStates
  import opened Links
  import opened Connections
  import opened ConnectionProofs
  import opened ConnectionTheorems
  import opened Sides
  import opened Pairs
  import opened Upkeep
  import opened Progress

  // ---------------------------------------------------------------- the condition

  /** All sent is acknowledged, something is queued all the same, and the next counted timeout resets. */
  predicate Fragile(c: Connection) {
    && c.active && SummaryOfSender(c.sender) == FIN_ACKED && c.sender.outstanding != []
    && c.sender.retransmissions == MAX_RETX_ATTEMPTS && c.linger && c.rtTimeout > 0
  }

  function LingerTime(c: Connection): nat {
    10 * c.rtTimeout
  }

  /** Safe whatever else is delivered: a timeout will not count, or comes after the linger time. */
  ghost predicate Fine(c: Connection, wire: set<TCPSegment>) {
    Fragile(c) ==> HasZero(wire) || c.sender.timer.remaining > LingerTime(c)
  }

  /** Able to announce a closed window, after which the peer counts no timeouts. */
  predicate Full(c: Connection) {
    c.active && WindowSize(c.receiver) == 0
  }

  /** The linger time ends before the timer, if nothing more is heard. */
  predicate HasTime(c: Connection) {
    var waited := if SummaryOfReceiver(c.receiver) == FIN_RECV then c.sinceReceived else 0;
    c.sender.timer.remaining > 0 && waited + c.sender.timer.remaining > LingerTime(c)
  }

  /** Each endpoint is safe or can be told to stop counting; or each is safe or has time. */
  ghost predicate Closable(p: Pair) {
    || ((Fine(p.a, p.fromB) || Full(p.b)) && (Fine(p.b, p.fromA) || Full(p.a)))
    || ((Fine(p.a, p.fromB) || HasTime(p.a)) && (Fine(p.b, p.fromA) || HasTime(p.b)))
  }

  predicate BothClosed(p: Pair) {
    !p.a.active && !p.b.active && NoError(p)
  }

  // ---------------------------------------------------------------- a finished sender

  lemma FillDone(s: Sender)
    requires SenderOk(s) && Countable(s) && SummaryOfSender(s) == FIN_ACKED
    ensures AfterFill(s) == s
  {
    InFlightIs(s);
    FinAckedIff(s);
    FillExtends(s);
    FillTarget(s);
    LaidLength(New(s, AfterFill(s)), s.isn, s.nextSeqno, s.nextSeqno, s.stream.written, s.stream.ended);
  }

  lemma AckDone(s: Sender, ackno: u32, win: u16)
    requires SenderOk(s) && Countable(s) && SummaryOfSender(s) == FIN_ACKED
    requires Unwrap(ackno, s.isn, s.lastAckno) <= s.nextSeqno
    ensures AfterAck(s, ackno, win) == s.(lastWin := win)
  {
    InFlightIs(s);
    FinAckedIff(s);
    SummaryDepends(s, s.(lastWin := win));
    FillDone(s.(lastWin := win));
  }

  /** A segment leaves a finished sender as it was but for the window. */
  lemma DoneHears(c: Connection, seg: TCPSegment)
    requires ConnOk(c) && Countable(c.sender) && c.active && SummaryOfSender(c.sender) == FIN_ACKED && !seg.header.rst
    requires seg.header.ack ==> Unwrap(seg.header.ackno, c.sender.isn, c.sender.lastAckno) <= c.sender.nextSeqno
    ensures TakenIn(c, seg).sender == if seg.header.ack then c.sender.(lastWin := seg.header.win) else c.sender
  {
    if seg.header.ack {
      AckDone(c.sender, seg.header.ackno, seg.header.win);
    }
  }

  /** An acknowledgment from the peer is never beyond what was sent. */
  lemma AckWithin(p: Pair, w: TCPSegment)
    requires Ready(p) && w in p.fromB && w.header.ack
    ensures Unwrap(w.header.ackno, p.a.sender.isn, p.a.sender.lastAckno) <= p.a.sender.nextSeqno
  {
    assert From(w, p.b.sender, p.b.receiver, p.a.sender);
    ReadyLinked(p);
    AckRead(p.a.sender, p.b.receiver, w.header.ackno);
  }

  /** Finished both ways. */
  predicate Done(c: Connection) {
    SummaryOfSender(c.sender) == FIN_ACKED && SummaryOfReceiver(c.receiver) == FIN_RECV
  }

  // ---------------------------------------------------------------- closing one endpoint

  /** A tick that does not give up closes an endpoint that has waited long enough. */
  lemma TickCloses(c: Connection, ms: nat)
    requires ConnOk(c) && c.active && Done(c) && !GivesUp(c, ms)
    requires !c.linger || c.sinceReceived + ms >= LingerTime(c)
    ensures var t := AfterConnTick(c, ms);
            !t.active && t.sender.stream == c.sender.stream && t.receiver == c.receiver
  {
    TickCounts(c, ms);
    TickedSender(c, ms);
    OtherTicks(c, ms);
    SummaryDepends(c.sender, AfterTick(c.sender, ms).(segmentsOut := []));
  }

  /** An endpoint that need not linger is closed by the next segment. */
  lemma SegmentCloses(c: Connection, seg: TCPSegment)
    requires ConnOk(c) && Countable(c.sender) && c.active && Done(c) && !seg.header.rst
    requires seg.header.ack ==> Unwrap(seg.header.ackno, c.sender.isn, c.sender.lastAckno) <= c.sender.nextSeqno
    requires !c.linger || c.rtTimeout == 0
    ensures !AfterConnSegment(c, seg).active
  {
    DoneHears(c, seg);
    SummaryDepends(c.sender, TakenIn(c, seg).sender);
    ReceiverForward(c.receiver, seg);
    DoneAfter(c, seg);
  }

  /** What taking in a segment amounts to once both halves are finished. */
  lemma DoneAfter(c: Connection, seg: TCPSegment)
    requires ConnOk(c) && c.active && Done(c) && !seg.header.rst
    requires SummaryOfSender(TakenIn(c, seg).sender) == FIN_ACKED
    ensures AfterConnSegment(c, seg) == CleanShutdown(TakenIn(c, seg))
    ensures Done(TakenIn(c, seg)) && TakenIn(c, seg).active
    ensures TakenIn(c, seg).linger == c.linger && TakenIn(c, seg).sinceReceived == 0
  {
    ReceiverForward(c.receiver, seg);
  }

  /** From `p` to `q` with the second endpoint and what it sent untouched, nothing written and nobody in error. */
  ghost predicate FirstMoves(p: Pair, q: Pair) {
    && Reaches(p, q) && Ready(q) && q.b == p.b && q.fromB == p.fromB && p.fromA <= q.fromA
    && q.a.sender.stream.written == p.a.sender.stream.written
    && (p.a.sender.stream.ended ==> q.a.sender.stream.ended)
  }

  lemma FirstMovesThen(p: Pair, m: Pair, q: Pair)
    requires FirstMoves(p, m) && FirstMoves(m, q)
    ensures FirstMoves(p, q)
  {
    ReachesThen(p, m, q);
  }

  /** A call at the first endpoint that does not end in error. */
  lemma StepReady(p: Pair, e: ConnEvent, t: Connection) returns (q: Pair)
    requires Ready(p) && PossibleAtA(p, e) && t == ConnNext(p.a, e) && Short(t.sender) && !t.sender.stream.error
    ensures q == StepA(p, e) && Reaches(p, q) && Ready(q)
    ensures q.a == t.(segmentsOut := []) && q.b == p.b && q.fromB == p.fromB && p.fromA <= q.fromA
  {
    q := StepA(p, e);
    StepAKeen(p, e);
    StepKeepsRoom(p.a, e);
    ReachesSelf(p);
    ReachesStep(p, p, AtA(e));
  }

  lemma TickCloseA(p: Pair, ms: nat) returns (q: Pair)
    requires Ready(p) && p.a.active && Done(p.a) && !GivesUp(p.a, ms)
    requires !p.a.linger || p.a.sinceReceived + ms >= LingerTime(p.a)
    ensures FirstMoves(p, q) && !q.a.active
  {
    var t := ConnNext(p.a, Ticks(ms));
    TickCloses(p.a, ms);
    q := StepReady(p, Ticks(ms), t);
  }

  /** A segment taken in by an endpoint that is finished both ways. */
  lemma DoneStep(c: Connection, w: TCPSegment, t: Connection)
    requires ConnOk(c) && Countable(c.sender) && c.active && Done(c) && !w.header.rst
    requires w.header.ack ==> Unwrap(w.header.ackno, c.sender.isn, c.sender.lastAckno) <= c.sender.nextSeqno
    requires t == ConnNext(c, Segment(w))
    ensures Done(t) && t.sender == if w.header.ack then c.sender.(lastWin := w.header.win) else c.sender
    ensures t.active ==> t.linger == c.linger && t.sinceReceived == 0
    ensures !c.linger || c.rtTimeout == 0 ==> !t.active
    ensures c.linger && c.rtTimeout > 0 ==> t.active
  {
    DoneHears(c, w);
    SummaryDepends(c.sender, TakenIn(c, w).sender);
    DoneAfter(c, w);
    StepKeepsTimeout(c, Segment(w));
    if !c.linger || c.rtTimeout == 0 {
      SegmentCloses(c, w);
    }
  }

  lemma DeliverDone(p: Pair, w: TCPSegment) returns (q: Pair)
    requires Ready(p) && p.a.active && Done(p.a) && w in p.fromB && !w.header.rst
    ensures FirstMoves(p, q) && Done(q.a) && (w.header.ack ==> q.a.sender.lastWin == w.header.win)
    ensures !p.a.linger || p.a.rtTimeout == 0 ==> !q.a.active
  {
    if w.header.ack {
      AckWithin(p, w);
    }
    var t := ConnNext(p.a, Segment(w));
    DoneStep(p.a, w, t);
    q := StepAForth(p, Segment(w), t);
  }

  /** A zero window heard, the next timeout does not count. */
  lemma CloseByZero(p: Pair) returns (q: Pair)
    requires Ready(p) && p.a.active && Done(p.a) && HasZero(p.fromB)
    ensures FirstMoves(p, q) && !q.a.active
  {
    var w :| w in p.fromB && ZeroAck(w);
    var m := DeliverDone(p, w);
    q := m;
    if m.a.active {
      q := TickCloseA(m, LingerTime(m.a));
      FirstMovesThen(p, m, q);
    }
  }

  lemma CloseByHearing(p: Pair) returns (q: Pair)
    requires Ready(p) && p.a.active && Done(p.a) && (!p.a.linger || p.a.rtTimeout == 0)
    ensures FirstMoves(p, q) && !q.a.active
  {
    FinAckedIff(p.a.sender);
    ReadyLinked(p);
    var w := FindAck(p);
    q := DeliverDone(p, w);
  }

  /** A finished endpoint that is safe can be closed without error. */
  lemma CloseA(p: Pair) returns (q: Pair)
    requires Ready(p) && Done(p.a) && Fine(p.a, p.fromB)
    ensures FirstMoves(p, q) && !q.a.active
  {
    if !p.a.active {
      q := p;
      ReachesSelf(p);
    } else if !GivesUp(p.a, LingerTime(p.a)) {
      q := TickCloseA(p, LingerTime(p.a));
    } else if !p.a.linger || p.a.rtTimeout == 0 {
      q := CloseByHearing(p);
    } else {
      q := CloseByZero(p);
    }
  }

  /** One that has time can be closed at once. */
  lemma CloseInTime(p: Pair) returns (q: Pair)
    requires Ready(p) && !Fine(p.a, p.fromB) && HasTime(p.a)
    ensures FirstMoves(p, q) && !q.a.active
  {
    var c := p.a;
    var ms := if c.sinceReceived >= LingerTime(c) then 0 else LingerTime(c) - c.sinceReceived;
    q := TickCloseA(p, ms);
  }

  // ---------------------------------------------------------------- making both safe

  /** What is safe stays so while no time passes. */
  lemma FineForth(p: Pair, q: Pair)
    requires Ready(p) && Forth(p, q) && Fine(p.a, p.fromB)
    ensures Fine(q.a, q.fromB)
  {
    if Fragile(q.a) {
      FragileBefore(p.a, q.a);
      if HasZero(p.fromB) {
        var w :| w in p.fromB && ZeroAck(w);
        assert w in q.fromB;
      }
    }
  }

  lemma FragileBefore(c: Connection, t: Connection)
    requires ConnOk(c) && ConnOk(t) && Countable(c.sender) && Countable(t.sender) && Onwards(c, t) && Fragile(t)
    ensures Fragile(c) && t.sender.timer == c.sender.timer && LingerTime(t) == LingerTime(c)
  {
    FinAckedIff(t.sender);
    FinAckedIff(c.sender);
    QueueEmptyIff(t.sender);
    QueueEmptyIff(c.sender);
    InFlightIs(c.sender);
    InFlightIs(t.sender);
  }

  /** The application ends its stream. */
  lemma EndA(p: Pair) returns (q: Pair)
    requires Ready(p) && !p.a.sender.stream.ended
    ensures FirstMoves(p, q) && q.a.sender.stream.ended && Fine(q.a, q.fromB)
  {
    var s := AfterAppEnd(p.a.sender);
    var t := ConnNext(p.a, AppEnds);
    StreamOk(p.a.sender, AfterEnd(p.a.sender.stream));
    FillExtends(s);
    q := StepReady(p, AppEnds, t);
    FinAckedIff(q.a.sender);
  }

  /** The peer is made to say that its window is closed. */
  lemma Announces(d: Connection, w: TCPSegment, t: Connection) returns (seg: TCPSegment)
    requires PlainSender(d.sender) && d.active && d.segmentsOut == []
    requires !w.header.rst && SequenceLength(w) > 0 && d.receiver.syn && t == ConnNext(d, Segment(w))
    requires WindowSize(t.receiver) == 0
    ensures seg in t.segmentsOut && ZeroAck(seg)
  {
    var m := TakenIn(d, w);
    SegmentIs(d, w);
    assert m.segmentsOut == t.segmentsOut && m.receiver == t.receiver;
    TakenInGrows(d, w);
    HeardSyn(d.receiver, w);
    seg := Says(d, w, m);
  }

  lemma HeardSyn(r: Receiver, seg: TCPSegment)
    ensures r.syn ==> AfterSegment(r, seg).syn
  {
  }

  lemma Says(d: Connection, w: TCPSegment, m: Connection) returns (seg: TCPSegment)
    requires PlainSender(d.sender) && d.segmentsOut == [] && m == TakenIn(d, w)
    requires SequenceLength(w) > 0 && AfterSegment(d.receiver, w).syn && WindowSize(m.receiver) == 0
    ensures seg in m.segmentsOut && ZeroAck(seg)
  {
    TakenInSpeaks(d, w);
    TakenInPlain(d, w);
    seg := m.segmentsOut[0];
    assert CarriesAck(m.receiver, seg);
  }

  /** A receiver that has the whole ended stream stays as full as it is. */
  lemma StaysFull(s: Sender, r: Receiver, t: Receiver)
    requires Linked(s, r) && Linked(s, t) && Short(s) && SummaryOfSender(s) == FIN_ACKED
    requires r.store.out.written <= t.store.out.written
    requires t.store.out.read == r.store.out.read && t.store.out.capacity == r.store.out.capacity
    ensures WindowSize(t) == WindowSize(r)
  {
    LinkedMeaning(s, r);
    LinkedMeaning(s, t);
  }

  lemma TellA(p: Pair) returns (q: Pair)
    requires Ready(p) && Fragile(p.a) && Full(p.b)
    ensures Forth(p, q) && q.a == p.a && HasZero(q.fromB)
  {
    var w := OutstandingOnWire(p, 0);
    var t := ConnNext(p.b, Segment(w));
    q := StepBForth(p, Segment(w), t);
    HeardIs(p.b, w);
    ReadyLinked(p);
    ReadyLinked(q);
    FinAckedIff(p.a.sender);
    HeardKeeps(p.b.receiver, w);
    StaysFull(p.a.sender, p.b.receiver, t.receiver);
    HeadOccupies(p.a.sender);
    var seg := Announces(p.b, w, t);
  }

  lemma HeadOccupies(s: Sender)
    requires QueueOk(s) && s.outstanding != []
    ensures SequenceLength(s.outstanding[0]) > 0
  {
  }

  lemma HeardKeeps(r: Receiver, seg: TCPSegment)
    ensures var t := AfterSegment(r, seg);
            && r.store.out.written <= t.store.out.written && (r.store.out.ended ==> t.store.out.ended)
            && t.store.out.read == r.store.out.read && t.store.out.capacity == r.store.out.capacity
  {
    PushForward(r.store, seg.payload, StreamIndex(r, seg), seg.header.fin);
    PushForward(r.store, seg.payload, 0, seg.header.fin);
  }

  // ---------------------------------------------------------------- closing both

  /** Both streams ended and everything acknowledged. */
  lemma DoneMeaning(p: Pair)
    requires Ready(p) && AllArrived(p) && AllArrived(Swapped(p))
    requires p.a.sender.stream.ended && p.b.sender.stream.ended
    ensures Done(p.a)
  {
    ArrivedMeaning(Swapped(p));
    FinAckedIff(p.a.sender);
  }

  lemma EndIfNeeded(p: Pair) returns (q: Pair)
    requires Ready(p) && Fine(p.a, p.fromB) && Fine(p.b, p.fromA)
    ensures FirstMoves(p, q) && q.a.sender.stream.ended && Fine(q.a, q.fromB) && Fine(q.b, q.fromA)
  {
    if p.a.sender.stream.ended {
      q := p;
      ReachesSelf(p);
    } else {
      q := EndA(p);
      FineGrows(p.b, p.fromA, q.fromA);
    }
  }

  lemma FineGrows(c: Connection, wire: set<TCPSegment>, more: set<TCPSegment>)
    requires Fine(c, wire) && wire <= more
    ensures Fine(c, more)
  {
    if HasZero(wire) {
      var w :| w in wire && ZeroAck(w);
      assert w in more;
    }
  }

  /** Nothing written from `p` to `q`, and no error. */
  ghost predicate Moves(p: Pair, q: Pair) {
    && Reaches(p, q) && Ready(q)
    && q.a.sender.stream.written == p.a.sender.stream.written
    && q.b.sender.stream.written == p.b.sender.stream.written
  }

  lemma MovesThen(p: Pair, m: Pair, q: Pair)
    requires Moves(p, m) && Moves(m, q)
    ensures Moves(p, q)
  {
    ReachesThen(p, m, q);
  }

  /** The other endpoint's turn. */
  lemma SwappedMoves(p: Pair, t: Pair)
    requires Moves(Swapped(p), t)
    ensures Moves(p, Swapped(t))
  {
    SwappedReaches(Swapped(p), t);
  }

  lemma EndBoth(p: Pair) returns (q: Pair)
    requires Ready(p) && Fine(p.a, p.fromB) && Fine(p.b, p.fromA)
    ensures Moves(p, q) && Fine(q.a, q.fromB) && Fine(q.b, q.fromA)
    ensures q.a.sender.stream.ended && q.b.sender.stream.ended
  {
    var m := EndIfNeeded(p);
    var t := EndIfNeeded(Swapped(m));
    q := Swapped(t);
    SwappedMoves(m, t);
    MovesThen(p, m, q);
  }

  lemma CloseBoth(p: Pair) returns (q: Pair)
    requires Ready(p) && Done(p.a) && Done(p.b) && Fine(p.a, p.fromB) && Fine(p.b, p.fromA)
    ensures Moves(p, q) && BothClosed(q)
  {
    var m := CloseA(p);
    FineGrows(p.b, p.fromA, m.fromA);
    var t := CloseA(Swapped(m));
    q := Swapped(t);
    SwappedMoves(m, t);
    MovesThen(p, m, q);
  }

  /** Two endpoints that are safe can end their streams, deliver everything and close. */
  lemma FineCloses(p: Pair) returns (q: Pair)
    requires Ready(p) && Fine(p.a, p.fromB) && Fine(p.b, p.fromA)
    ensures Moves(p, q) && BothClosed(q)
  {
    var m := EndBoth(p);
    var n := DeliverBoth(m);
    q := CloseBoth(n);
    MovesThen(m, n, q);
    MovesThen(p, m, q);
  }

  lemma DeliverBoth(p: Pair) returns (q: Pair)
    requires Ready(p) && Fine(p.a, p.fromB) && Fine(p.b, p.fromA)
    requires p.a.sender.stream.ended && p.b.sender.stream.ended
    ensures Moves(p, q) && Done(q.a) && Done(q.b) && Fine(q.a, q.fromB) && Fine(q.b, q.fromA)
  {
    q := ConvergeBoth(p);
    FineForth(p, q);
    FineForthSecond(p, q);
    DoneMeaning(q);
    DoneMeaning(Swapped(q));
  }

  lemma FineForthSecond(p: Pair, q: Pair)
    requires Ready(p) && Forth(p, q) && Fine(p.b, p.fromA)
    ensures Fine(q.b, q.fromA)
  {
    SwappedForth(p, q);
    FineForth(Swapped(p), Swapped(q));
  }

  /** What can be told is told. */
  lemma Tell(p: Pair) returns (q: Pair)
    requires Ready(p) && (Fine(p.a, p.fromB) || Full(p.b))
    ensures Moves(p, q) && Fine(q.a, q.fromB) && q.a == p.a
    ensures Fine(p.b, p.fromA) ==> Fine(q.b, q.fromA)
  {
    if Fine(p.a, p.fromB) {
      q := p;
      ReachesSelf(p);
    } else {
      q := TellA(p);
      if Fine(p.b, p.fromA) {
        FineForthSecond(p, q);
      }
    }
  }

  lemma TellBoth(p: Pair) returns (q: Pair)
    requires Ready(p) && (Fine(p.a, p.fromB) || Full(p.b)) && (Fine(p.b, p.fromA) || Full(p.a))
    ensures Moves(p, q) && Fine(q.a, q.fromB) && Fine(q.b, q.fromA)
  {
    var m := Tell(p);
    q := m;
    if !Fine(m.b, m.fromA) {
      var t := Tell(Swapped(m));
      q := Swapped(t);
      SwappedMoves(m, t);
      MovesThen(p, m, q);
    }
  }

  /** What has time is closed in time. */
  lemma InTime(p: Pair) returns (q: Pair)
    requires Ready(p) && (Fine(p.a, p.fromB) || HasTime(p.a))
    ensures Moves(p, q) && Fine(q.a, q.fromB) && q.b == p.b
    ensures Fine(p.b, p.fromA) ==> Fine(q.b, q.fromA)
  {
    if Fine(p.a, p.fromB) {
      q := p;
      ReachesSelf(p);
    } else {
      q := CloseInTime(p);
      if Fine(p.b, p.fromA) {
        FineGrows(p.b, p.fromA, q.fromA);
      }
    }
  }

  lemma BothInTime(p: Pair) returns (q: Pair)
    requires Ready(p) && (Fine(p.a, p.fromB) || HasTime(p.a)) && (Fine(p.b, p.fromA) || HasTime(p.b))
    ensures Moves(p, q) && Fine(q.a, q.fromB) && Fine(q.b, q.fromA)
  {
    var m := InTime(p);
    q := m;
    if !Fine(m.b, m.fromA) {
      var t := InTime(Swapped(m));
      q := Swapped(t);
      SwappedMoves(m, t);
      MovesThen(p, m, q);
    }
  }

  lemma Closes(p: Pair) returns (q: Pair)
    requires Ready(p) && Closable(p)
    ensures Moves(p, q) && BothClosed(q)
  {
    var m;
    if (Fine(p.a, p.fromB) || Full(p.b)) && (Fine(p.b, p.fromA) || Full(p.a)) {
      m := TellBoth(p);
    } else {
      m := BothInTime(p);
    }
    q := FineCloses(m);
    MovesThen(p, m, q);
  }
}
