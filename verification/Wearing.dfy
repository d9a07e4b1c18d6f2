/**
 A run after which clean close is out of reach. Past the wrap of the raw numbers a
 finished endpoint keeps counting timeouts; late duplicates keep it from closing
 until only one is left.
 */
module Wearing {
  import opened Words
  import opened WrappingIntegers
  import opened ByteStreams
  import opened Stores
  import opened Segments
  import opened Receivers
  import opened Timers
  import opened Senders
  import opened TcpStates
  import opened Connections
  import opened ConnectionProofs
  import opened ConnectionTheorems
  import opened Sides
  import opened Pairs
  import opened Upkeep
  import opened Progress
  import opened Closing
  import opened CloseTheorems

  // ---------------------------------------------------------------- wearing an endpoint down

  /** Finished and lingering, with its queue stuck. */
  predicate Lingers(c: Connection) {
    && c.active && Done(c) && c.linger && c.rtTimeout > 0 && c.sender.outstanding != []
    && c.sender.retransmissions <= MAX_RETX_ATTEMPTS
  }

  /** The first endpoint is so, and will never hear of a closed window. */
  ghost predicate Exposed(p: Pair) {
    Ready(p) && Lingers(p.a) && !HasZero(p.fromB) && !Full(p.b)
  }

  /** A late duplicate: the linger time starts again, the timer does not. */
  lemma HearAgain(p: Pair) returns (q: Pair)
    requires Exposed(p)
    ensures Reaches(p, q) && Exposed(q) && q.a.sinceReceived == 0 && q.a.rtTimeout == p.a.rtTimeout
    ensures q.a.sender.timer == p.a.sender.timer && q.a.sender.retransmissions == p.a.sender.retransmissions
  {
    FinAckedIff(p.a.sender);
    ReadyLinked(p);
    var w := FindAck(p);
    AckWithin(p, w);
    var t := ConnNext(p.a, Segment(w));
    DoneStep(p.a, w, t);
    q := StepAForth(p, Segment(w), t);
  }

  /** A tick short of the linger time. */
  lemma ShortTick(c: Connection, ms: nat, t: Connection)
    requires ConnOk(c) && Lingers(c) && c.sinceReceived == 0 && ms < LingerTime(c) && c.sender.lastWin > 0
    requires ms <= c.sender.timer.remaining && !GivesUp(c, ms) && t == AfterConnTick(c, ms)
    ensures Lingers(t) && t.rtTimeout == c.rtTimeout && t.sender.stream == c.sender.stream
    ensures if ms == c.sender.timer.remaining then t.sender.retransmissions == c.sender.retransmissions + 1
            else
              && t.sender.retransmissions == c.sender.retransmissions
              && t.sender.timer.remaining == c.sender.timer.remaining - ms
  {
    TickCounts(c, ms);
    TickedSender(c, ms);
    OtherTicks(c, ms);
    SummaryDepends(c.sender, t.sender);
  }

  lemma PassTime(p: Pair, ms: nat) returns (q: Pair)
    requires Exposed(p) && p.a.sinceReceived == 0 && ms < LingerTime(p.a)
    requires ms <= p.a.sender.timer.remaining
    requires p.a.sender.retransmissions == MAX_RETX_ATTEMPTS ==> ms < p.a.sender.timer.remaining
    ensures Reaches(p, q) && Exposed(q) && q.a.rtTimeout == p.a.rtTimeout
    ensures if ms == p.a.sender.timer.remaining
            then q.a.sender.retransmissions == p.a.sender.retransmissions + 1
            else
              && q.a.sender.retransmissions == p.a.sender.retransmissions
              && q.a.sender.timer.remaining == p.a.sender.timer.remaining - ms
  {
    var t := ConnNext(p.a, Ticks(ms));
    ShortTick(p.a, ms, t);
    q := StepReady(p, Ticks(ms), t);
  }

  lemma WornOut(p: Pair)
    requires Exposed(p) && p.a.sinceReceived == 0 && p.a.sender.retransmissions == MAX_RETX_ATTEMPTS
    requires p.a.sender.timer.remaining <= LingerTime(p.a)
    ensures !Closable(p)
  {
  }

  /** An exposed endpoint can be brought to where no way to go on closes it cleanly. */
  lemma {:induction false} WearDown(p: Pair) returns (q: Pair)
    requires Exposed(p)
    ensures Reaches(p, q) && Ready(q) && !Closable(q)
    decreases MAX_RETX_ATTEMPTS - p.a.sender.retransmissions, p.a.sender.timer.remaining
  {
    var m := HearAgain(p);
    var left := m.a.sender.timer.remaining;
    if m.a.sender.retransmissions == MAX_RETX_ATTEMPTS && left <= LingerTime(m.a) {
      q := m;
      WornOut(m);
    } else {
      var n := PassTime(m, Min(left, LingerTime(m.a) - 1));
      ReachesThen(p, m, n);
      q := WearDown(n);
      ReachesThen(p, n, q);
    }
  }

  // ---------------------------------------------------------------- a run that exposes one

  const LAST: u32 := TWO32 - 1

  /** A sender of the empty stream with timeout 1. */
  function Snd(isn: u32, ended: bool, next: nat, last: nat, queue: seq<TCPSegment>, out: seq<TCPSegment>): Sender {
    Sender(isn, out, 1, StreamData([], 0, 1, ended, false), next, 1, 0, last, 1,
           if queue == [] then Stopped() else Started(1), queue)
  }

  /** A receiver of the empty stream with room for one byte. */
  function Rcv(isn: u32, syn: bool, ended: bool): Receiver {
    Receiver(Store(StreamData([], 0, 1, ended, false), map[], ended, 0), syn, isn)
  }

  function End(s: Sender, r: Receiver, linger: bool): Connection {
    Connection(1, r, s, [], linger, true, 0)
  }

  function SynOf(isn: u32): TCPSegment {
    TCPSegment(BlankHeader().(seqno := isn, syn := true), [])
  }

  function Bare(seqno: u32): TCPSegment {
    TCPSegment(BlankHeader().(seqno := seqno), [])
  }

  function FinOf(seqno: u32): TCPSegment {
    TCPSegment(BlankHeader().(seqno := seqno, fin := true), [])
  }

  function WithAck(seg: TCPSegment, ackno: u32): TCPSegment {
    seg.(header := seg.header.(ack := true, ackno := ackno, win := 1))
  }

  lemma SendSyn(isn: u32)
    ensures AfterFill(Snd(isn, false, 0, 0, [], [])) == Snd(isn, false, 1, 0, [SynOf(isn)], [SynOf(isn)])
  {
  }

  /** Nothing to send: the stream is empty and open. */
  lemma FillsNothing(s: Sender)
    requires s.stream == StreamData([], 0, 1, false, false) && s.nextSeqno == s.lastAckno == 1
    ensures AfterFill(s) == s
  {
  }

  lemma FirstSynAcked()
    ensures AfterAck(Snd(LAST, false, 1, 0, [SynOf(LAST)], []), 0, 1) == Snd(LAST, false, 1, 1, [SynOf(LAST)], [])
  {
    assert Unwrap(0, LAST, 0) == 1;
    FillsNothing(Snd(LAST, false, 1, 1, [SynOf(LAST)], []));
  }

  lemma SecondSynAcked()
    ensures AfterAck(Snd(0, false, 1, 0, [SynOf(0)], []), 1, 1) == Snd(0, false, 1, 1, [], [])
  {
    assert Unwrap(1, 0, 0) == 1;
    assert PopAcked([SynOf(0)], 1) == [];
    FillsNothing(Snd(0, false, 1, 1, [], []));
  }

  lemma SendFin(isn: u32, queue: seq<TCPSegment>, fin: TCPSegment)
    requires fin == FinOf(Wrap(1, isn))
    ensures AfterFill(Snd(isn, true, 1, 1, queue, [])) == Snd(isn, true, 2, 1, queue + [fin], [fin])
  {
    var s := Snd(isn, true, 1, 1, queue, []);
    assert InFlight(s) == 0 && RemainingWindow(s) == 1;
  }

  lemma FirstFinAcked()
    ensures var queue := [SynOf(LAST), FinOf(0)];
            AfterAck(Snd(LAST, true, 2, 1, queue, []), 1, 1) == Snd(LAST, true, 2, 2, queue, [])
  {
    var t := Snd(LAST, true, 2, 2, [SynOf(LAST), FinOf(0)], []);
    assert Unwrap(1, LAST, 1) == 2;
    assert InFlight(t) == 0 && RemainingWindow(t) == 1;
  }

  lemma HearSyn(isn: u32, seg: TCPSegment)
    requires seg.payload == [] && seg.header.syn && !seg.header.fin && seg.header.seqno == isn
    ensures AfterSegment(Rcv(0, false, false), seg) == Rcv(isn, true, false)
  {
    PushNothing(EmptyStore(1), [], 0);
  }

  lemma HearFin(isn: u32, seg: TCPSegment)
    requires seg.payload == [] && seg.header.fin && seg.header.seqno == Wrap(1, isn)
    ensures AfterSegment(Rcv(isn, true, false), seg) == Rcv(isn, true, true)
  {
    var r := Rcv(isn, true, false);
    UnwrapOfWrapSmall(1, isn, 0);
    assert StreamIndex(r, seg) == 0;
    var all := r.store.held + Accepted(r.store, [], 0);
    assert all == map[];
    assert Run(all, 0, 1) == [];
    assert Beyond(all, 0) == map[];
  }

  lemma AckOf(isn: u32, ended: bool, seg: TCPSegment)
    requires !seg.header.ack
    ensures Stamped(Rcv(isn, true, ended), seg) == WithAck(seg, Wrap(if ended then 2 else 1, isn))
    ensures StampedAll(Rcv(isn, true, ended), [seg]) == [WithAck(seg, Wrap(if ended then 2 else 1, isn))]
  {
    assert [seg][1..] == [];
  }

  /** Sends `x` and becomes `t`. */
  predicate Sends(c: Connection, e: ConnEvent, t: Connection, x: TCPSegment) {
    t.segmentsOut == [] && ConnNext(c, e) == t.(segmentsOut := [x])
  }

  const A1 := End(Snd(LAST, false, 1, 0, [SynOf(LAST)], []), Rcv(0, false, false), true)
  const A2 := End(Snd(LAST, false, 1, 1, [SynOf(LAST)], []), Rcv(0, true, false), true)
  const A3 := End(Snd(LAST, true, 2, 1, [SynOf(LAST), FinOf(0)], []), Rcv(0, true, false), true)
  const A4 := End(Snd(LAST, true, 2, 2, [SynOf(LAST), FinOf(0)], []), Rcv(0, true, true), true)
  const B1 := End(Snd(0, false, 1, 0, [SynOf(0)], []), Rcv(LAST, true, false), true)
  const B2 := End(Snd(0, false, 1, 1, [], []), Rcv(LAST, true, true), false)
  const B3 := End(Snd(0, true, 2, 1, [FinOf(1)], []), Rcv(LAST, true, true), false)

  lemma FirstConnects()
    ensures Sends(FreshConnection(1, 1, 1, LAST), Connects, A1, SynOf(LAST))
  {
    SendSyn(LAST);
    assert [SynOf(LAST)][1..] == [];
    assert StampedAll(Rcv(0, false, false), [SynOf(LAST)]) == [SynOf(LAST)];
  }

  lemma SecondHearsSyn()
    ensures Sends(FreshConnection(1, 1, 1, 0), Segment(SynOf(LAST)), B1, WithAck(SynOf(0), 0))
  {
    HearSyn(LAST, SynOf(LAST));
    SendSyn(0);
    AckOf(LAST, false, SynOf(0));
  }

  /** Taking in a segment with an acknowledgment that is answered by a bare one. */
  lemma Answers(c: Connection, w: TCPSegment, s: Sender, r: Receiver, x: TCPSegment)
    requires c.active && !w.header.rst && w.header.ack && SequenceLength(w) > 0 && c.segmentsOut == []
    requires r == AfterSegment(c.receiver, w) && SummaryOfSender(c.sender) != CLOSED
    requires s == AfterAck(c.sender, w.header.ackno, w.header.win) && s.segmentsOut == []
    requires x == Stamped(r, Numbered(s, DataSegment([], false)))
    ensures ConnNext(c, Segment(w))
         == CleanShutdown(c.(sender := s, receiver := r, sinceReceived := 0, segmentsOut := [x]))
  {
    var q := [Numbered(s, DataSegment([], false))];
    assert q[1..] == [];
    assert StampedAll(r, q) == [x];
    var h := Heard(c, w);
    assert Replied(s, w) == s.(segmentsOut := q);
    assert KeptAlive(Replied(s, w), r, w) == s.(segmentsOut := q);
    assert Answered(h, w) == h.(sender := s.(segmentsOut := q));
    assert s.(segmentsOut := []) == s;
    assert Flushed(Answered(h, w)) == c.(sender := s, receiver := r, sinceReceived := 0, segmentsOut := [x]);
  }

  /** The endpoint with sender `s` and receiver `r` hears `w`, becomes `t` and sends `x`. */
  predicate HearsTo(s: Sender, r: Receiver, w: TCPSegment, t: Connection, x: TCPSegment) {
    && !w.header.rst && w.header.ack && SequenceLength(w) > 0 && SummaryOfSender(s) != CLOSED
    && AfterSegment(r, w) == t.receiver && AfterAck(s, w.header.ackno, w.header.win) == t.sender
    && t.sender.segmentsOut == [] && t.segmentsOut == []
    && Stamped(t.receiver, Numbered(t.sender, DataSegment([], false))) == x
    && CleanShutdown(End(t.sender, t.receiver, true).(segmentsOut := [x])) == t.(segmentsOut := [x])
  }

  lemma HearsAndSends(s: Sender, r: Receiver, w: TCPSegment, t: Connection, x: TCPSegment)
    requires HearsTo(s, r, w, t, x)
    ensures Sends(End(s, r, true), Segment(w), t, x)
  {
    Answers(End(s, r, true), w, t.sender, t.receiver, x);
  }

  lemma FirstAfterFin()
    ensures AfterSegment(A3.receiver, WithAck(FinOf(1), 1)) == A4.receiver
    ensures AfterAck(A3.sender, 1, 1) == A4.sender && SummaryOfSender(A3.sender) != CLOSED
  {
    HearFin(0, WithAck(FinOf(1), 1));
    FirstFinAcked();
  }

  lemma SecondAfterFin()
    ensures AfterSegment(B1.receiver, WithAck(FinOf(0), 1)) == B2.receiver
    ensures AfterAck(B1.sender, 1, 1) == B2.sender && SummaryOfSender(B1.sender) != CLOSED
  {
    HearFin(LAST, WithAck(FinOf(0), 1));
    SecondSynAcked();
  }

  lemma FirstHearsSyn()
    ensures Sends(A1, Segment(WithAck(SynOf(0), 0)), A2, WithAck(Bare(0), 1))
  {
    HearSyn(0, WithAck(SynOf(0), 0));
    FirstSynAcked();
    AckOf(0, false, Bare(0));
    HearsAndSends(A1.sender, A1.receiver, WithAck(SynOf(0), 0), A2, WithAck(Bare(0), 1));
  }

  lemma FirstEnds()
    ensures Sends(A2, AppEnds, A3, WithAck(FinOf(0), 1))
  {
    SendFin(LAST, [SynOf(LAST)], FinOf(0));
    AckOf(0, false, FinOf(0));
    assert [SynOf(LAST)] + [FinOf(0)] == [SynOf(LAST), FinOf(0)];
  }

  lemma SecondHearsFin()
    ensures Sends(B1, Segment(WithAck(FinOf(0), 1)), B2, WithAck(Bare(1), 1))
  {
    SecondFinHeard();
    HearsAndSends(B1.sender, B1.receiver, WithAck(FinOf(0), 1), B2, WithAck(Bare(1), 1));
  }

  lemma SecondFinHeard()
    ensures HearsTo(B1.sender, B1.receiver, WithAck(FinOf(0), 1), B2, WithAck(Bare(1), 1))
  {
    SecondAfterFin();
    BareAnswer(B2.sender, LAST, 1);
    SecondStopsLingering(WithAck(Bare(1), 1));
  }

  /** A bare segment numbered 1 from an endpoint that has its peer's FIN. */
  lemma BareAnswer(s: Sender, peer: u32, ackno: u32)
    requires Wrap(s.nextSeqno, s.isn) == 1 && Wrap(2, peer) == ackno
    ensures Stamped(Rcv(peer, true, true), Numbered(s, DataSegment([], false))) == WithAck(Bare(1), ackno)
  {
    AckOf(peer, true, Bare(1));
  }

  lemma SecondStopsLingering(x: TCPSegment)
    ensures CleanShutdown(End(B2.sender, B2.receiver, true).(segmentsOut := [x])) == B2.(segmentsOut := [x])
  {
  }

  lemma SecondEnds()
    ensures Sends(B2, AppEnds, B3, WithAck(FinOf(1), 1))
  {
    SendFin(0, [], FinOf(1));
    AckOf(LAST, true, FinOf(1));
    assert [] + [FinOf(1)] == [FinOf(1)];
  }

  lemma FirstHearsFin()
    ensures Sends(A3, Segment(WithAck(FinOf(1), 1)), A4, WithAck(Bare(1), 2))
  {
    FirstFinHeard();
    HearsAndSends(A3.sender, A3.receiver, WithAck(FinOf(1), 1), A4, WithAck(Bare(1), 2));
  }

  lemma FirstFinHeard()
    ensures HearsTo(A3.sender, A3.receiver, WithAck(FinOf(1), 1), A4, WithAck(Bare(1), 2))
  {
    FirstAfterFin();
    BareAnswer(A4.sender, 0, 2);
    FirstGoesOnLingering(WithAck(Bare(1), 2));
  }

  lemma FirstGoesOnLingering(x: TCPSegment)
    ensures CleanShutdown(End(A4.sender, A4.receiver, true).(segmentsOut := [x])) == A4.(segmentsOut := [x])
  {
  }

  // ---------------------------------------------------------------- put together

  lemma GoA(f: Pair, p: Pair, e: ConnEvent, t: Connection, x: TCPSegment) returns (q: Pair)
    requires Reaches(f, p) && PossibleAtA(p, e) && Sends(p.a, e, t, x)
    ensures Reaches(f, q) && q == Pair(t, p.b, p.fromA + {x}, p.fromB)
  {
    q := StepA(p, e);
    assert ConnNext(p.a, e).segmentsOut == [x];
    assert (set seg | seg in [x]) == {x};
    ReachesStep(f, p, AtA(e));
  }

  lemma GoB(f: Pair, p: Pair, e: ConnEvent, t: Connection, x: TCPSegment) returns (q: Pair)
    requires Reaches(f, p) && PossibleAtA(Swapped(p), e) && Sends(p.b, e, t, x)
    ensures Reaches(f, q) && q == Pair(p.a, t, p.fromA, p.fromB + {x})
  {
    q := PairNext(p, AtB(e));
    assert ConnNext(p.b, e).segmentsOut == [x];
    assert (set seg | seg in [x]) == {x};
    ReachesStep(f, p, AtB(e));
  }

  lemma Handshake(f: Pair) returns (p: Pair)
    requires f == FreshPair(1, 1, 1, LAST, 1, 1, 1, 0)
    ensures Reaches(f, p) && p.a == A2 && p.b == B1 && p.fromB == {WithAck(SynOf(0), 0)}
  {
    ReachesSelf(f);
    FirstConnects();
    p := GoA(f, f, Connects, A1, SynOf(LAST));
    SecondHearsSyn();
    p := GoB(f, p, Segment(SynOf(LAST)), B1, WithAck(SynOf(0), 0));
    FirstHearsSyn();
    p := GoA(f, p, Segment(WithAck(SynOf(0), 0)), A2, WithAck(Bare(0), 1));
  }

  lemma BothEnd(f: Pair, m: Pair) returns (p: Pair)
    requires Reaches(f, m) && m.a == A2 && m.b == B1 && m.fromB == {WithAck(SynOf(0), 0)}
    ensures Reaches(f, p) && p.a == A4 && p.b == B3
    ensures p.fromB == {WithAck(SynOf(0), 0), WithAck(Bare(1), 1), WithAck(FinOf(1), 1)}
  {
    FirstEnds();
    p := GoA(f, m, AppEnds, A3, WithAck(FinOf(0), 1));
    SecondHearsFin();
    p := GoB(f, p, Segment(WithAck(FinOf(0), 1)), B2, WithAck(Bare(1), 1));
    SecondEnds();
    p := GoB(f, p, AppEnds, B3, WithAck(FinOf(1), 1));
    FirstHearsFin();
    p := GoA(f, p, Segment(WithAck(FinOf(1), 1)), A4, WithAck(Bare(1), 2));
  }

  lemma IsExposed(p: Pair)
    requires Ready(p) && p.a == A4 && p.b == B3
    requires p.fromB == {WithAck(SynOf(0), 0), WithAck(Bare(1), 1), WithAck(FinOf(1), 1)}
    ensures Exposed(p)
  {
    OpenWindows(p.fromB);
    FirstLingers();
    SecondHasRoom();
  }

  lemma OpenWindows(wire: set<TCPSegment>)
    requires wire == {WithAck(SynOf(0), 0), WithAck(Bare(1), 1), WithAck(FinOf(1), 1)}
    ensures !HasZero(wire)
  {
    assert forall w :: w in wire ==> w.header.win == 1;
  }

  lemma FirstLingers()
    ensures Lingers(A4)
  {
  }

  lemma SecondHasRoom()
    ensures !Full(B3)
  {
  }

  /**
   Clean close can be lost. Two endpoints that have ended empty streams, all of it
   delivered and acknowledged, neither in error: late duplicates bring the first to
   a state from which every way to go on leaves one of them open or resets it.
   */
  lemma CloseCanBeLost() returns (q: Pair)
    ensures Reaches(FreshPair(1, 1, 1, LAST, 1, 1, 1, 0), q) && BothShort(q) && NoError(q)
    ensures q.a.sender.stream.ended && q.b.sender.stream.ended && !CanClose(q)
  {
    var f := FreshPair(1, 1, 1, LAST, 1, 1, 1, 0);
    var m := Handshake(f);
    var p := BothEnd(f, m);
    var es :| PairRun(f, es) == Some(p);
    ReachableReady(1, 1, 1, LAST, 1, 1, 1, 0, es);
    IsExposed(p);
    q := WearDown(p);
    ClosesIff(q);
    EndedStays(p, q);
    ReachesThen(f, p, q);
  }

  lemma EndedStays(p: Pair, q: Pair)
    requires PairInv(p) && BothShort(q) && Reaches(p, q) && p.a.sender.stream.ended && p.b.sender.stream.ended
    ensures q.a.sender.stream.ended && q.b.sender.stream.ended
  {
    var es :| PairRun(p, es) == Some(q);
    RunKeepsEnd(p, es);
  }

  lemma {:induction false} RunKeepsEnd(p: Pair, es: seq<PairEvent>)
    requires PairInv(p) && PairRun(p, es).Some? && BothShort(PairRun(p, es).value)
    requires p.a.sender.stream.ended && p.b.sender.stream.ended
    ensures var q := PairRun(p, es).value;
            q.a.sender.stream.ended && q.b.sender.stream.ended
  {
    if es != [] {
      var init, last := es[..|es| - 1], es[|es| - 1];
      var m := PairRun(p, init).value;
      PairStepGrows(m, last);
      PairRunInv(p, init);
      RunKeepsEnd(p, init);
      match last {
        case AtA(call) => SideStep(m.a, call, m.b.sender, m.b.receiver);
        case AtB(call) => SideStep(m.b, call, m.a.sender, m.a.receiver);
      }
    }
  }
}
