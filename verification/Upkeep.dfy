/**
 What two endpoints keep ready in every run: all that is outstanding has been put
 on the wire, the latest acknowledgment too, and no open window is left unused.
 */
module Upkeep {
  import opened Words
  import opened WrappingIntegers
  import opened ByteStreams
  import opened Stores
  import opened Segments
  import opened Receivers
  import opened Senders
  import opened Segmentation
  import opened SenderProofs
  import opened SenderRuns
  import opened TcpStates
  import opened Connections
  import opened ConnectionProofs
  import opened ConnectionTheorems
  import opened Sides
  import opened Pairs

  // ---------------------------------------------------------------- what stays on the wire

  /** `w` is `seg` as it went out: the same place and contents, and no reset. */
  predicate Copy(w: TCPSegment, seg: TCPSegment) {
    && w.payload == seg.payload && w.header.seqno == seg.header.seqno
    && w.header.syn == seg.header.syn && w.header.fin == seg.header.fin && !w.header.rst
  }

  ghost predicate Has(wire: set<TCPSegment>, seg: TCPSegment) {
    exists w :: w in wire && Copy(w, seg)
  }

  /** Everything outstanding was sent or is about to be. */
  ghost predicate Logged(s: Sender, wire: set<TCPSegment>) {
    forall k :: 0 <= k < |s.outstanding| ==> s.outstanding[k] in s.segmentsOut || Has(wire, s.outstanding[k])
  }

  /** No call leaves an open window unused: with nothing in flight there is nothing to send. */
  predicate Busy(s: Sender) {
    0 < s.lastAckno == s.nextSeqno ==> s.nextSeqno == Goal(s)
  }

  lemma FillKeen(s: Sender, wire: set<TCPSegment>)
    requires Placed(s) && Countable(s) && Logged(s, wire)
    ensures Logged(AfterFill(s), wire) && Busy(AfterFill(s))
  {
    FillExtends(s);
    FillTarget(s);
    var t := AfterFill(s);
    forall k | 0 <= k < |t.outstanding| ensures t.outstanding[k] in t.segmentsOut || Has(wire, t.outstanding[k]) {
      if k < |s.outstanding| {
        assert t.outstanding[k] == s.outstanding[k];
      } else {
        assert t.outstanding[k] == New(s, t)[k - |s.outstanding|];
      }
    }
  }

  lemma {:induction false} PopSuffix(q: seq<TCPSegment>, ackno: u32)
    ensures var r := PopAcked(q, ackno);
            |r| <= |q| && r == q[|q| - |r|..]
  {
    if q != [] {
      PopSuffix(q[1..], ackno);
    }
  }

  lemma AckKeen(s: Sender, ackno: u32, win: u16, wire: set<TCPSegment>)
    requires SenderOk(s) && Countable(s) && Logged(s, wire) && Busy(s)
    ensures Logged(AfterAck(s, ackno, win), wire) && Busy(AfterAck(s, ackno, win))
  {
    if Unwrap(ackno, s.isn, s.lastAckno) <= s.nextSeqno {
      var m := Acknowledged(s, ackno, win);
      AcknowledgedOk(s, ackno, win);
      PopSuffix(s.outstanding, ackno);
      assert Logged(m, wire);
      FillKeen(m, wire);
    }
  }

  lemma AnswerKeen(s: Sender, r: Receiver, seg: TCPSegment, wire: set<TCPSegment>)
    requires SenderOk(s) && Countable(s) && Logged(s, wire) && Busy(s)
    ensures var t := KeptAlive(Replied(AckTaken(s, seg), seg), r, seg);
            Logged(t, wire) && Busy(t)
  {
    var m := AckTaken(s, seg);
    if seg.header.ack {
      AckKeen(s, seg.header.ackno, seg.header.win, wire);
    }
    EmptyKeen(m, wire);
    EmptyKeen(Replied(m, seg), wire);
  }

  lemma EmptyKeen(s: Sender, wire: set<TCPSegment>)
    requires Logged(s, wire) && Busy(s)
    ensures Logged(AfterSendEmpty(s), wire) && Busy(AfterSendEmpty(s))
  {
  }

  function Out(c: Connection): set<TCPSegment> {
    set seg | seg in c.segmentsOut
  }

  ghost predicate Keen(c: Connection, wire: set<TCPSegment>) {
    Logged(c.sender, wire + Out(c)) && Busy(c.sender)
  }

  lemma FlushKeen(c: Connection, wire: set<TCPSegment>)
    requires Keen(c, wire) && PlainSender(c.sender)
    ensures Keen(Flushed(c), wire)
  {
    var s, t, q := c.sender, Flushed(c), c.sender.segmentsOut;
    StampedEach(c.receiver, q);
    forall k | 0 <= k < |s.outstanding| ensures Has(wire + Out(t), s.outstanding[k]) {
      if s.outstanding[k] in q {
        var j :| 0 <= j < |q| && q[j] == s.outstanding[k];
        assert t.segmentsOut[|c.segmentsOut| + j] == Stamped(c.receiver, q[j]);
        assert Copy(Stamped(c.receiver, q[j]), s.outstanding[k]);
      } else {
        var w :| w in wire + Out(c) && Copy(w, s.outstanding[k]);
        assert w in wire + Out(t);
      }
    }
  }

  lemma ConnectKeen(c: Connection, wire: set<TCPSegment>)
    requires Placed(c.sender) && Countable(c.sender) && PlainSender(c.sender) && Logged(c.sender, wire + Out(c))
    ensures Keen(AfterConnect(c), wire)
  {
    FillKeen(c.sender, wire + Out(c));
    FillPlain(c.sender);
    FlushKeen(Filled(c), wire);
  }

  lemma TickKeen(c: Connection, ms: nat, wire: set<TCPSegment>)
    requires ConnOk(c) && PlainSender(c.sender) && Keen(c, wire)
    ensures !AfterConnTick(c, ms).sender.stream.error ==> Keen(AfterConnTick(c, ms), wire)
  {
    var m := TimePassed(c, ms);
    if c.active && m.sender.retransmissions <= MAX_RETX_ATTEMPTS {
      assert Keen(m, wire);
      FlushKeen(m, wire);
    }
  }

  lemma TakenInKeen(c: Connection, seg: TCPSegment, wire: set<TCPSegment>)
    requires SenderOk(c.sender) && Countable(c.sender) && PlainSender(c.sender) && Keen(c, wire)
    ensures Keen(TakenIn(c, seg), wire)
  {
    var t := Heard(c, seg);
    if SummaryOfReceiver(t.receiver) == SYN_RECV && SummaryOfSender(t.sender) == CLOSED {
      ConnectKeen(t, wire);
    } else {
      AnswerKeen(t.sender, t.receiver, seg, wire + Out(c));
      AnswerPlain(t.sender, t.receiver, seg);
      FlushKeen(Answered(t, seg), wire);
    }
  }

  lemma AnswerPlain(s: Sender, r: Receiver, seg: TCPSegment)
    requires PlainSender(s)
    ensures PlainSender(KeptAlive(Replied(AckTaken(s, seg), seg), r, seg))
  {
    if seg.header.ack {
      AckPlain(s, seg.header.ackno, seg.header.win);
    }
  }

  /** Every call that does not end in error keeps what is outstanding on the wire and the window in use. */
  lemma KeenStep(c: Connection, e: ConnEvent, wire: set<TCPSegment>)
    requires ConnOk(c) && PlainSender(c.sender) && Keen(c, wire)
    requires Countable(c.sender) && Countable(ConnNext(c, e).sender)
    ensures !ConnNext(c, e).sender.stream.error ==> Keen(ConnNext(c, e), wire)
  {
    match e
    case Connects => ConnectKeen(c, wire);
    case AppWrites(data) => WriteKeen(c, data, wire);
    case AppEnds =>
      StreamOk(c.sender, AfterEnd(c.sender.stream));
      ConnectKeen(c.(sender := AfterAppEnd(c.sender)), wire);
    case Ticks(ms) => TickKeen(c, ms, wire);
    case Segment(seg) =>
      if c.active && !seg.header.rst {
        TakenInKeen(c, seg, wire);
        SegmentIs(c, seg);
      }
    case AppTakes(n) =>
  }

  lemma WriteKeen(c: Connection, data: seq<byte>, wire: set<TCPSegment>)
    requires ConnOk(c) && PlainSender(c.sender) && Keen(c, wire) && Countable(AfterConnWrite(c, data).sender)
    ensures Keen(AfterConnWrite(c, data), wire)
  {
    if c.active && data != [] {
      StreamOk(c.sender, AfterWrite(c.sender.stream, data));
      FillKeepsWritten(AfterAppWrite(c.sender, data));
      ConnectKeen(c.(sender := AfterAppWrite(c.sender, data)), wire);
    }
  }

  // ---------------------------------------------------------------- the latest acknowledgment

  /** `w` gives the acknowledgment `r` would give now. */
  predicate Gives(w: TCPSegment, r: Receiver) {
    w.header.ack && !w.header.rst && w.header.ackno == Wrap(AbsoluteAck(r), r.isn)
  }

  ghost predicate AckOut(c: Connection, wire: set<TCPSegment>) {
    c.receiver.syn ==> exists w :: w in wire + Out(c) && Gives(w, c.receiver)
  }

  lemma AckStays(c: Connection, t: Connection, wire: set<TCPSegment>)
    requires AckOut(c, wire) && c.segmentsOut <= t.segmentsOut
    requires t.receiver.syn == c.receiver.syn && t.receiver.isn == c.receiver.isn
    requires AbsoluteAck(t.receiver) == AbsoluteAck(c.receiver)
    ensures AckOut(t, wire)
  {
    if c.receiver.syn {
      var w :| w in wire + Out(c) && Gives(w, c.receiver);
      assert w in wire + Out(t) && Gives(w, t.receiver);
    }
  }

  lemma FlushedPlain(c: Connection)
    requires PlainSender(c.sender)
    ensures var t := Flushed(c);
            forall k :: |c.segmentsOut| <= k < |t.segmentsOut| ==> !t.segmentsOut[k].header.rst
  {
    StampedEach(c.receiver, c.sender.segmentsOut);
  }

  lemma TakenInPlain(c: Connection, seg: TCPSegment)
    requires PlainSender(c.sender)
    ensures var t := TakenIn(c, seg);
            forall k :: |c.segmentsOut| <= k < |t.segmentsOut| ==> !t.segmentsOut[k].header.rst
  {
    var t := Heard(c, seg);
    if SummaryOfReceiver(t.receiver) == SYN_RECV && SummaryOfSender(t.sender) == CLOSED {
      FillPlain(t.sender);
      FlushedPlain(Filled(t));
    } else {
      AnswerPlain(t.sender, t.receiver, seg);
      FlushedPlain(Answered(t, seg));
    }
  }

  /** A segment that occupies no sequence space leaves the receiver as it was. */
  lemma NothingHeard(r: Receiver, seg: TCPSegment, S: seq<byte>)
    requires Faithful(r.store, S) && SequenceLength(seg) == 0
    ensures AfterSegment(r, seg) == r
  {
    if r.syn {
      PushNothing(r.store, S, StreamIndex(r, seg));
    }
  }

  lemma SegmentAckOut(c: Connection, seg: TCPSegment, wire: set<TCPSegment>, S: seq<byte>)
    requires ConnOk(c) && Countable(c.sender) && PlainSender(c.sender) && AckOut(c, wire)
    requires Faithful(c.receiver.store, S) && c.active && !seg.header.rst
    ensures AckOut(AfterConnSegment(c, seg), wire)
  {
    TakenInGrows(c, seg);
    if SequenceLength(seg) == 0 {
      NothingHeard(c.receiver, seg, S);
      AckStays(c, TakenIn(c, seg), wire);
    } else if AfterSegment(c.receiver, seg).syn {
      TakenInAckOut(c, seg, wire);
    }
    CleanAckOut(TakenIn(c, seg), wire);
    SegmentIs(c, seg);
  }

  lemma CleanAckOut(c: Connection, wire: set<TCPSegment>)
    requires AckOut(c, wire)
    ensures AckOut(CleanShutdown(c), wire)
  {
    AckStays(c, CleanShutdown(c), wire);
  }

  lemma TakenInAckOut(c: Connection, seg: TCPSegment, wire: set<TCPSegment>)
    requires PlainSender(c.sender) && SequenceLength(seg) > 0 && AfterSegment(c.receiver, seg).syn
    ensures AckOut(TakenIn(c, seg), wire)
  {
    var t := TakenIn(c, seg);
    TakenInSpeaks(c, seg);
    TakenInPlain(c, seg);
    var w := t.segmentsOut[|c.segmentsOut|];
    assert CarriesAck(t.receiver, w);
    assert w in wire + Out(t) && Gives(w, t.receiver);
  }

  lemma TakenInGrows(c: Connection, seg: TCPSegment)
    ensures c.segmentsOut <= TakenIn(c, seg).segmentsOut
    ensures TakenIn(c, seg).receiver == AfterSegment(c.receiver, seg)
  {
  }

  /** Every call that does not end in error leaves the latest acknowledgment on the wire. */
  lemma AckOutStep(c: Connection, e: ConnEvent, wire: set<TCPSegment>, S: seq<byte>)
    requires ConnOk(c) && Countable(c.sender) && PlainSender(c.sender) && AckOut(c, wire)
    requires Faithful(c.receiver.store, S)
    ensures !ConnNext(c, e).sender.stream.error ==> AckOut(ConnNext(c, e), wire)
  {
    var t := ConnNext(c, e);
    match e
    case Connects => AckStays(c, t, wire);
    case AppWrites(data) => AckStays(c, t, wire);
    case AppEnds => AckStays(c, t, wire);
    case Ticks(ms) =>
      if !t.sender.stream.error {
        AckStays(c, t, wire);
      }
    case Segment(seg) =>
      if c.active && !seg.header.rst {
        SegmentAckOut(c, seg, wire, S);
      }
    case AppTakes(n) => AckStays(c, t, wire);
  }

  // ---------------------------------------------------------------- what a call sends

  lemma FlushedNow(c: Connection, seg: TCPSegment)
    requires PlainSender(c.sender) && c.segmentsOut == [] && seg in Flushed(c).segmentsOut
    ensures !seg.header.rst && (seg.header.ack ==> CarriesAck(c.receiver, seg))
  {
    var q := c.sender.segmentsOut;
    StampedEach(c.receiver, q);
    var k :| 0 <= k < |q| && seg == StampedAll(c.receiver, q)[k];
    assert !q[k].header.ack;
  }

  lemma ConnectNow(c: Connection, seg: TCPSegment)
    requires PlainSender(c.sender) && c.segmentsOut == [] && seg in AfterConnect(c).segmentsOut
    ensures seg.header.ack ==> CarriesAck(c.receiver, seg)
  {
    FillPlain(c.sender);
    FlushedNow(Filled(c), seg);
  }

  lemma TickPlain(s: Sender, ms: nat)
    requires PlainSender(s)
    ensures PlainSender(AfterTick(s, ms))
  {
  }

  lemma RstNow(c: Connection, seg: TCPSegment)
    requires PlainSender(c.sender) && c.segmentsOut == [] && seg in RstSent(c).segmentsOut
    ensures seg.header.ack ==> CarriesAck(c.receiver, seg)
  {
    FillPlain(c.sender);
    var q := Filled(c).sender.segmentsOut;
    assert q != [] ==> !q[0].header.ack;
  }

  lemma TickNow(c: Connection, ms: nat, seg: TCPSegment)
    requires PlainSender(c.sender) && c.segmentsOut == [] && seg in AfterConnTick(c, ms).segmentsOut
    ensures seg.header.ack ==> CarriesAck(AfterConnTick(c, ms).receiver, seg)
  {
    var m := TimePassed(c, ms);
    TickPlain(c.sender, ms);
    if m.sender.retransmissions > MAX_RETX_ATTEMPTS {
      RstNow(m, seg);
    } else {
      FlushedNow(m, seg);
    }
  }

  lemma TakenInNow(c: Connection, seg: TCPSegment, out: TCPSegment)
    requires PlainSender(c.sender) && c.segmentsOut == [] && out in TakenIn(c, seg).segmentsOut
    ensures out.header.ack ==> CarriesAck(TakenIn(c, seg).receiver, out)
  {
    var t := Heard(c, seg);
    if SummaryOfReceiver(t.receiver) == SYN_RECV && SummaryOfSender(t.sender) == CLOSED {
      ConnectNow(t, out);
    } else {
      AnswerPlain(t.sender, t.receiver, seg);
      FlushedNow(Answered(t, seg), out);
    }
  }

  /** Every segment an endpoint sends carries the acknowledgment and window its receiver has after the call. */
  lemma SentCarries(c: Connection, e: ConnEvent, t: Connection, seg: TCPSegment)
    requires PlainSender(c.sender) && c.segmentsOut == [] && t == ConnNext(c, e) && seg in t.segmentsOut
    ensures seg.header.ack ==> CarriesAck(t.receiver, seg)
  {
    match e
    case Connects => ConnectNow(c, seg);
    case AppWrites(data) => ConnectNow(c.(sender := AfterAppWrite(c.sender, data)), seg);
    case AppEnds => ConnectNow(c.(sender := AfterAppEnd(c.sender)), seg);
    case Ticks(ms) => TickNow(c, ms, seg);
    case Segment(w) =>
      SegmentIs(c, w);
      TakenInNow(c, w, seg);
    case AppTakes(n) =>
  }

  // ---------------------------------------------------------------- the window

  /** An acknowledgment that announces a closed window. */
  predicate ZeroAck(w: TCPSegment) {
    w.header.ack && !w.header.rst && w.header.win == 0
  }

  ghost predicate HasZero(wire: set<TCPSegment>) {
    exists w :: w in wire && ZeroAck(w)
  }

  lemma FillKeepsWindow(s: Sender)
    requires SenderOk(s) && Countable(s)
    ensures AfterFill(s).lastWin == s.lastWin
  {
    FillExtends(s);
  }

  lemma AnswerWindow(s: Sender, r: Receiver, seg: TCPSegment)
    requires SenderOk(s) && Countable(s)
    ensures var t := KeptAlive(Replied(AckTaken(s, seg), seg), r, seg);
            t.lastWin == s.lastWin || (seg.header.ack && t.lastWin == seg.header.win)
  {
    if seg.header.ack && Unwrap(seg.header.ackno, s.isn, s.lastAckno) <= s.nextSeqno {
      AcknowledgedOk(s, seg.header.ackno, seg.header.win);
      FillKeepsWindow(Acknowledged(s, seg.header.ackno, seg.header.win));
    }
  }

  lemma StreamWindow(c: Connection, stream: Stream)
    requires SenderOk(c.sender) && Countable(c.sender.(stream := stream))
    requires c.sender.stream.written <= stream.written && stream.read == c.sender.stream.read
    requires stream.error == c.sender.stream.error
    requires c.sender.stream.ended ==> stream.ended && stream.written == c.sender.stream.written
    ensures AfterConnect(c.(sender := c.sender.(stream := stream))).sender.lastWin == c.sender.lastWin
  {
    StreamOk(c.sender, stream);
    FillKeepsWindow(c.sender.(stream := stream));
  }

  lemma TickWindow(c: Connection, ms: nat)
    requires ConnOk(c) && Countable(c.sender)
    ensures AfterConnTick(c, ms).sender.lastWin == c.sender.lastWin
  {
    TickOk(c.sender, ms);
    TickKeepsQueue(c.sender, ms);
    FillKeepsWindow(AfterTick(c.sender, ms));
    if c.active && AfterTick(c.sender, ms).retransmissions <= MAX_RETX_ATTEMPTS {
      TickedSender(c, ms);
    }
  }

  lemma SegmentWindow(c: Connection, seg: TCPSegment)
    requires ConnOk(c) && Countable(c.sender) && c.active && !seg.header.rst
    ensures var t := AfterConnSegment(c, seg).sender;
            t.lastWin == c.sender.lastWin || (seg.header.ack && t.lastWin == seg.header.win)
  {
    FillKeepsWindow(c.sender);
    AnswerWindow(c.sender, AfterSegment(c.receiver, seg), seg);
    SegmentIs(c, seg);
  }

  /** The window an endpoint believes in is one it was told. */
  lemma WindowStep(c: Connection, e: ConnEvent)
    requires ConnOk(c) && Countable(c.sender) && Countable(ConnNext(c, e).sender)
    ensures var t := ConnNext(c, e).sender;
            || t.lastWin == c.sender.lastWin
            || (e.Segment? && e.seg.header.ack && !e.seg.header.rst && t.lastWin == e.seg.header.win)
  {
    match e
    case Connects => FillKeepsWindow(c.sender);
    case AppWrites(data) =>
      if c.active && data != [] {
        FillKeepsWritten(AfterAppWrite(c.sender, data));
        StreamWindow(c, AfterWrite(c.sender.stream, data));
      }
    case AppEnds => StreamWindow(c, AfterEnd(c.sender.stream));
    case Ticks(ms) => TickWindow(c, ms);
    case Segment(seg) =>
      if c.active && !seg.header.rst {
        SegmentWindow(c, seg);
      }
    case AppTakes(n) =>
  }

  // ---------------------------------------------------------------- the pair

  ghost predicate HalfKeen(p: Pair) {
    && (!p.a.sender.stream.error ==> Keen(p.a, p.fromA) && AckOut(p.a, p.fromA))
    && (p.a.sender.lastWin == 0 ==> HasZero(p.fromB))
  }

  ghost predicate PairKeen(p: Pair) {
    PairInv(p) && HalfKeen(p) && HalfKeen(Swapped(p))
  }

  lemma StepAKeen(p: Pair, e: ConnEvent)
    requires PairKeen(p) && BothShort(p) && Short(ConnNext(p.a, e).sender) && PossibleAtA(p, e)
    ensures PairKeen(StepA(p, e))
  {
    StepAInv(p, e);
    SideStep(p.a, e, p.b.sender, p.b.receiver);
    var t, q := ConnNext(p.a, e), StepA(p, e);
    if !t.sender.stream.error {
      KeenStep(p.a, e, p.fromA);
      AckOutStep(p.a, e, p.fromA, p.b.sender.stream.written);
      Posted(t, p.fromA);
    }
    WindowStep(p.a, e);
    ZeroKept(p, q, e);
  }

  /** What was queued is on the wire once it has been taken away. */
  lemma Posted(t: Connection, wire: set<TCPSegment>)
    requires Keen(t, wire) && AckOut(t, wire)
    ensures var q, all := t.(segmentsOut := []), wire + set seg | seg in t.segmentsOut;
            Keen(q, all) && AckOut(q, all)
  {
    var q, all := t.(segmentsOut := []), wire + set seg | seg in t.segmentsOut;
    assert all + Out(q) == wire + Out(t);
  }

  lemma ZeroKept(p: Pair, q: Pair, e: ConnEvent)
    requires HalfKeen(p) && HalfKeen(Swapped(p)) && PossibleAtA(p, e) && q == StepA(p, e)
    requires var t := ConnNext(p.a, e).sender;
             || t.lastWin == p.a.sender.lastWin
             || (e.Segment? && e.seg.header.ack && !e.seg.header.rst && t.lastWin == e.seg.header.win)
    ensures q.a.sender.lastWin == 0 ==> HasZero(q.fromB)
    ensures q.b.sender.lastWin == 0 ==> HasZero(q.fromA)
  {
    if q.a.sender.lastWin == 0 && p.a.sender.lastWin != 0 {
      assert e.seg in q.fromB && ZeroAck(e.seg);
    }
    if q.b.sender.lastWin == 0 {
      var w :| w in p.fromA && ZeroAck(w);
      assert w in q.fromA;
    }
  }

  lemma PairStepKeen(p: Pair, e: PairEvent)
    requires PairKeen(p) && BothShort(p) && BothShort(PairNext(p, e)) && Possible(p, e)
    ensures PairKeen(PairNext(p, e))
  {
    match e
    case AtA(call) => StepAKeen(p, call);
    case AtB(call) => StepAKeen(Swapped(p), call);
  }

  lemma {:induction false} PairRunKeen(p: Pair, es: seq<PairEvent>)
    requires PairKeen(p) && PairRun(p, es).Some? && BothShort(PairRun(p, es).value)
    ensures PairKeen(PairRun(p, es).value)
  {
    if es != [] {
      var init, last := es[..|es| - 1], es[|es| - 1];
      PairStepGrows(PairRun(p, init).value, last);
      PairRunKeen(p, init);
      PairStepKeen(PairRun(p, init).value, last);
    }
  }
}
