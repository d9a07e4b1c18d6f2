/** The sender over whole runs: any writes, any ticks, any acknowledgments at all. */
module SenderRuns {
  import opened Words
  import opened WrappingIntegers
  import opened ByteStreams
  import opened Segments
  import opened Timers
  import opened Senders
  import opened Segmentation
  import opened SenderProofs

  /**
   Between calls the timer runs exactly while something is outstanding, is never
   left expired, and has at most the current timeout to go.
   */
  predicate TimerOk(s: Sender) {
    s.timer.started == (s.outstanding != []) && !s.timer.expired && s.timer.remaining <= s.rto
  }

  /**
   Outstanding segments tile a stretch that ends at the next number and starts no
   later than the last acknowledgment. It never starts past the point where the raw
   numbers wrap.
   */
  ghost predicate QueueOk(s: Sender) {
    && 0 <= QueueHead(s) <= s.lastAckno
    && s.isn + QueueHead(s) < TWO32
    && Laid(s.outstanding, s.isn, QueueHead(s), s.nextSeqno, s.stream.written, s.stream.ended)
  }

  /** No raw acknowledgment has wrapped yet. */
  predicate NoWrap(s: Sender) {
    s.isn + s.lastAckno < TWO32
  }

  /** The oldest outstanding segment is not fully acknowledged. */
  ghost predicate Exact(s: Sender) {
    HeadUnacked(s.outstanding, s.nextSeqno, s.lastAckno)
  }

  ghost predicate SenderOk(s: Sender) {
    Placed(s) && TimerOk(s) && QueueOk(s) && (NoWrap(s) ==> Exact(s))
  }

  ghost predicate OutOk(s: Sender) {
    forall seg :: seg in s.segmentsOut ==> Emitted(seg, s)
  }

  /** Nothing sent so far is disturbed: numbers go forward, the stream only grows. */
  predicate Onward(s: Sender, t: Sender) {
    && t.isn == s.isn && t.initialRto == s.initialRto
    && s.nextSeqno <= t.nextSeqno && s.lastAckno <= t.lastAckno
    && s.stream.written <= t.stream.written
    && (s.stream.ended ==> t.stream.ended && t.stream.written == s.stream.written)
    && s.stream.read <= t.stream.read
    && (s.stream.error ==> t.stream.error)
  }

  lemma OnwardEmitted(seg: TCPSegment, s: Sender, t: Sender)
    requires Emitted(seg, s) && Onward(s, t)
    ensures Emitted(seg, t)
  {
    var a: nat :| EmittedAt(seg, a, s);
    var n := |seg.payload|;
    if !seg.header.syn && SequenceLength(seg) > 0 {
      assert s.stream.written[a - 1..a - 1 + n] == t.stream.written[a - 1..a - 1 + n];
    }
    assert EmittedAt(seg, a, t);
  }

  // ---------------------------------------------------------------- one call at a time

  lemma {:induction false} QueueLengthConcat(q: seq<TCPSegment>, r: seq<TCPSegment>)
    ensures QueueLength(q + r) == QueueLength(q) + QueueLength(r)
  {
    if q == [] {
      assert q + r == r;
    } else {
      assert (q + r)[1..] == q[1..] + r;
      QueueLengthConcat(q[1..], r);
    }
  }

  lemma ExtendsOk(s: Sender, t: Sender)
    requires SenderOk(s) && Extends(s, t) && Placed(t)
    ensures SenderOk(t) && Onward(s, t) && QueueHead(t) == QueueHead(s)
  {
    ExtendsQueue(s, t);
    if NoWrap(s) {
      ExtendsExact(s, t);
    }
  }

  lemma ExtendsQueue(s: Sender, t: Sender)
    requires QueueOk(s) && Extends(s, t)
    ensures QueueOk(t) && s.nextSeqno <= t.nextSeqno && QueueHead(t) == QueueHead(s)
  {
    var added := New(s, t);
    LaidLength(added, s.isn, s.nextSeqno, t.nextSeqno, s.stream.written, s.stream.ended);
    QueueLengthConcat(s.outstanding, added);
    LaidAppend(s.outstanding, added, s.isn, QueueHead(s), s.nextSeqno, t.nextSeqno, s.stream.written, s.stream.ended);
  }

  lemma ExtendsExact(s: Sender, t: Sender)
    requires Placed(s) && Extends(s, t) && QueueHead(t) == QueueHead(s) && Exact(s)
    ensures Exact(t)
  {
    if s.outstanding != [] {
      assert t.outstanding[0] == s.outstanding[0];
    } else if t.outstanding != [] {
      assert t.outstanding[0] == New(s, t)[0];
    }
  }

  lemma ExtendsOut(s: Sender, t: Sender)
    requires OutOk(s) && Extends(s, t) && Onward(s, t)
    ensures OutOk(t)
  {
    forall seg | seg in t.segmentsOut ensures Emitted(seg, t) {
      if seg in s.segmentsOut {
        OnwardEmitted(seg, s, t);
      } else {
        LaidEmitted(New(s, t), t, s.nextSeqno, t.nextSeqno, seg);
      }
    }
  }

  lemma FillOk(s: Sender)
    requires SenderOk(s) && Countable(s)
    ensures SenderOk(AfterFill(s)) && Onward(s, AfterFill(s)) && QueueHead(AfterFill(s)) == QueueHead(s)
    ensures OutOk(s) ==> OutOk(AfterFill(s))
  {
    FillExtends(s);
    ExtendsOk(s, AfterFill(s));
    if OutOk(s) {
      ExtendsOut(s, AfterFill(s));
    }
  }

  /** The sender an acknowledgment leaves before refilling. */
  function Acknowledged(s: Sender, ackno: u32, win: u16): Sender {
    var abs := Unwrap(ackno, s.isn, s.lastAckno);
    (if abs > s.lastAckno then Advanced(s, abs, ackno) else s).(lastWin := win)
  }

  lemma AdvancedQueue(s: Sender, abs: nat, ackno: u32)
    requires QueueOk(s) && s.lastAckno < abs <= s.nextSeqno && ackno == Wrap(abs, s.isn)
    ensures QueueOk(Advanced(s, abs, ackno)) && QueueHead(s) <= QueueHead(Advanced(s, abs, ackno))
  {
    PopKeepsUnacked(s.outstanding, s.isn, QueueHead(s), s.nextSeqno, s.stream.written, s.stream.ended, abs);
    PopStaysLow(s.outstanding, s.isn, QueueHead(s), s.nextSeqno, s.stream.written, s.stream.ended, ackno);
  }

  lemma AdvancedOk(s: Sender, abs: nat, ackno: u32)
    requires SenderOk(s) && s.lastAckno < abs <= s.nextSeqno && ackno == Wrap(abs, s.isn)
    ensures SenderOk(Advanced(s, abs, ackno)) && QueueHead(s) <= QueueHead(Advanced(s, abs, ackno))
  {
    AdvancedQueue(s, abs, ackno);
    if s.isn + abs < TWO32 {
      PopExact(s.outstanding, s.isn, QueueHead(s), s.nextSeqno, s.stream.written, s.stream.ended, abs);
    }
  }

  lemma SameEmitted(s: Sender, t: Sender)
    requires OutOk(s) && t.segmentsOut == s.segmentsOut && Onward(s, t)
    ensures OutOk(t)
  {
    forall seg | seg in t.segmentsOut ensures Emitted(seg, t) {
      OnwardEmitted(seg, s, t);
    }
  }

  /** An acknowledgment drops only what it covers and leaves the rest of the queue laid out. */
  lemma AcknowledgedOk(s: Sender, ackno: u32, win: u16)
    requires SenderOk(s) && Countable(s) && Unwrap(ackno, s.isn, s.lastAckno) <= s.nextSeqno
    ensures var m := Acknowledged(s, ackno, win);
            && SenderOk(m) && Onward(s, m)
            && m.lastAckno == Max(s.lastAckno, Unwrap(ackno, s.isn, s.lastAckno))
            && m.segmentsOut == s.segmentsOut && m.stream == s.stream && m.nextSeqno == s.nextSeqno
            && QueueHead(s) <= QueueHead(m)
    ensures OutOk(s) ==> OutOk(Acknowledged(s, ackno, win))
  {
    var abs := Unwrap(ackno, s.isn, s.lastAckno);
    var m := Acknowledged(s, ackno, win);
    InFlightIs(s);
    if abs > s.lastAckno {
      assert ackno == Wrap(abs, s.isn) by { UnwrapWrapsBack(ackno, s.isn, s.lastAckno); }
      AdvancedOk(s, abs, ackno);
      assert m == Advanced(s, abs, ackno).(lastWin := win);
    } else {
      assert m == s.(lastWin := win);
    }
    if OutOk(s) { SameEmitted(s, m); }
  }

  lemma AckOk(s: Sender, ackno: u32, win: u16)
    requires SenderOk(s) && Countable(s)
    ensures SenderOk(AfterAck(s, ackno, win)) && Onward(s, AfterAck(s, ackno, win))
    ensures OutOk(s) ==> OutOk(AfterAck(s, ackno, win))
  {
    if Unwrap(ackno, s.isn, s.lastAckno) <= s.nextSeqno {
      AcknowledgedOk(s, ackno, win);
      FillOk(Acknowledged(s, ackno, win));
    }
  }

  lemma TickOk(s: Sender, ms: nat)
    requires SenderOk(s)
    ensures SenderOk(AfterTick(s, ms)) && Onward(s, AfterTick(s, ms))
    ensures OutOk(s) ==> OutOk(AfterTick(s, ms))
  {
    var t := AfterTick(s, ms);
    if s.outstanding != [] && Expired(Ticked(s.timer, ms)) {
      LaidEmitted(s.outstanding, s, QueueHead(s), s.nextSeqno, s.outstanding[0]);
    }
    if OutOk(s) {
      forall seg | seg in t.segmentsOut ensures Emitted(seg, t) {
        OnwardEmitted(seg, s, t);
      }
    }
  }

  /** Writing to the stream or ending it keeps the layout of what was sent. */
  lemma StreamOk(s: Sender, stream: Stream)
    requires SenderOk(s)
    requires s.stream.written <= stream.written && stream.read == s.stream.read && (s.stream.error ==> stream.error)
    requires s.stream.ended ==> stream.ended && stream.written == s.stream.written
    ensures var t := s.(stream := stream);
            SenderOk(t) && Onward(s, t) && (OutOk(s) ==> OutOk(t))
  {
    var t := s.(stream := stream);
    LaidGrow(s.outstanding, s.isn, QueueHead(s), s.nextSeqno, s.stream.written, stream.written,
             s.stream.ended, stream.ended);
    if OutOk(s) { SameEmitted(s, t); }
  }

  lemma EmptyOk(s: Sender)
    requires SenderOk(s)
    ensures SenderOk(AfterSendEmpty(s)) && Onward(s, AfterSendEmpty(s))
    ensures OutOk(s) ==> OutOk(AfterSendEmpty(s))
  {
    var t := AfterSendEmpty(s);
    assert EmittedAt(Numbered(s, DataSegment([], false)), s.nextSeqno, t);
    forall seg | seg in s.segmentsOut && Emitted(seg, s) ensures Emitted(seg, t) {
      OnwardEmitted(seg, s, t);
    }
  }

  // ---------------------------------------------------------------- runs

  datatype SenderEvent =
    | Writes(data: seq<byte>)
    | Ends
    | Fills
    | Acks(ackno: u32, win: u16)
    | Passes(ms: nat)
    | Empties

  function SenderNext(s: Sender, e: SenderEvent): Sender {
    match e
    case Writes(data) => AfterAppWrite(s, data)
    case Ends => AfterAppEnd(s)
    case Fills => AfterFill(s)
    case Acks(ackno, win) => AfterAck(s, ackno, win)
    case Passes(ms) => AfterTick(s, ms)
    case Empties => AfterSendEmpty(s)
  }

  function SenderRun(s: Sender, es: seq<SenderEvent>): Sender {
    if es == [] then s else SenderNext(SenderRun(s, es[..|es| - 1]), es[|es| - 1])
  }

  lemma SenderStepOk(s: Sender, e: SenderEvent)
    requires SenderOk(s) && Countable(s)
    ensures SenderOk(SenderNext(s, e)) && Onward(s, SenderNext(s, e))
    ensures OutOk(s) ==> OutOk(SenderNext(s, e))
  {
    match e
    case Writes(data) => StreamOk(s, AfterWrite(s.stream, data));
    case Ends => StreamOk(s, AfterEnd(s.stream));
    case Fills => FillOk(s);
    case Acks(ackno, win) => AckOk(s, ackno, win);
    case Passes(ms) => TickOk(s, ms);
    case Empties => EmptyOk(s);
  }

  /** The stream never shrinks, so a bound on its final length bounds it all along. */
  lemma StepGrows(s: Sender, e: SenderEvent)
    ensures s.stream.written <= SenderNext(s, e).stream.written
  {
    match e
    case Writes(data) =>
    case Ends =>
    case Fills => FillKeepsWritten(s);
    case Acks(ackno, win) => FillKeepsWritten(Acknowledged(s, ackno, win));
    case Passes(ms) =>
    case Empties =>
  }

  lemma {:induction false} FillLoopKeepsWritten(s: Sender)
    ensures AfterFillLoop(s).stream.written == s.stream.written && AfterFillLoop(s).stream.ended == s.stream.ended
    decreases |s.stream.written| - s.stream.read
  {
    if RemainingWindow(s) > 0 && !Eof(s.stream) && s.nextSeqno > InFlight(s) && (|NextPayload(s)| > 0 || FinRides(s)) {
      FillLoopKeepsWritten(AfterSend(Taken(s), DataSegment(NextPayload(s), FinRides(s))));
    }
  }

  lemma FillKeepsWritten(s: Sender)
    ensures AfterFill(s).stream.written == s.stream.written
  {
    FillLoopKeepsWritten(s);
  }

  lemma {:induction false} FillLoopKeepsError(s: Sender)
    ensures AfterFillLoop(s).stream.error == s.stream.error
    decreases |s.stream.written| - s.stream.read
  {
    if RemainingWindow(s) > 0 && !Eof(s.stream) && s.nextSeqno > InFlight(s) && (|NextPayload(s)| > 0 || FinRides(s)) {
      FillLoopKeepsError(AfterSend(Taken(s), DataSegment(NextPayload(s), FinRides(s))));
    }
  }

  lemma FillKeepsError(s: Sender)
    ensures AfterFill(s).stream.error == s.stream.error
  {
    FillLoopKeepsError(s);
  }

  lemma {:induction false} SenderRunOk(s: Sender, es: seq<SenderEvent>)
    requires SenderOk(s) && OutOk(s) && Countable(SenderRun(s, es))
    ensures var t := SenderRun(s, es);
            SenderOk(t) && OutOk(t) && Onward(s, t) && Countable(s)
  {
    if es != [] {
      var m := SenderRun(s, es[..|es| - 1]);
      StepGrows(m, es[|es| - 1]);
      SenderRunOk(s, es[..|es| - 1]);
      SenderStepOk(m, es[|es| - 1]);
    }
  }

  lemma FreshSenderOk(capacity: nat, timeout: u16, isn: u32)
    ensures SenderOk(FreshSender(capacity, timeout, isn)) && OutOk(FreshSender(capacity, timeout, isn))
  {
  }
}
