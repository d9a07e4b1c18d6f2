/** The main results about the sender, for every run and every initial sequence number. */
module SenderTheorems {
  import opened Words
  import opened WrappingIntegers
  import opened ByteStreams
  import opened Segments
  import opened Timers
  import opened Senders
  import opened Segmentation
  import opened SenderProofs
  import opened SenderRuns

  // ---------------------------------------------------------------- segmentation

  /** The segments one call sends for the first time. */
  ghost function FirstSentBy(s: Sender, e: SenderEvent): seq<TCPSegment> {
    var m := if e.Acks? then Acknowledged(s, e.ackno, e.win) else s;
    var t := SenderNext(s, e);
    if && (e.Fills? || (e.Acks? && Unwrap(e.ackno, s.isn, s.lastAckno) <= s.nextSeqno))
       && |m.outstanding| <= |t.outstanding|
    then New(m, t) else []
  }

  /** All first transmissions of a run, in order. */
  ghost function FirstSent(s: Sender, es: seq<SenderEvent>): seq<TCPSegment> {
    if es == [] then []
    else
      FirstSent(s, es[..|es| - 1]) + FirstSentBy(SenderRun(s, es[..|es| - 1]), es[|es| - 1])
  }

  lemma StepLays(s: Sender, e: SenderEvent)
    requires SenderOk(s) && Countable(s)
    ensures var t := SenderNext(s, e);
            Laid(FirstSentBy(s, e), s.isn, s.nextSeqno, t.nextSeqno, t.stream.written, t.stream.ended)
    ensures e.Fills? || e.Acks? ==> SenderNext(s, e).segmentsOut == s.segmentsOut + FirstSentBy(s, e)
  {
    match e
    case Fills => FillExtends(s);
    case Acks(ackno, win) =>
      AckLays(s, ackno, win);
    case Writes(data) =>
    case Ends =>
    case Passes(ms) =>
    case Empties =>
  }

  lemma AckLays(s: Sender, ackno: u32, win: u16)
    requires SenderOk(s) && Countable(s)
    ensures var t, sent := AfterAck(s, ackno, win), FirstSentBy(s, Acks(ackno, win));
            && Laid(sent, s.isn, s.nextSeqno, t.nextSeqno, t.stream.written, t.stream.ended)
            && t.segmentsOut == s.segmentsOut + sent
  {
    if Unwrap(ackno, s.isn, s.lastAckno) <= s.nextSeqno {
      AcknowledgedOk(s, ackno, win);
      FillExtends(Acknowledged(s, ackno, win));
    }
  }

  lemma {:induction false} RunLays(s: Sender, es: seq<SenderEvent>)
    requires SenderOk(s) && OutOk(s) && Countable(SenderRun(s, es))
    ensures var t := SenderRun(s, es);
            Laid(FirstSent(s, es), s.isn, s.nextSeqno, t.nextSeqno, t.stream.written, t.stream.ended)
  {
    if es != [] {
      var init, last := es[..|es| - 1], es[|es| - 1];
      var m, t := SenderRun(s, init), SenderRun(s, es);
      StepGrows(m, last);
      SenderRunOk(s, init);
      SenderStepOk(m, last);
      RunLays(s, init);
      StepLays(m, last);
      LaidGrow(FirstSent(s, init), s.isn, s.nextSeqno, m.nextSeqno, m.stream.written, t.stream.written,
               m.stream.ended, t.stream.ended);
      LaidAppend(FirstSent(s, init), FirstSentBy(m, last), s.isn, s.nextSeqno, m.nextSeqno, t.nextSeqno,
                 t.stream.written, t.stream.ended);
    }
  }

  /**
   Segmentation preserves meaning: in every run the first transmissions tile the
   sequence numbers used so far, their payloads joined are exactly the bytes taken
   from the stream, SYN and FIN are each sent for the first time at most once, FIN
   only after the application ended the stream and all its bytes were taken, and
   every queued segment is a slice of the stream at its own number.
   */
  lemma SegmentationTheorem(capacity: nat, timeout: u16, isn: u32, es: seq<SenderEvent>)
    requires Countable(SenderRun(FreshSender(capacity, timeout, isn), es))
    ensures var s := FreshSender(capacity, timeout, isn);
            var t := SenderRun(s, es);
            && Laid(FirstSent(s, es), isn, 0, t.nextSeqno, t.stream.written, t.stream.ended)
            && Payloads(FirstSent(s, es)) == t.stream.written[..t.stream.read]
            && SynCount(FirstSent(s, es)) == (if t.nextSeqno > 0 then 1 else 0)
            && FinCount(FirstSent(s, es)) == (if FinSent(t) then 1 else 0)
            && (FinSent(t) ==> Eof(t.stream))
            && OutOk(t)
  {
    var s := FreshSender(capacity, timeout, isn);
    var t := SenderRun(s, es);
    FreshSenderOk(capacity, timeout, isn);
    SenderRunOk(s, es);
    RunLays(s, es);
    LaidMeaning(FirstSent(s, es), isn, 0, t.nextSeqno, t.stream.written, t.stream.ended);
  }

  // ---------------------------------------------------------------- the outstanding queue

  /** When the queue is empty, for any sender that kept its invariant. */
  lemma QueueEmptyIff(s: Sender)
    requires SenderOk(s) && Countable(s)
    ensures s.outstanding == [] <==> InFlight(s) == 0 && NoWrap(s)
  {
    InFlightIs(s);
    LaidLength(s.outstanding, s.isn, QueueHead(s), s.nextSeqno, s.stream.written, s.stream.ended);
    if s.outstanding != [] {
      LaidLength(s.outstanding[1..], s.isn, QueueHead(s) + SequenceLength(s.outstanding[0]), s.nextSeqno,
                 s.stream.written, s.stream.ended);
    }
  }

  /** Once acknowledgments are past the wrap by a segment's length, the head stays although fully acknowledged. */
  lemma QueueStuck(s: Sender)
    requires SenderOk(s) && s.isn + s.lastAckno >= TWO32 + MAX_PAYLOAD_SIZE + 1
    ensures s.outstanding != [] && !Exact(s)
  {
  }

  /**
   The outstanding queue in every run, for any initial sequence number: it tiles a
   stretch up to the next number that starts at or before the last acknowledgment,
   so no unacknowledged number is ever dropped, and never starts past the wrap of
   the raw numbers; the timer runs exactly while it is non-empty. It is empty if
   and only if nothing is in flight and the last acknowledgment has not wrapped;
   until then its head is never fully acknowledged.
   */
  lemma QueueTheorem(capacity: nat, timeout: u16, isn: u32, es: seq<SenderEvent>)
    requires Countable(SenderRun(FreshSender(capacity, timeout, isn), es))
    ensures var t := SenderRun(FreshSender(capacity, timeout, isn), es);
            && QueueOk(t) && TimerOk(t)
            && (t.lastAckno < t.nextSeqno ==> t.outstanding != [])
            && (t.outstanding == [] <==> InFlight(t) == 0 && isn + t.lastAckno < TWO32)
            && (isn + t.lastAckno < TWO32 ==> Exact(t))
  {
    var s := FreshSender(capacity, timeout, isn);
    var t := SenderRun(s, es);
    FreshSenderOk(capacity, timeout, isn);
    SenderRunOk(s, es);
    QueueEmptyIff(t);
    InFlightIs(t);
  }

  /**
   Why the condition is needed. With the largest initial sequence number the
   acknowledgment of SYN wraps to raw 0: everything is acknowledged, yet SYN stays
   queued, the timer keeps running, and SYN is sent again when it expires.
   */
  lemma WrapStalls(capacity: nat, timeout: u16, win: u16)
    ensures var isn := TWO32 - 1;
            var s := SenderRun(FreshSender(capacity, timeout, isn), [Fills, Acks(0, win)]);
            && InFlight(s) == 0 && s.outstanding == [Numbered(FreshSender(capacity, timeout, isn), SynSegment())]
            && s.timer.started
            && AfterTick(s, timeout).segmentsOut == s.segmentsOut + s.outstanding
  {
    var isn := TWO32 - 1;
    var f := FreshSender(capacity, timeout, isn);
    var es := [Fills, Acks(0, win)];
    assert es[..1] == [Fills] && es[..1][..0] == [];
    var s1 := SenderRun(f, [Fills]);
    assert SenderRun(f, []) == f && s1 == AfterFill(f);
    assert s1.outstanding == [Numbered(f, SynSegment())];
    assert SenderRun(f, es) == AfterAck(s1, 0, win);
    assert Unwrap(0, isn, 0) == 1;
    var m := Acknowledged(s1, 0, win);
    assert m.outstanding == s1.outstanding;
    assert Eof(m.stream) == false && NextPayload(m) == [];
    assert AfterFillLoop(m) == m;
    assert AfterFill(m) == m;
  }

  // ---------------------------------------------------------------- flow control

  lemma AckSetsWindow(s: Sender, ackno: u32, win: u16)
    requires SenderOk(s) && Countable(s) && Unwrap(ackno, s.isn, s.lastAckno) <= s.nextSeqno
    ensures AfterAck(s, ackno, win).lastWin == win
    ensures AfterAck(s, ackno, win).lastAckno == Max(s.lastAckno, Unwrap(ackno, s.isn, s.lastAckno))
  {
    AcknowledgedOk(s, ackno, win);
    FillExtends(Acknowledged(s, ackno, win));
  }

  /**
   After an accepted acknowledgment the sender is within the window exactly when
   what it leaves in flight already fits the window it announces.
   */
  lemma AckWithinWindowIff(s: Sender, ackno: u32, win: u16)
    requires SenderOk(s) && Countable(s) && Unwrap(ackno, s.isn, s.lastAckno) <= s.nextSeqno
    ensures WithinWindow(AfterAck(s, ackno, win))
       <==> s.nextSeqno - Max(s.lastAckno, Unwrap(ackno, s.isn, s.lastAckno)) <= Max(1, win)
  {
    AcknowledgedOk(s, ackno, win);
    FillWithinWindowIff(Acknowledged(s, ackno, win));
  }

  /**
   Why the order of acknowledgments matters: one that repeats the last number but
   announces less than is in flight makes the sender send everything it has.
   */
  lemma StaleWindowFloods(s: Sender, ackno: u32, win: u16)
    requires SenderOk(s) && Countable(s) && s.lastAckno > 0
    requires Unwrap(ackno, s.isn, s.lastAckno) == s.lastAckno && Max(1, win) < s.nextSeqno - s.lastAckno
    ensures AfterAck(s, ackno, win).nextSeqno == Max(s.nextSeqno, Goal(s))
  {
    AcknowledgedOk(s, ackno, win);
    FillTarget(Acknowledged(s, ackno, win));
  }

  // ---------------------------------------------------------------- retransmission timing

  /** The call is not an acknowledgment of new data. */
  predicate Quiet(s: Sender, e: SenderEvent) {
    e.Acks? ==> !(s.lastAckno < Unwrap(e.ackno, s.isn, s.lastAckno) <= s.nextSeqno)
  }

  /** The call sends the oldest outstanding segment again. */
  predicate Resends(s: Sender, e: SenderEvent) {
    e.Passes? && s.outstanding != [] && Expired(Ticked(s.timer, e.ms))
  }

  ghost predicate QuietRun(s: Sender, es: seq<SenderEvent>) {
    es == [] || (QuietRun(s, es[..|es| - 1]) && Quiet(SenderRun(s, es[..|es| - 1]), es[|es| - 1]))
  }

  ghost predicate NoResend(s: Sender, es: seq<SenderEvent>) {
    es == [] || (NoResend(s, es[..|es| - 1]) && !Resends(SenderRun(s, es[..|es| - 1]), es[|es| - 1]))
  }

  /** Time passed in a run. */
  function Elapsed(es: seq<SenderEvent>): nat {
    if es == [] then 0
    else Elapsed(es[..|es| - 1]) + (if es[|es| - 1].Passes? then es[|es| - 1].ms else 0)
  }

  lemma QuietStep(s: Sender, e: SenderEvent)
    requires SenderOk(s) && Countable(s) && s.outstanding != []
    requires Quiet(s, e) && !Resends(s, e)
    ensures var t := SenderNext(s, e);
            && s.outstanding <= t.outstanding && t.rto == s.rto && t.retransmissions == s.retransmissions
            && t.timer == s.timer.(remaining := t.timer.remaining)
            && t.timer.remaining == s.timer.remaining - (if e.Passes? then e.ms else 0)
  {
    match e
    case Fills => FillExtends(s);
    case Acks(ackno, win) =>
      if Unwrap(ackno, s.isn, s.lastAckno) <= s.nextSeqno {
        AcknowledgedOk(s, ackno, win);
        FillExtends(Acknowledged(s, ackno, win));
      }
    case Writes(data) =>
    case Ends =>
    case Passes(ms) =>
    case Empties =>
  }

  lemma {:induction false} QuietRunTimer(s: Sender, es: seq<SenderEvent>)
    requires SenderOk(s) && OutOk(s) && s.outstanding != [] && Countable(SenderRun(s, es))
    requires QuietRun(s, es) && NoResend(s, es)
    ensures var t := SenderRun(s, es);
            && s.outstanding <= t.outstanding && t.rto == s.rto && t.retransmissions == s.retransmissions
            && t.timer.remaining == s.timer.remaining - Elapsed(es)
  {
    if es != [] {
      var m := SenderRun(s, es[..|es| - 1]);
      StepGrows(m, es[|es| - 1]);
      SenderRunOk(s, es[..|es| - 1]);
      QuietRunTimer(s, es[..|es| - 1]);
      QuietStep(m, es[|es| - 1]);
    }
  }

  /** When the next resend falls due. */
  lemma ResendsWhen(s: Sender, es: seq<SenderEvent>, ms: nat)
    requires SenderOk(s) && OutOk(s) && s.outstanding != [] && Countable(SenderRun(s, es))
    requires QuietRun(s, es) && NoResend(s, es)
    ensures var m := SenderRun(s, es);
            && TimerOk(m) && m.outstanding != [] && m.outstanding[0] == s.outstanding[0]
            && m.rto == s.rto && m.retransmissions == s.retransmissions
            && (Resends(m, Passes(ms)) <==> Elapsed(es) + ms >= s.timer.remaining)
  {
    QuietRunTimer(s, es);
    SenderRunOk(s, es);
  }

  /** What a tick with something outstanding does. */
  lemma TickEffect(m: Sender, ms: nat)
    requires TimerOk(m) && m.outstanding != []
    ensures var t := AfterTick(m, ms);
            && (Resends(m, Passes(ms)) ==>
                  && t.segmentsOut == m.segmentsOut + [m.outstanding[0]]
                  && t.outstanding == m.outstanding
                  && (m.lastWin > 0 ==> t.rto == (m.rto * 2) % TWO32
                                        && t.retransmissions == (m.retransmissions + 1) % TWO32)
                  && (m.lastWin == 0 ==> t.rto == m.rto && t.retransmissions == m.retransmissions)
                  && t.timer == Started(t.rto))
            && (!Resends(m, Passes(ms)) ==> t.segmentsOut == m.segmentsOut)
  {
  }

  /**
   The retransmission rule, over any calls that bring no acknowledgment of new
   data: the oldest outstanding segment is first sent again at exactly the tick
   that brings the time since the timer was started to its timeout; then the
   timeout doubles, unless the peer's window is zero, and the timer starts over.
   */
  lemma RetransmissionRule(s: Sender, es: seq<SenderEvent>, ms: nat)
    requires SenderOk(s) && OutOk(s) && s.outstanding != [] && Countable(SenderRun(s, es))
    requires QuietRun(s, es) && NoResend(s, es)
    ensures var m := SenderRun(s, es);
            var t := AfterTick(m, ms);
            && (Resends(m, Passes(ms)) <==> Elapsed(es) + ms >= s.timer.remaining)
            && (Resends(m, Passes(ms)) ==>
                  && t.segmentsOut == m.segmentsOut + [s.outstanding[0]]
                  && t.outstanding == m.outstanding
                  && (m.lastWin > 0 ==> t.rto == (s.rto * 2) % TWO32
                                        && t.retransmissions == (s.retransmissions + 1) % TWO32)
                  && (m.lastWin == 0 ==> t.rto == s.rto && t.retransmissions == s.retransmissions)
                  && t.timer == Started(t.rto))
            && (!Resends(m, Passes(ms)) ==> t.segmentsOut == m.segmentsOut)
  {
    ResendsWhen(s, es, ms);
    TickEffect(SenderRun(s, es), ms);
  }

  // ---------------------------------------------------------------- what an acknowledgment does

  /** The acknowledgment covers numbers not acknowledged before, and none that was not sent. */
  predicate NewData(s: Sender, ackno: u32) {
    s.lastAckno < Unwrap(ackno, s.isn, s.lastAckno) <= s.nextSeqno
  }

  /**
   Everything an acknowledgment does besides dropping and sending. One beyond what
   was sent does nothing. One of new data clears the count, takes the timeout back
   to the initial one and starts the timer over with it, or stops it when nothing
   is left outstanding (rules 5.2 and 5.3 of section 5 of RFC 6298). Any other
   leaves count, timeout and a running timer alone.
   */
  lemma AckEffect(s: Sender, ackno: u32, win: u16)
    requires SenderOk(s) && Countable(s)
    ensures var abs, t := Unwrap(ackno, s.isn, s.lastAckno), AfterAck(s, ackno, win);
            && (abs > s.nextSeqno ==> t == s)
            && (abs <= s.nextSeqno ==> t.lastWin == win && t.lastAckno == Max(s.lastAckno, abs))
            && (NewData(s, ackno) ==>
                  && t.retransmissions == 0 && t.rto == s.initialRto
                  && t.timer.started == (t.outstanding != []) && !t.timer.expired
                  && (t.outstanding != [] ==> t.timer.remaining == s.initialRto))
            && (abs <= s.lastAckno ==>
                  && t.retransmissions == s.retransmissions && t.rto == s.rto && s.outstanding <= t.outstanding
                  && (s.outstanding != [] ==> t.timer == s.timer))
  {
    if Unwrap(ackno, s.isn, s.lastAckno) <= s.nextSeqno {
      AcknowledgedOk(s, ackno, win);
      FillExtends(Acknowledged(s, ackno, win));
      AckOk(s, ackno, win);
    }
  }

  /** The calls that start the timer over: new data acknowledged, the first segment sent, a segment sent again. */
  predicate Restarts(s: Sender, e: SenderEvent) {
    || (e.Acks? && NewData(s, e.ackno))
    || s.outstanding == []
    || Resends(s, e)
  }

  lemma RestartIsFull(s: Sender, e: SenderEvent)
    requires SenderOk(s) && Countable(s) && Restarts(s, e) && SenderNext(s, e).outstanding != []
    ensures var t := SenderNext(s, e);
            && t.timer.started && !t.timer.expired && t.timer.remaining == t.rto
            && (e.Acks? && NewData(s, e.ackno) ==> t.rto == s.initialRto)
  {
    match e
    case Fills => FillExtends(s);
    case Acks(ackno, win) =>
      AckEffect(s, ackno, win);
      if Unwrap(ackno, s.isn, s.lastAckno) <= s.nextSeqno {
        AcknowledgedOk(s, ackno, win);
        FillExtends(Acknowledged(s, ackno, win));
      }
    case Writes(data) =>
    case Ends =>
    case Passes(ms) =>
    case Empties =>
  }

  /**
   When a segment is sent again, counted from the call that last started the timer
   -- an acknowledgment of new data, the first transmission into an empty queue, or
   the last resend: at exactly the tick that brings the time since that call to the
   timeout then in force, whatever other calls come between.
   */
  lemma ResendTheorem(s: Sender, e: SenderEvent, es: seq<SenderEvent>, ms: nat)
    requires SenderOk(s) && OutOk(s) && Restarts(s, e) && SenderNext(s, e).outstanding != []
    requires Countable(s) && Countable(SenderRun(SenderNext(s, e), es))
    requires QuietRun(SenderNext(s, e), es) && NoResend(SenderNext(s, e), es)
    ensures var t := SenderNext(s, e);
            var m := SenderRun(t, es);
            && (Resends(m, Passes(ms)) <==> Elapsed(es) + ms >= t.rto)
            && (Resends(m, Passes(ms)) ==> AfterTick(m, ms).segmentsOut == m.segmentsOut + [t.outstanding[0]])
            && (e.Acks? && NewData(s, e.ackno) ==> t.rto == s.initialRto)
  {
    SenderStepOk(s, e);
    RestartIsFull(s, e);
    RetransmissionRule(SenderNext(s, e), es, ms);
  }
}
