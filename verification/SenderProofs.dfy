/**
 What the sender keeps in every run, whatever acknowledgments arrive: how much
 filling sends, which outstanding segments an acknowledgment drops, and when the
 retransmission timer runs.
 */
module SenderProofs {
  import opened Words
  import opened WrappingIntegers
  import opened ByteStreams
  import opened Segments
  import opened Senders
  import opened Segmentation

  // ---------------------------------------------------------------- how much filling sends

  /** One past the last number the application has given the sender to send. */
  function Goal(s: Sender): nat {
    |s.stream.written| + 1 + (if s.stream.ended then 1 else 0)
  }

  /** In flight, at most the window -- or the one probe a zero window allows. */
  predicate WithinWindow(s: Sender) {
    s.nextSeqno - s.lastAckno <= CurrentWindow(s)
  }

  /** Where filling must stop: at the window's end, or nowhere once the window is overrun. */
  function Target(s: Sender): nat {
    if WithinWindow(s) then Max(s.nextSeqno, Min(s.lastAckno + CurrentWindow(s), Goal(s)))
    else Max(s.nextSeqno, Goal(s))
  }

  lemma RoundTarget(s: Sender)
    requires Placed(s) && Countable(s) && s.lastAckno > 0
    requires RemainingWindow(s) > 0 && !Eof(s.stream) && s.stream.read < |s.stream.written|
    ensures var t := AfterSend(Taken(s), DataSegment(NextPayload(s), FinRides(s)));
            Target(t) == Target(s) && WithinWindow(t) == WithinWindow(s)
  {
    RoundExtends(s);
    InFlightIs(s);
  }

  /**
   Filling sends exactly up to the end of the window or of the data, whichever is
   first. If the window had been overrun on entry, the unsigned difference makes
   it send everything there is.
   */
  lemma {:induction false} FillLoopTarget(s: Sender)
    requires Placed(s) && Countable(s) && s.lastAckno > 0
    ensures AfterFillLoop(s).nextSeqno == Target(s)
    decreases |s.stream.written| - s.stream.read
  {
    InFlightIs(s);
    if RemainingWindow(s) > 0 {
      if !Eof(s.stream) && s.stream.read < |s.stream.written| {
        RoundExtends(s);
        RoundTarget(s);
        FillLoopTarget(AfterSend(Taken(s), DataSegment(NextPayload(s), FinRides(s))));
      }
    }
  }

  /** The whole of `fill_window`: SYN first, then nothing until it is acknowledged, then up to the target. */
  lemma FillTarget(s: Sender)
    requires Placed(s) && Countable(s)
    ensures AfterFill(s).nextSeqno ==
              if s.nextSeqno == 0 then 1 else if s.lastAckno == 0 then s.nextSeqno else Target(s)
  {
    InFlightIs(s);
    if s.nextSeqno > 0 && s.lastAckno > 0 {
      FillLoopTarget(s);
    }
  }

  /** Every new segment but the last is full, and one without payload is sent only alone. */
  ghost predicate Greedy(q: seq<TCPSegment>) {
    && (forall k :: 0 <= k < |q| - 1 ==> |q[k].payload| == MAX_PAYLOAD_SIZE)
    && (forall k :: 0 < k < |q| ==> q[k].payload != [])
  }

  /** A round that sends a short payload is the last round. */
  lemma ShortRoundEnds(s: Sender)
    requires Placed(s) && Countable(s) && s.lastAckno > 0
    requires RemainingWindow(s) > 0 && !Eof(s.stream) && s.stream.read < |s.stream.written|
    requires |NextPayload(s)| < MAX_PAYLOAD_SIZE
    ensures var t := AfterSend(Taken(s), DataSegment(NextPayload(s), FinRides(s)));
            AfterFillLoop(t) == t
  {
    var t := AfterSend(Taken(s), DataSegment(NextPayload(s), FinRides(s)));
    RoundExtends(s);
    InFlightIs(s);
    InFlightIs(t);
  }

  /** After a round that empties the stream either FIN went along or the window is used up. */
  lemma NoBareFinLeft(s: Sender)
    requires Placed(s) && Countable(s) && s.lastAckno > 0
    requires RemainingWindow(s) > 0 && !Eof(s.stream) && s.stream.read < |s.stream.written|
    ensures var t := AfterSend(Taken(s), DataSegment(NextPayload(s), FinRides(s)));
            Eof(t.stream) ==> FinSent(t) || RemainingWindow(t) == 0
  {
    RoundExtends(s);
    InFlightIs(s);
    InFlightIs(AfterSend(Taken(s), DataSegment(NextPayload(s), FinRides(s))));
  }

  lemma FirstHasPayload(t: Sender, u: Sender)
    requires Placed(t) && Countable(t) && t.lastAckno > 0 && (Eof(t.stream) ==> FinSent(t) || RemainingWindow(t) == 0)
    requires u == AfterFillLoop(t) && Extends(t, u)
    ensures New(t, u) != [] ==> New(t, u)[0].payload != []
  {
    InFlightIs(t);
    if RemainingWindow(t) > 0 && !Eof(t.stream) && t.stream.read < |t.stream.written| {
      var v := AfterSend(Taken(t), DataSegment(NextPayload(t), FinRides(t)));
      RoundExtends(t);
      FillLoopExtends(v);
      ExtendsThen(t, v, u);
      assert New(t, v) == [Numbered(t, DataSegment(NextPayload(t), FinRides(t)))];
    } else {
      assert New(t, u) == [];
    }
  }

  lemma GreedyCons(x: TCPSegment, q: seq<TCPSegment>)
    requires Greedy(q) && (q != [] ==> |x.payload| == MAX_PAYLOAD_SIZE && q[0].payload != [])
    ensures Greedy([x] + q)
  {
    var all := [x] + q;
    assert forall k :: 0 < k < |all| ==> all[k] == q[k - 1];
  }

  lemma GreedyRound(s: Sender, t: Sender, u: Sender)
    requires Placed(s) && Countable(s) && s.lastAckno > 0
    requires RemainingWindow(s) > 0 && !Eof(s.stream) && s.stream.read < |s.stream.written|
    requires t == AfterSend(Taken(s), DataSegment(NextPayload(s), FinRides(s))) && u == AfterFillLoop(t)
    requires Placed(t) && Extends(s, t) && Extends(t, u) && Greedy(New(t, u))
    ensures Extends(s, u) && Greedy(New(s, u))
  {
    var x := Numbered(s, DataSegment(NextPayload(s), FinRides(s)));
    ExtendsThen(s, t, u);
    assert New(s, t) == [x];
    if |NextPayload(s)| < MAX_PAYLOAD_SIZE {
      ShortRoundEnds(s);
      assert New(t, u) == [];
    } else {
      NoBareFinLeft(s);
      FirstHasPayload(t, u);
    }
    GreedyCons(x, New(t, u));
  }

  /** Filling cuts the stream into full segments as far as it can. */
  lemma {:induction false} FillLoopGreedy(s: Sender)
    requires Placed(s) && Countable(s) && s.lastAckno > 0
    ensures Extends(s, AfterFillLoop(s)) && Greedy(New(s, AfterFillLoop(s)))
    decreases |s.stream.written| - s.stream.read
  {
    FillLoopExtends(s);
    InFlightIs(s);
    if RemainingWindow(s) > 0 && !Eof(s.stream) && s.stream.read < |s.stream.written| {
      var t := AfterSend(Taken(s), DataSegment(NextPayload(s), FinRides(s)));
      RoundExtends(s);
      FillLoopGreedy(t);
      GreedyRound(s, t, AfterFillLoop(t));
    } else if RemainingWindow(s) > 0 && Eof(s.stream) && s.nextSeqno < |s.stream.written| + 2 {
      FinExtends(s);
    }
  }

  /** Flow control: filling stays within the window exactly when it started within it. */
  lemma FillWithinWindowIff(s: Sender)
    requires Placed(s) && Countable(s)
    ensures WithinWindow(AfterFill(s)) <==> WithinWindow(s)
  {
    FillExtends(s);
    FillTarget(s);
  }

  // ---------------------------------------------------------------- what an acknowledgment drops

  /** Absolute number of the oldest outstanding segment. */
  ghost function QueueHead(s: Sender): int {
    s.nextSeqno - QueueLength(s.outstanding)
  }

  /** The two numbers lie in the same turn of the 32-bit counter. */
  predicate SameTurn(a: nat, b: nat, isn: u32) {
    (isn + a) / TWO32 == (isn + b) / TWO32
  }

  lemma RawOf(n: nat, isn: u32)
    ensures Wrap(n, isn) == isn + n - (isn + n) / TWO32 * TWO32
  {
  }

  /** The raw comparison of the source, in absolute terms. */
  lemma RawComparison(lo: nat, len: nat, abs: nat, isn: u32)
    requires lo < abs < lo + TWO32 && 0 < len
    ensures Wrap(lo, isn) + len <= Wrap(abs, isn) <==> SameTurn(lo, abs, isn) && lo + len <= abs
  {
    RawOf(lo, isn);
    RawOf(abs, isn);
  }

  /** A raw comparison that succeeds is right at any distance, and the end compared stays in the turn of its start. */
  lemma RawSuccess(lo: nat, len: nat, abs: nat, isn: u32)
    requires lo <= abs && 0 < len && Wrap(lo, isn) + len <= Wrap(abs, isn)
    ensures lo + len <= abs && SameTurn(lo, lo + len, isn)
    ensures !SameTurn(lo, abs, isn) ==> lo + TWO32 <= abs - len
  {
    RawOf(lo, isn);
    RawOf(abs, isn);
  }

  /**
   Dropping never passes the acknowledgment: what is left starts at or before it,
   for any numbers at all.
   */
  lemma {:induction false} PopKeepsUnacked(
    q: seq<TCPSegment>, isn: u32, lo: nat, hi: nat, W: seq<byte>, ended: bool, abs: nat)
    requires Laid(q, isn, lo, hi, W, ended) && lo <= abs <= hi
    ensures var r := PopAcked(q, Wrap(abs, isn));
            && |r| <= |q| && r == q[|q| - |r|..]
            && lo <= hi - QueueLength(r) <= abs
            && Laid(r, isn, hi - QueueLength(r), hi, W, ended)
  {
    LaidLength(q, isn, lo, hi, W, ended);
    if q != [] && q[0].header.seqno + SequenceLength(q[0]) <= Wrap(abs, isn) {
      RawSuccess(lo, SequenceLength(q[0]), abs, isn);
      PopKeepsUnacked(q[1..], isn, lo + SequenceLength(q[0]), hi, W, ended, abs);
    }
  }

  lemma RawLow(lo: nat, len: nat, ackno: u32, isn: u32)
    requires isn + lo < TWO32 && Wrap(lo, isn) + len <= ackno
    ensures isn + lo + len < TWO32
  {
  }

  /** Nor does it ever pass the wrap of the raw numbers. */
  lemma {:induction false} PopStaysLow(
    q: seq<TCPSegment>, isn: u32, lo: nat, hi: nat, W: seq<byte>, ended: bool, ackno: u32)
    requires Laid(q, isn, lo, hi, W, ended) && isn + lo < TWO32
    ensures isn + hi - QueueLength(PopAcked(q, ackno)) < TWO32
  {
    if q != [] && q[0].header.seqno + SequenceLength(q[0]) <= ackno {
      RawLow(lo, SequenceLength(q[0]), ackno, isn);
      PopStaysLow(q[1..], isn, lo + SequenceLength(q[0]), hi, W, ended, ackno);
      assert PopAcked(q, ackno) == PopAcked(q[1..], ackno);
    } else {
      LaidLength(q, isn, lo, hi, W, ended);
      assert PopAcked(q, ackno) == q;
    }
  }

  /** The oldest segment left is not yet fully acknowledged. */
  ghost predicate HeadUnacked(q: seq<TCPSegment>, hi: nat, abs: nat) {
    q == [] || abs < hi - QueueLength(q) + SequenceLength(q[0])
  }

  lemma TurnBound(lo: nat, abs: nat, isn: u32)
    requires lo <= abs && SameTurn(lo, abs, isn)
    ensures abs < lo + TWO32
  {
    RawOf(lo, isn);
    RawOf(abs, isn);
  }

  /** Within one turn of the counter the drops are exact. */
  lemma {:induction false} PopExact(q: seq<TCPSegment>, isn: u32, lo: nat, hi: nat, W: seq<byte>, ended: bool, abs: nat)
    requires Laid(q, isn, lo, hi, W, ended) && lo <= abs <= hi && SameTurn(lo, abs, isn)
    ensures HeadUnacked(PopAcked(q, Wrap(abs, isn)), hi, abs)
  {
    LaidLength(q, isn, lo, hi, W, ended);
    TurnBound(lo, abs, isn);
    if q != [] && lo < abs {
      RawComparison(lo, SequenceLength(q[0]), abs, isn);
      if lo + SequenceLength(q[0]) <= abs {
        RawSuccess(lo, SequenceLength(q[0]), abs, isn);
        PopExact(q[1..], isn, lo + SequenceLength(q[0]), hi, W, ended, abs);
      }
    }
  }

  /** From one turn to another the drops get stuck before the end of the first turn. */
  lemma {:induction false} PopStuck(q: seq<TCPSegment>, isn: u32, lo: nat, hi: nat, W: seq<byte>, ended: bool, abs: nat)
    requires Laid(q, isn, lo, hi, W, ended) && lo < abs <= hi && !SameTurn(lo, abs, isn)
    requires q != [] && lo + SequenceLength(q[0]) <= abs
    ensures !HeadUnacked(PopAcked(q, Wrap(abs, isn)), hi, abs)
  {
    LaidLength(q, isn, lo, hi, W, ended);
    if q[0].header.seqno + SequenceLength(q[0]) <= Wrap(abs, isn) {
      var next := lo + SequenceLength(q[0]);
      RawSuccess(lo, SequenceLength(q[0]), abs, isn);
      assert Laid(q[1..], isn, next, hi, W, ended);
      PopStuck(q[1..], isn, next, hi, W, ended, abs);
    }
  }

  /**
   The drops are exact -- what is left at the front is not fully acknowledged --
   if and only if the front was not fully acknowledged to begin with or the raw
   counter did not wrap between the front and the acknowledgment.
   */
  lemma PopExactIff(q: seq<TCPSegment>, isn: u32, lo: nat, hi: nat, W: seq<byte>, ended: bool, abs: nat)
    requires Laid(q, isn, lo, hi, W, ended) && lo < abs <= hi
    ensures HeadUnacked(PopAcked(q, Wrap(abs, isn)), hi, abs)
       <==> SameTurn(lo, abs, isn) || abs < lo + SequenceLength(q[0])
  {
    LaidLength(q, isn, lo, hi, W, ended);
    if SameTurn(lo, abs, isn) {
      PopExact(q, isn, lo, hi, W, ended, abs);
    } else if lo + SequenceLength(q[0]) <= abs {
      PopStuck(q, isn, lo, hi, W, ended, abs);
    } else if q[0].header.seqno + SequenceLength(q[0]) <= Wrap(abs, isn) {
      RawSuccess(lo, SequenceLength(q[0]), abs, isn);
      assert false;
    }
  }
}
