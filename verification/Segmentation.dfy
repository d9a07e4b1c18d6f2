/**
 How the sender lays its stream out in sequence space: SYN at 0, byte i of the
 stream at i + 1, FIN just past the last byte.
 */
module Segmentation {
  import opened Words
  import opened WrappingIntegers
  import opened ByteStreams
  import opened Segments
  import opened Timers
  import opened Senders

  predicate FinSent(s: Sender) {
    s.nextSeqno == |s.stream.written| + 2
  }

  /** The next number follows from what has been taken from the stream and whether FIN went out. */
  predicate Placed(s: Sender) {
    && s.lastAckno <= s.nextSeqno
    && (s.nextSeqno == 0 ==> s.stream.read == 0)
    && (s.nextSeqno > 0 ==> s.nextSeqno == s.stream.read + 1 || (FinSent(s) && Eof(s.stream)))
  }

  /** Sequence numbers of the whole stream stay unambiguous on the wire. */
  predicate Short(s: Sender) {
    |s.stream.written| + 2 < TWO31
  }

  /** Counters of sequence numbers do not pass 2^63. */
  predicate Countable(s: Sender) {
    |s.stream.written| + 2 < TWO63
  }

  /** What a segment starting at absolute number `a` may carry of stream `W`. */
  predicate CarriedAt(seg: TCPSegment, a: nat, W: seq<byte>, ended: bool) {
    && |seg.payload| <= MAX_PAYLOAD_SIZE
    && (seg.header.syn ==> a == 0 && seg.payload == [] && !seg.header.fin)
    && (!seg.header.syn && SequenceLength(seg) > 0 ==>
          && 1 <= a && a - 1 + |seg.payload| <= |W|
          && seg.payload == W[a - 1..a - 1 + |seg.payload|]
          && (seg.header.fin ==> ended && a - 1 + |seg.payload| == |W|))
  }

  /** Consecutive segments that tile `[lo, hi)` without gap or overlap, each with its own slice. */
  ghost predicate Laid(q: seq<TCPSegment>, isn: u32, lo: nat, hi: nat, W: seq<byte>, ended: bool) {
    if q == [] then lo == hi
    else
      && q[0].header.seqno == Wrap(lo, isn)
      && SequenceLength(q[0]) > 0
      && CarriedAt(q[0], lo, W, ended)
      && Laid(q[1..], isn, lo + SequenceLength(q[0]), hi, W, ended)
  }

  ghost function QueueLength(q: seq<TCPSegment>): nat {
    if q == [] then 0 else SequenceLength(q[0]) + QueueLength(q[1..])
  }

  lemma {:induction false} LaidLength(q: seq<TCPSegment>, isn: u32, lo: nat, hi: nat, W: seq<byte>, ended: bool)
    requires Laid(q, isn, lo, hi, W, ended)
    ensures lo + QueueLength(q) == hi
    ensures q != [] ==> lo < hi
  {
    if q != [] {
      LaidLength(q[1..], isn, lo + SequenceLength(q[0]), hi, W, ended);
    }
  }

  lemma {:induction false} LaidAppend(
    q: seq<TCPSegment>, r: seq<TCPSegment>, isn: u32, lo: nat, mid: nat, hi: nat, W: seq<byte>, ended: bool)
    requires Laid(q, isn, lo, mid, W, ended) && Laid(r, isn, mid, hi, W, ended)
    ensures Laid(q + r, isn, lo, hi, W, ended)
  {
    if q == [] {
      assert q + r == r;
    } else {
      LaidAppend(q[1..], r, isn, lo + SequenceLength(q[0]), mid, hi, W, ended);
      var all := q + r;
      assert all[0] == q[0] && all[1..] == q[1..] + r;
      assert Laid(all[1..], isn, lo + SequenceLength(all[0]), hi, W, ended);
    }
  }

  /** Segments already laid out stay right when the application writes more or ends the stream. */
  lemma {:induction false} LaidGrow(
    q: seq<TCPSegment>, isn: u32, lo: nat, hi: nat, V: seq<byte>, W: seq<byte>, before: bool, after: bool)
    requires Laid(q, isn, lo, hi, V, before)
    requires V <= W && (before ==> V == W && after)
    ensures Laid(q, isn, lo, hi, W, after)
  {
    if q != [] {
      LaidGrow(q[1..], isn, lo + SequenceLength(q[0]), hi, V, W, before, after);
      var a, n := lo, |q[0].payload|;
      if !q[0].header.syn {
        assert V[a - 1..a - 1 + n] == W[a - 1..a - 1 + n];
      }
    }
  }

  // ---------------------------------------------------------------- what a layout says as a whole

  ghost function Payloads(q: seq<TCPSegment>): seq<byte> {
    if q == [] then [] else q[0].payload + Payloads(q[1..])
  }

  ghost function FinCount(q: seq<TCPSegment>): nat {
    if q == [] then 0 else (if q[0].header.fin then 1 else 0) + FinCount(q[1..])
  }

  ghost function SynCount(q: seq<TCPSegment>): nat {
    if q == [] then 0 else (if q[0].header.syn then 1 else 0) + SynCount(q[1..])
  }

  /** Stream bytes below absolute number `n`. */
  function BytesBelow(n: nat, W: seq<byte>): nat {
    if n == 0 then 0 else Min(n - 1, |W|)
  }

  lemma {:induction false} LaidMarks(q: seq<TCPSegment>, isn: u32, lo: nat, hi: nat, W: seq<byte>, ended: bool)
    requires Laid(q, isn, lo, hi, W, ended) && hi <= |W| + 2
    ensures FinCount(q) == if lo < hi == |W| + 2 then 1 else 0
    ensures SynCount(q) == if lo == 0 < hi then 1 else 0
    ensures FinCount(q) > 0 ==> ended
  {
    LaidLength(q, isn, lo, hi, W, ended);
    if q != [] {
      LaidMarks(q[1..], isn, lo + SequenceLength(q[0]), hi, W, ended);
      LaidLength(q[1..], isn, lo + SequenceLength(q[0]), hi, W, ended);
    }
  }

  lemma {:induction false} LaidPayloads(q: seq<TCPSegment>, isn: u32, lo: nat, hi: nat, W: seq<byte>, ended: bool)
    requires Laid(q, isn, lo, hi, W, ended)
    ensures BytesBelow(lo, W) <= BytesBelow(hi, W)
    ensures Payloads(q) == W[BytesBelow(lo, W)..BytesBelow(hi, W)]
  {
    if q != [] {
      var mid := lo + SequenceLength(q[0]);
      LaidPayloads(q[1..], isn, mid, hi, W, ended);
      CarriedPayload(q[0], lo, W, ended);
      JoinParts(W, BytesBelow(lo, W), BytesBelow(mid, W), BytesBelow(hi, W));
    }
  }

  lemma CarriedPayload(seg: TCPSegment, a: nat, W: seq<byte>, ended: bool)
    requires CarriedAt(seg, a, W, ended) && SequenceLength(seg) > 0
    ensures BytesBelow(a, W) <= BytesBelow(a + SequenceLength(seg), W)
    ensures seg.payload == W[BytesBelow(a, W)..BytesBelow(a + SequenceLength(seg), W)]
  {
  }

  lemma JoinParts(W: seq<byte>, i: nat, j: nat, k: nat)
    requires i <= j <= k <= |W|
    ensures W[i..j] + W[j..k] == W[i..k]
  {
  }

  /**
   A layout of `[lo, hi)` carries exactly the stream bytes numbered there, once
   each and in order, SYN once if the layout starts at 0, FIN once if it reaches
   the end of the stream.
   */
  lemma LaidMeaning(q: seq<TCPSegment>, isn: u32, lo: nat, hi: nat, W: seq<byte>, ended: bool)
    requires Laid(q, isn, lo, hi, W, ended) && hi <= |W| + 2
    ensures BytesBelow(lo, W) <= BytesBelow(hi, W)
    ensures Payloads(q) == W[BytesBelow(lo, W)..BytesBelow(hi, W)]
    ensures FinCount(q) == if lo < hi == |W| + 2 then 1 else 0
    ensures SynCount(q) == if lo == 0 < hi then 1 else 0
    ensures FinCount(q) > 0 ==> ended
  {
    LaidMarks(q, isn, lo, hi, W, ended);
    LaidPayloads(q, isn, lo, hi, W, ended);
  }

  /** The segment is the stretch of the sender's stream that starts at absolute number `a`. */
  predicate EmittedAt(seg: TCPSegment, a: nat, s: Sender) {
    && seg.header.seqno == Wrap(a, s.isn)
    && a + SequenceLength(seg) <= s.nextSeqno
    && CarriedAt(seg, a, s.stream.written, s.stream.ended)
  }

  /** What one segment on the wire must be, given the sender that emitted it. */
  ghost predicate Emitted(seg: TCPSegment, s: Sender) {
    exists a: nat :: EmittedAt(seg, a, s)
  }

  /** Below 2^32 the raw number says where the segment belongs. */
  lemma EmittedPlace(seg: TCPSegment, s: Sender)
    requires Emitted(seg, s) && s.nextSeqno < TWO32
    ensures EmittedAt(seg, Absolute(seg.header.seqno, s.isn), s)
  {
    var a: nat :| EmittedAt(seg, a, s);
    AbsoluteOfWrap(a, s.isn);
  }

  lemma {:induction false} LaidEmitted(q: seq<TCPSegment>, s: Sender, lo: nat, hi: nat, seg: TCPSegment)
    requires Laid(q, s.isn, lo, hi, s.stream.written, s.stream.ended) && hi <= s.nextSeqno
    requires seg in q
    ensures Emitted(seg, s)
  {
    LaidLength(q, s.isn, lo, hi, s.stream.written, s.stream.ended);
    if seg == q[0] {
      LaidLength(q[1..], s.isn, lo + SequenceLength(q[0]), hi, s.stream.written, s.stream.ended);
      assert EmittedAt(seg, lo, s);
    } else {
      LaidEmitted(q[1..], s, lo + SequenceLength(q[0]), hi, seg);
    }
  }

  // ---------------------------------------------------------------- filling the window

  ghost function New(s: Sender, t: Sender): seq<TCPSegment>
    requires |s.outstanding| <= |t.outstanding|
  {
    t.outstanding[|s.outstanding|..]
  }

  /** `t` is `s` after some first transmissions, and nothing else. */
  ghost predicate Extends(s: Sender, t: Sender) {
    && |s.outstanding| <= |t.outstanding|
    && s.stream.read <= t.stream.read <= |s.stream.written|
    && t == s.(nextSeqno := t.nextSeqno,
               segmentsOut := s.segmentsOut + New(s, t),
               outstanding := s.outstanding + New(s, t),
               stream := s.stream.(read := t.stream.read),
               timer := if s.timer.started || New(s, t) == [] then s.timer else Started(s.rto))
    && Laid(New(s, t), s.isn, s.nextSeqno, t.nextSeqno, s.stream.written, s.stream.ended)
  }

  lemma ExtendsNothing(s: Sender)
    ensures Extends(s, s)
  {
    assert New(s, s) == [];
    assert s.segmentsOut + [] == s.segmentsOut && s.outstanding + [] == s.outstanding;
  }

  lemma ExtendsThen(s: Sender, m: Sender, t: Sender)
    requires Extends(s, m) && Extends(m, t)
    ensures Extends(s, t) && New(s, t) == New(s, m) + New(m, t)
  {
    var a, b := New(s, m), New(m, t);
    assert t.outstanding == s.outstanding + (a + b);
    assert t.segmentsOut == s.segmentsOut + (a + b);
    assert New(s, t) == a + b;
    LaidAppend(a, b, s.isn, s.nextSeqno, m.nextSeqno, t.nextSeqno, s.stream.written, s.stream.ended);
  }

  /** One first transmission, possibly with bytes taken from the stream. */
  lemma SendExtends(s: Sender, taken: nat, seg: TCPSegment)
    requires s.stream.read + taken <= |s.stream.written|
    requires SequenceLength(seg) > 0 && CarriedAt(seg, s.nextSeqno, s.stream.written, s.stream.ended)
    ensures var m := s.(stream := s.stream.(read := s.stream.read + taken));
            Extends(s, AfterSend(m, seg)) && New(s, AfterSend(m, seg)) == [Numbered(s, seg)]
  {
    var m := s.(stream := s.stream.(read := s.stream.read + taken));
    var t := AfterSend(m, seg);
    assert New(s, t) == [Numbered(s, seg)];
    assert [Numbered(s, seg)][1..] == [];
    assert Laid([], s.isn, t.nextSeqno, t.nextSeqno, s.stream.written, s.stream.ended);
  }

  lemma InFlightIs(s: Sender)
    requires Placed(s) && Countable(s)
    ensures s.nextSeqno < TWO63 && (Short(s) ==> s.nextSeqno < TWO31) && InFlight(s) == s.nextSeqno - s.lastAckno
    ensures RemainingWindow(s) ==
              if s.nextSeqno - s.lastAckno <= CurrentWindow(s) then CurrentWindow(s) - (s.nextSeqno - s.lastAckno)
              else TWO64 + CurrentWindow(s) - (s.nextSeqno - s.lastAckno)
  {
  }

  /** The segment one round of the loop sends fits its place. */
  lemma RoundExtends(s: Sender)
    requires Placed(s) && Countable(s) && s.lastAckno > 0
    requires RemainingWindow(s) > 0 && !Eof(s.stream) && s.stream.read < |s.stream.written|
    ensures var t := AfterSend(Taken(s), DataSegment(NextPayload(s), FinRides(s)));
            && Extends(s, t) && Placed(t) && |NextPayload(s)| > 0
            && t.nextSeqno == s.nextSeqno + |NextPayload(s)| + (if FinRides(s) then 1 else 0)
  {
    var n := |NextPayload(s)|;
    var W, a := s.stream.written, s.nextSeqno;
    assert a == s.stream.read + 1;
    assert NextPayload(s) == W[a - 1..a - 1 + n];
    SendExtends(s, n, DataSegment(NextPayload(s), FinRides(s)));
  }

  lemma FinExtends(s: Sender)
    requires Placed(s) && s.nextSeqno > 0 && Eof(s.stream) && s.nextSeqno < |s.stream.written| + 2
    ensures var t := AfterSend(s, DataSegment([], true));
            Extends(s, t) && Placed(t) && t.nextSeqno == s.nextSeqno + 1 == |s.stream.written| + 2
  {
    SendExtends(s, 0, DataSegment([], true));
  }

  lemma {:induction false} FillLoopExtends(s: Sender)
    requires Placed(s) && Countable(s) && s.lastAckno > 0
    ensures Extends(s, AfterFillLoop(s)) && Placed(AfterFillLoop(s))
    decreases |s.stream.written| - s.stream.read
  {
    InFlightIs(s);
    ExtendsNothing(s);
    if RemainingWindow(s) > 0 {
      if !Eof(s.stream) && s.stream.read < |s.stream.written| {
        RoundExtends(s);
        var t := AfterSend(Taken(s), DataSegment(NextPayload(s), FinRides(s)));
        FillLoopExtends(t);
        ExtendsThen(s, t, AfterFillLoop(t));
      } else if Eof(s.stream) && s.nextSeqno < |s.stream.written| + 2 {
        FinExtends(s);
      }
    }
  }

  /** Filling only ever adds first transmissions that continue the layout. */
  lemma FillExtends(s: Sender)
    requires Placed(s) && Countable(s)
    ensures Extends(s, AfterFill(s)) && Placed(AfterFill(s))
  {
    InFlightIs(s);
    ExtendsNothing(s);
    if s.nextSeqno == 0 {
      SendExtends(s, 0, SynSegment());
    } else if s.lastAckno > 0 {
      FillLoopExtends(s);
    }
  }
}
