/**
 One direction of a connection: a sender, the peer's receiver, and a network that
 may lose, repeat and reorder everything.
 */
module Links {
  import opened Words
  import opened WrappingIntegers
  import opened Stores
  import opened Segments
  import opened Receivers
  import opened Senders
  import opened Segmentation
  import opened SenderRuns
  import opened TcpStates

  /** How a sender and the receiver of its stream stand to each other, whatever is in transit. */
  ghost predicate Linked(s: Sender, r: Receiver) {
    && SenderOk(s)
    && Faithful(r.store, s.stream.written)
    && (r.syn ==> r.isn == s.isn && s.nextSeqno >= 1)
    && (!r.syn ==> r.store.out.written == [] && r.store.held == map[] && !r.store.eof)
    && (forall i: nat :: Knows(r.store, i) ==> i + 1 < s.nextSeqno)
    && (r.store.eof ==> FinSent(s) && s.stream.ended)
    && s.lastAckno <= (if r.syn then AbsoluteAck(r) else 0)
  }

  /** An acknowledgment this receiver once gave. */
  predicate AckedBy(ackno: u32, s: Sender, r: Receiver) {
    r.syn && 1 <= Absolute(ackno, s.isn) <= AbsoluteAck(r)
  }

  /** The receiver never acknowledges what was not sent. */
  lemma AckBounded(s: Sender, r: Receiver)
    requires Linked(s, r) && r.syn
    ensures AbsoluteAck(r) <= s.nextSeqno
  {
    if FirstUnassembled(r.store) > 0 {
      assert Knows(r.store, FirstUnassembled(r.store) - 1);
    }
  }

  /** What the relation promises to the two applications. */
  lemma LinkedMeaning(s: Sender, r: Receiver)
    requires Linked(s, r) && Short(s)
    ensures r.store.out.written <= s.stream.written
    ensures r.syn ==> s.lastAckno <= AbsoluteAck(r) <= s.nextSeqno
    ensures r.store.out.ended ==> s.stream.ended && r.store.out.written == s.stream.written
    ensures SummaryOfSender(s) == FIN_ACKED ==> r.store.out.ended && r.store.out.written == s.stream.written
  {
    InFlightIs(s);
    if r.syn { AckBounded(s, r); }
    if SummaryOfSender(s) == FIN_ACKED { FinAckedIff(s); }
  }

  // ---------------------------------------------------------------- what each end may do

  /** Any call on the sender that takes no acknowledgment. */
  lemma SenderMoves(s: Sender, t: Sender, r: Receiver)
    requires Linked(s, r) && SenderOk(t) && Onward(s, t) && t.lastAckno == s.lastAckno
    ensures Linked(t, r)
  {
    GrowFaithful(r.store, s.stream.written, t.stream.written);
  }

  /** The raw number of an acknowledgment is read as the number the receiver meant. */
  lemma AckRead(s: Sender, r: Receiver, ackno: u32)
    requires Linked(s, r) && Short(s) && AckedBy(ackno, s, r)
    ensures Unwrap(ackno, s.isn, s.lastAckno) == Absolute(ackno, s.isn) <= s.nextSeqno
  {
    InFlightIs(s);
    AckBounded(s, r);
    WrapOfAbsolute(ackno, s.isn);
    UnwrapOfWrapSmall(Absolute(ackno, s.isn), s.isn, s.lastAckno);
  }

  lemma AckArrives(s: Sender, r: Receiver, ackno: u32, win: u16)
    requires Linked(s, r) && Short(s) && AckedBy(ackno, s, r)
    ensures Linked(AfterAck(s, ackno, win), r)
    ensures AfterAck(s, ackno, win).lastAckno == Max(s.lastAckno, Absolute(ackno, s.isn))
  {
    AckRead(s, r, ackno);
    AckOk(s, ackno, win);
    AcknowledgedOk(s, ackno, win);
    FillOk(Acknowledged(s, ackno, win));
    FillExtends(Acknowledged(s, ackno, win));
    GrowFaithful(r.store, s.stream.written, AfterAck(s, ackno, win).stream.written);
  }

  lemma IndexOf(r: Receiver, seg: TCPSegment, a: nat)
    requires seg.header.seqno == Wrap(a, r.isn) && a < TWO31 && FirstUnassembled(r.store) < TWO31
    ensures StreamIndex(r, seg) == if a == 0 then TWO64 - 1 else a - 1
  {
    UnwrapOfWrapSmall(a, r.isn, FirstUnassembled(r.store));
  }

  /** A segment the sender emitted falls where the receiver puts it, repeated SYNs included. */
  lemma EmittedFits(s: Sender, r: Receiver, seg: TCPSegment)
    requires Linked(s, r) && Short(s) && Emitted(seg, s)
    ensures Fits(r, seg, s.stream.written)
    ensures r.syn && SequenceLength(seg) > 0 && !seg.header.syn ==>
              StreamIndex(r, seg) == Absolute(seg.header.seqno, s.isn) - 1
  {
    var a := Absolute(seg.header.seqno, s.isn);
    assert s.nextSeqno < TWO31 by { InFlightIs(s); }
    EmittedPlace(seg, s);
    if r.syn {
      assert seg.header.seqno == Wrap(a, s.isn) by { WrapOfAbsolute(seg.header.seqno, s.isn); }
      IndexOf(r, seg, a);
    }
  }

  lemma SegmentArrives(s: Sender, r: Receiver, seg: TCPSegment)
    requires Linked(s, r) && Short(s) && Emitted(seg, s)
    ensures Linked(s, AfterSegment(r, seg))
    ensures AbsoluteAck(r) <= AbsoluteAck(AfterSegment(r, seg)) && RightEdge(r) <= RightEdge(AfterSegment(r, seg))
    ensures r.syn ==> AfterSegment(r, seg).syn
  {
    EmittedFits(s, r, seg);
    SegmentFaithful(r, seg, s.stream.written);
    ReceiverStepForward(r, Arrives(seg));
    if r.syn {
      SynchronizedArrival(s, r, seg);
    } else if seg.header.syn {
      assert EmittedAt(seg, 0, s);
      WrapOfAbsolute(seg.header.seqno, s.isn);
      PushNothing(r.store, s.stream.written, 0);
    }
  }

  lemma SynchronizedArrival(s: Sender, r: Receiver, seg: TCPSegment)
    requires Linked(s, r) && Short(s) && Emitted(seg, s) && r.syn
    requires Fits(r, seg, s.stream.written)
    requires SequenceLength(seg) > 0 && !seg.header.syn ==> StreamIndex(r, seg) == Absolute(seg.header.seqno, s.isn) - 1
    requires AbsoluteAck(r) <= AbsoluteAck(AfterSegment(r, seg))
    ensures Linked(s, AfterSegment(r, seg))
  {
    var t := AfterSegment(r, seg);
    var a, index := Absolute(seg.header.seqno, s.isn), StreamIndex(r, seg);
    InFlightIs(s);
    EmittedPlace(seg, s);
    PushFaithful(r.store, s.stream.written, seg.payload, index, seg.header.fin);
    forall i: nat | Knows(t.store, i) ensures i + 1 < s.nextSeqno {
      if !Knows(r.store, i) {
        assert Covers(seg.payload, index, i);
      }
    }
  }

  lemma ReadHappens(s: Sender, r: Receiver, n: nat)
    requires Linked(s, r)
    ensures Linked(s, AfterRead(r, n))
    ensures AbsoluteAck(AfterRead(r, n)) == AbsoluteAck(r) && RightEdge(r) <= RightEdge(AfterRead(r, n))
  {
    ReadFaithful(r.store, s.stream.written, n);
  }

  /** The acknowledgment a receiver gives now. */
  lemma AckGiven(s: Sender, r: Receiver)
    requires Linked(s, r) && Short(s) && r.syn
    ensures Ackno(r).Some? && AckedBy(Ackno(r).value, s, r)
    ensures Absolute(Ackno(r).value, s.isn) == AbsoluteAck(r)
  {
    InFlightIs(s);
    AckBounded(s, r);
    AbsoluteOfWrap(AbsoluteAck(r), s.isn);
  }

  lemma FreshLinked(sendCapacity: nat, timeout: u16, isn: u32, recvCapacity: nat)
    ensures Linked(FreshSender(sendCapacity, timeout, isn), FreshReceiver(recvCapacity))
  {
    FreshSenderOk(sendCapacity, timeout, isn);
  }
}
