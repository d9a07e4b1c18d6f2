/** The receiving half of a connection. */
module Receivers {
  import opened Words
  import opened WrappingIntegers
  import opened ByteStreams
  import opened Stores
  import opened Reassembly
  import opened Segments

  datatype Receiver = Receiver(store: Store, syn: bool, isn: u32)

  function FreshReceiver(capacity: nat): Receiver {
    Receiver(EmptyStore(capacity), false, 0)
  }

  /** Stream index of a segment's first payload byte; SYN's own number 0 wraps to 2^64 - 1. */
  function StreamIndex(r: Receiver, seg: TCPSegment): u64 {
    (Unwrap(seg.header.seqno, r.isn, FirstUnassembled(r.store)) - 1) % TWO64
  }

  function AfterSegment(r: Receiver, seg: TCPSegment): Receiver {
    if !r.syn then
      if !seg.header.syn then r
      else r.(syn := true, isn := seg.header.seqno, store := Push(r.store, seg.payload, 0, seg.header.fin))
    else
      r.(store := Push(r.store, seg.payload, StreamIndex(r, seg), seg.header.fin))
  }

  function AfterRead(r: Receiver, n: nat): Receiver {
    r.(store := ReadOut(r.store, n))
  }

  function AfterReceiverError(r: Receiver): Receiver {
    r.(store := r.store.(out := AfterError(r.store.out)))
  }

  /** The next absolute sequence number the receiver wants. */
  function AbsoluteAck(r: Receiver): nat {
    FirstUnassembled(r.store) + 1 + (if r.store.out.ended then 1 else 0)
  }

  function Ackno(r: Receiver): Option<u32> {
    if r.syn then Some(Wrap(AbsoluteAck(r), r.isn)) else None
  }

  function WindowSize(r: Receiver): nat {
    FirstUnacceptable(r.store) - FirstUnassembled(r.store)
  }

  /** The window as it fits in a header. */
  function AdvertisedWindow(r: Receiver): u16 {
    Min(WindowSize(r), TWO16 - 1)
  }

  /** First absolute sequence number past the advertised window. */
  function RightEdge(r: Receiver): nat {
    AbsoluteAck(r) + AdvertisedWindow(r)
  }

  /** The segment's payload falls on `S` where this receiver will place it. */
  ghost predicate Fits(r: Receiver, seg: TCPSegment, S: seq<byte>) {
    if !r.syn then seg.header.syn ==> IsSlice(S, seg.payload, 0, seg.header.fin)
    else IsSlice(S, seg.payload, StreamIndex(r, seg), seg.header.fin)
  }

  /**
   What an arriving segment does, in full. The first SYN fixes the numbering, and
   nothing counts before it. From then on exactly the bytes below the window's edge
   become known, at the place the segment's number unwraps to (the start of the
   stream for the first SYN), and the end if there is a FIN; the number wanted next
   is the first byte not known.
   */
  lemma SegmentTakes(r: Receiver, seg: TCPSegment, S: seq<byte>)
    requires Faithful(r.store, S) && Fits(r, seg, S)
    ensures var t := AfterSegment(r, seg);
            var abs := Unwrap(seg.header.seqno, r.isn, FirstUnassembled(r.store));
            var at: nat := if r.syn then (abs - 1) % TWO64 else 0;
            && (t.syn <==> r.syn || seg.header.syn)
            && t.isn == (if !r.syn && seg.header.syn then seg.header.seqno else r.isn)
            && (!t.syn ==> t == r)
            && (t.syn ==>
                  && (forall i: nat :: Knows(t.store, i) <==>
                        || Knows(r.store, i)
                        || (Covers(seg.payload, at, i) && i < FirstUnassembled(r.store) + WindowSize(r)))
                  && (t.store.eof <==> r.store.eof || seg.header.fin))
            && !Knows(t.store, FirstUnassembled(t.store))
            && (t.store.out.ended <==> t.store.eof && FirstUnassembled(t.store) == |S|)
  {
    if r.syn {
      PushFaithful(r.store, S, seg.payload, StreamIndex(r, seg), seg.header.fin);
    } else if seg.header.syn {
      PushFaithful(r.store, S, seg.payload, 0, seg.header.fin);
    }
  }

  lemma SegmentFaithful(r: Receiver, seg: TCPSegment, S: seq<byte>)
    requires Faithful(r.store, S) && Fits(r, seg, S)
    ensures var t := AfterSegment(r, seg);
            && Faithful(t.store, S)
            && r.store.out.written <= t.store.out.written
            && (r.syn ==> t.syn && t.isn == r.isn)
            && (r.store.eof ==> t.store.eof)
            && t.store.out.read == r.store.out.read && t.store.out.capacity == r.store.out.capacity
            && t.store.out.error == r.store.out.error
  {
    if r.syn {
      PushFaithful(r.store, S, seg.payload, StreamIndex(r, seg), seg.header.fin);
    } else if seg.header.syn {
      PushFaithful(r.store, S, seg.payload, 0, seg.header.fin);
    }
  }

  // ---------------------------------------------------------------- what never goes back

  datatype ReceiverEvent = Arrives(seg: TCPSegment) | Reads(n: nat)

  function ReceiverNext(r: Receiver, e: ReceiverEvent): Receiver {
    match e
    case Arrives(seg) => AfterSegment(r, seg)
    case Reads(n) => AfterRead(r, n)
  }

  function ReceiverRun(r: Receiver, es: seq<ReceiverEvent>): Receiver
    decreases |es|
  {
    if es == [] then r else ReceiverRun(ReceiverNext(r, es[0]), es[1..])
  }

  /** Every arriving segment falls on `S`. */
  ghost predicate AllFit(r: Receiver, es: seq<ReceiverEvent>, S: seq<byte>)
    decreases |es|
  {
    es == [] || ((es[0].Arrives? ==> Fits(r, es[0].seg, S)) && AllFit(ReceiverNext(r, es[0]), es[1..], S))
  }

  lemma ReceiverStepForward(r: Receiver, e: ReceiverEvent)
    ensures var t := ReceiverNext(r, e);
            && AbsoluteAck(r) <= AbsoluteAck(t) && RightEdge(r) <= RightEdge(t)
            && r.store.out.written <= t.store.out.written
            && (r.syn ==> t.syn && t.isn == r.isn)
  {
    if e.Arrives? && r.syn {
      PushForward(r.store, e.seg.payload, StreamIndex(r, e.seg), e.seg.header.fin);
    } else if e.Arrives? {
      PushForward(r.store, e.seg.payload, 0, e.seg.header.fin);
    }
  }

  /**
   Over every run, of any segments at all, the acknowledgment number never
   decreases, the advertised right edge never retracts, and the assembled bytes
   only grow.
   */
  lemma {:induction false} ReceiverRunForward(r: Receiver, es: seq<ReceiverEvent>)
    ensures var t := ReceiverRun(r, es);
            && AbsoluteAck(r) <= AbsoluteAck(t) && RightEdge(r) <= RightEdge(t)
            && r.store.out.written <= t.store.out.written
            && (r.syn ==> t.syn && t.isn == r.isn)
    decreases |es|
  {
    if es != [] {
      ReceiverStepForward(r, es[0]);
      ReceiverRunForward(ReceiverNext(r, es[0]), es[1..]);
    }
  }

  /** When the segments fall on one stream, the assembled bytes are always a prefix of it. */
  lemma {:induction false} ReceiverRunFaithful(r: Receiver, es: seq<ReceiverEvent>, S: seq<byte>)
    requires Faithful(r.store, S) && AllFit(r, es, S)
    ensures Faithful(ReceiverRun(r, es).store, S)
    ensures ReceiverRun(r, es).store.out.written <= S
    decreases |es|
  {
    if es != [] {
      if es[0].Arrives? {
        SegmentFaithful(r, es[0].seg, S);
      } else {
        ReadFaithful(r.store, S, es[0].n);
      }
      ReceiverRunFaithful(ReceiverNext(r, es[0]), es[1..], S);
    }
  }

  // ---------------------------------------------------------------- the object

  class TCPReceiver {
    const reassembler: StreamReassembler
    const capacity: nat
    var syn: bool
    var isn: u32

    ghost const output: ByteStream

    ghost predicate Valid()
      reads this, reassembler, output
    {
      output == reassembler.output && reassembler.Valid() && reassembler.capacity == capacity
    }

    ghost function State(): Receiver
      requires Valid()
      reads this, reassembler, output
    {
      Receiver(reassembler.State(), syn, isn)
    }

    constructor (capacity: nat)
      ensures Valid() && State() == FreshReceiver(capacity)
      ensures fresh(reassembler) && fresh(output)
    {
      var r := new StreamReassembler(capacity);
      this.reassembler := r;
      this.output := r.output;
      this.capacity := capacity;
      this.syn := false;
      this.isn := 0;
    }

    function AckNumber(): (a: Option<u32>)
      requires Valid()
      reads this, reassembler, output
      ensures a == Ackno(State())
    {
      if !syn then None
      else
        var ackno := reassembler.FirstUnassembled() + 1;
        Some(Wrap(if reassembler.output.inputEnded then ackno + 1 else ackno, isn))
    }

    function Window(): (w: nat)
      requires Valid()
      reads this, reassembler, output
      ensures w == WindowSize(State())
    {
      reassembler.FirstUnacceptable() - reassembler.FirstUnassembled()
    }

    /** The first SYN. */
    method Synchronize(seg: TCPSegment, ghost S: seq<byte>)
      requires Valid() && !syn && seg.header.syn && Faithful(State().store, S) && Fits(State(), seg, S)
      modifies this, reassembler, output
      ensures Valid() && State() == AfterSegment(old(State()), seg)
    {
      isn := seg.header.seqno;
      syn := true;
      reassembler.PushSubstring(seg.payload, 0, seg.header.fin, S);
    }

    method SegmentReceived(seg: TCPSegment, ghost S: seq<byte>)
      requires Valid() && Faithful(State().store, S) && Fits(State(), seg, S)
      modifies this, reassembler, output
      ensures Valid() && State() == AfterSegment(old(State()), seg)
    {
      if !syn {
        if seg.header.syn {
          Synchronize(seg, S);
        }
        return;
      }
      var absSeqno := Unwrap(seg.header.seqno, isn, reassembler.FirstUnassembled());
      var index := (absSeqno - 1) % TWO64;
      assert index == StreamIndex(State(), seg);
      reassembler.PushSubstring(seg.payload, index, seg.header.fin, S);
    }
  }
}
