/** The sender as the source runs it, proved equal to the operations of `Senders`. */
module TcpSenders {
  import opened Words
  import opened WrappingIntegers
  import opened ByteStreams
  import opened Segments
  import opened Timers
  import opened Senders
  import opened Segmentation

  /**
   What is known of the fill loop's one segment variable: it is as fresh unless the
   loop has nothing further to send, so no stale payload or flag goes out.
   */
  predicate Reusable(seg: TCPSegment, s: Sender) {
    && seg.header == BlankHeader().(seqno := seg.header.seqno, fin := seg.header.fin)
    && (Eof(s.stream) || !seg.header.fin)
    && (seg == DataSegment([], false) || !Eof(s.stream) || FinSent(s) || RemainingWindow(s) == 0)
  }

  class TCPSender {
    const isn: u32
    var segmentsOut: seq<TCPSegment>
    const initialRto: u32
    const stream: ByteStream
    var nextSeqno: nat
    var rto: u32
    var retransmissions: u32
    var lastAckno: nat
    var lastWin: u16
    const timer: RetransmissionTimer
    var outstanding: seq<TCPSegment>

    ghost predicate Valid()
      reads this, stream, timer
    {
      stream.Valid() && Placed(State())
    }

    ghost function State(): Sender
      requires stream.Valid()
      reads this, stream, timer
    {
      Sender(isn, segmentsOut, initialRto, stream.State(), nextSeqno, rto, retransmissions,
             lastAckno, lastWin, timer.State(), outstanding)
    }

    constructor (capacity: nat, timeout: u16, isn: u32)
      ensures Valid() && State() == FreshSender(capacity, timeout, isn)
      ensures fresh(stream) && fresh(timer)
    {
      this.isn := isn;
      this.segmentsOut := [];
      this.initialRto := timeout;
      this.stream := new ByteStream(capacity);
      this.nextSeqno := 0;
      this.rto := timeout;
      this.retransmissions := 0;
      this.lastAckno := 0;
      this.lastWin := 1;
      this.timer := new RetransmissionTimer();
      this.outstanding := [];
    }

    function BytesInFlight(): (n: u64)
      requires stream.Valid()
      reads this, stream, timer
      ensures n == InFlight(State())
    {
      (nextSeqno - lastAckno) % TWO64
    }

    /** Numbers the caller's segment in place and queues two copies. */
    method SendSegment(seg: TCPSegment) returns (numbered: TCPSegment)
      requires stream.Valid()
      modifies this, timer
      ensures stream.Valid() && State() == AfterSend(old(State()), seg)
      ensures numbered == Numbered(old(State()), seg)
    {
      numbered := seg.(header := seg.header.(seqno := Wrap(nextSeqno, isn)));
      nextSeqno := nextSeqno + SequenceLength(seg);
      segmentsOut := segmentsOut + [numbered];
      outstanding := outstanding + [numbered];
      if !timer.isStarted {
        timer.Start(rto);
      }
    }

    method SendEmptySegment()
      requires Valid()
      modifies this`segmentsOut
      ensures Valid() && State() == AfterSendEmpty(old(State()))
    {
      segmentsOut := segmentsOut + [TCPSegment(BlankHeader().(seqno := Wrap(nextSeqno, isn)), [])];
    }

    /** Moves the next bytes of the stream into the loop's segment and decides on FIN. */
    method TakePayload(seg0: TCPSegment, remaining: nat) returns (seg: TCPSegment)
      requires stream.Valid() && remaining == RemainingWindow(State()) && !seg0.header.syn && !seg0.header.fin
      modifies stream
      ensures stream.Valid() && State() == Taken(old(State()))
      ensures seg == TCPSegment(seg0.header.(fin := FinRides(old(State()))), NextPayload(old(State())))
    {
      var payload := stream.Read(Min(MAX_PAYLOAD_SIZE, remaining));
      seg := seg0.(payload := payload);
      var fin := stream.AtEof() && SequenceLength(seg) < remaining;
      seg := seg.(header := seg.header.(fin := fin));
    }

    /** A pass of the fill loop while the stream is not at its end. */
    method DataRound(seg0: TCPSegment, remaining: nat) returns (seg: TCPSegment, done: bool)
      requires Valid() && Countable(State()) && lastAckno > 0 && Reusable(seg0, State())
      requires remaining == RemainingWindow(State()) > 0 && !Eof(State().stream)
      modifies this, stream, timer
      ensures Valid() && Countable(State()) && Reusable(seg, State())
      ensures lastAckno == old(lastAckno) && lastWin == old(lastWin)
      ensures !done ==> |stream.buff| < |old(stream.buff)|
      ensures AfterFillLoop(old(State())) == if done then State() else AfterFillLoop(State())
    {
      ghost var s := State();
      DataPass(s);
      seg := TakePayload(seg0, remaining);
      RoundReusable(s, seg0, seg);
      done := SequenceLength(seg) == 0;
      if !done {
        seg := SendSegment(seg);
      }
    }

    /** The pass of the fill loop that finds the stream at its end: FIN if still due. */
    method FinRound(seg0: TCPSegment) returns (seg: TCPSegment)
      requires Valid() && Countable(State()) && lastAckno > 0 && Reusable(seg0, State())
      requires RemainingWindow(State()) > 0 && Eof(State().stream)
      modifies this, timer
      ensures Valid() && State() == AfterFillLoop(old(State()))
      ensures lastAckno == old(lastAckno) && lastWin == old(lastWin)
    {
      ghost var s := State();
      seg := seg0;
      InFlightIs(s);
      if nextSeqno < stream.bytesWritten + 2 {
        FinExtends(s);
        seg := seg.(header := seg.header.(fin := true));
        seg := SendSegment(seg);
      }
    }

    /** What the window leaves to send, as an unsigned difference. */
    function Remaining(curWin: u16): (n: u64)
      requires stream.Valid() && curWin == CurrentWindow(State())
      reads this, stream, timer
      ensures n == RemainingWindow(State())
    {
      (curWin - BytesInFlight()) % TWO64
    }

    /** One pass of the fill loop. */
    method Pass(seg0: TCPSegment, remaining: nat) returns (seg: TCPSegment, done: bool)
      requires Valid() && Countable(State()) && lastAckno > 0 && Reusable(seg0, State())
      requires remaining == RemainingWindow(State()) > 0
      modifies this, stream, timer
      ensures Valid() && lastAckno == old(lastAckno) && lastWin == old(lastWin)
      ensures !done ==> Countable(State()) && Reusable(seg, State()) && |stream.buff| < |old(stream.buff)|
      ensures AfterFillLoop(old(State())) == if done then State() else AfterFillLoop(State())
    {
      InFlightIs(State());
      if !stream.AtEof() && nextSeqno > BytesInFlight() {
        seg, done := DataRound(seg0, remaining);
      } else {
        seg := FinRound(seg0);
        done := true;
      }
    }

    /** The `while` of `fill_window`, entered once SYN has been acknowledged. */
    method FillLoop(seg0: TCPSegment)
      requires Valid() && Countable(State()) && lastAckno > 0 && seg0 == DataSegment([], false)
      modifies this, stream, timer
      ensures Valid() && State() == AfterFillLoop(old(State()))
    {
      var seg, done := seg0, false;
      var curWin: u16 := if lastWin == 0 then 1 else lastWin;
      while !done && Remaining(curWin) != 0
        invariant Valid() && curWin == CurrentWindow(State()) && lastAckno > 0
        invariant !done ==> Countable(State()) && Reusable(seg, State())
        invariant AfterFillLoop(old(State())) == if done then State() else AfterFillLoop(State())
        decreases !done, |stream.buff|
      {
        seg, done := Pass(seg, Remaining(curWin));
      }
    }

    method FillWindow()
      requires Valid() && Countable(State())
      modifies this, stream, timer
      ensures Valid() && State() == AfterFill(old(State()))
    {
      var seg := TCPSegment(BlankHeader(), []);
      InFlightIs(State());
      if nextSeqno == 0 {
        FillExtends(State());
        seg := seg.(header := seg.header.(syn := true));
        seg := SendSegment(seg);
        return;
      } else if nextSeqno > 0 && nextSeqno == BytesInFlight() {
        return;
      }
      FillLoop(seg);
    }

    /** The loop that drops acknowledged segments from the front of the queue. */
    method PopOutstanding(ackno: u32)
      modifies this`outstanding
      ensures outstanding == PopAcked(old(outstanding), ackno)
    {
      while outstanding != []
        invariant PopAcked(outstanding, ackno) == PopAcked(old(outstanding), ackno)
        decreases |outstanding|
      {
        var seg := outstanding[0];
        if seg.header.seqno + SequenceLength(seg) <= ackno {
          outstanding := outstanding[1..];
        } else {
          break;
        }
      }
    }

    /** The part of `ack_received` that an acknowledgment of new data runs. */
    method Advance(absAck: nat, ackno: u32)
      requires Valid() && lastAckno < absAck <= nextSeqno
      modifies this, timer
      ensures Valid() && State() == Advanced(old(State()), absAck, ackno)
    {
      lastAckno := absAck;
      PopOutstanding(ackno);
      retransmissions := 0;
      rto := initialRto;
      if outstanding != [] {
        timer.Start(rto);
      } else {
        timer.Stop();
      }
    }

    method AckReceived(ackno: u32, win: u16)
      requires Valid() && Countable(State())
      modifies this, stream, timer
      ensures Valid() && State() == AfterAck(old(State()), ackno, win)
    {
      var absAck := Unwrap(ackno, isn, lastAckno);
      if absAck > nextSeqno {
        return;
      }
      if absAck > lastAckno {
        Advance(absAck, ackno);
      }
      lastWin := win;
      FillWindow();
    }

    method Tick(ms: nat)
      requires Valid()
      modifies this, timer
      ensures Valid() && State() == AfterTick(old(State()), ms)
    {
      timer.Tick(ms);
      if outstanding != [] && timer.isExpired && timer.isStarted {
        segmentsOut := segmentsOut + [outstanding[0]];
        if lastWin > 0 {
          retransmissions := (retransmissions + 1) % TWO32;
          rto := (rto * 2) % TWO32;
        }
        timer.Start(rto);
      } else if outstanding == [] {
        timer.Stop();
      }
    }
  }

  /** After a data pass the segment variable is again as it must be, and what went out is as if it had been fresh. */
  lemma RoundReusable(s: Sender, seg0: TCPSegment, seg: TCPSegment)
    requires Placed(s) && Countable(s) && s.lastAckno > 0 && RemainingWindow(s) > 0 && !Eof(s.stream)
    requires Reusable(seg0, s) && seg == TCPSegment(seg0.header.(fin := FinRides(s)), NextPayload(s))
    ensures if NextPayload(s) == [] then Reusable(seg, s)
            else
              var t := AfterSend(Taken(s), DataSegment(NextPayload(s), FinRides(s)));
              AfterSend(Taken(s), seg) == t && Reusable(Numbered(Taken(s), seg), t)
  {
    DataPass(s);
  }

  /** What one data pass amounts to on the value. */
  lemma DataPass(s: Sender)
    requires Placed(s) && Countable(s) && s.lastAckno > 0 && RemainingWindow(s) > 0 && !Eof(s.stream)
    ensures var t := AfterSend(Taken(s), DataSegment(NextPayload(s), FinRides(s)));
            if NextPayload(s) == [] then
              !FinRides(s) && AfterFillLoop(s) == Taken(s) == s
            else
              && AfterFillLoop(s) == AfterFillLoop(t) && Placed(t)
              && (Eof(t.stream) ==> FinSent(t) || RemainingWindow(t) == 0)
              && (FinRides(s) ==> Eof(t.stream))
  {
    InFlightIs(s);
    if NextPayload(s) != [] {
      RoundExtends(s);
      InFlightIs(AfterSend(Taken(s), DataSegment(NextPayload(s), FinRides(s))));
    }
  }
}
