/** The endpoint as the source runs it, proved equal to the operations of `Connections`. */
module TcpConnections {
  import opened Words
  import opened ByteStreams
  import opened Stores
  import opened Reassembly
  import opened Segments
  import opened Receivers
  import opened Timers
  import opened Senders
  import opened Segmentation
  import opened SenderRuns
  import opened TcpSenders
  import opened TcpStates
  import opened Connections

  /** `TCPState::state_summary` on the sender object. */
  function SenderSummaryOf(s: TCPSender): (r: SenderSummary)
    requires s.Valid()
    reads s, s.stream, s.timer
    ensures r == SummaryOfSender(s.State())
  {
    if s.stream.error then SENDER_ERROR
    else if s.nextSeqno == 0 then CLOSED
    else if s.nextSeqno == s.BytesInFlight() then SYN_SENT
    else if !s.stream.AtEof() then SYN_ACKED
    else if s.nextSeqno < s.stream.bytesWritten + 2 then SYN_ACKED
    else if s.BytesInFlight() > 0 then FIN_SENT
    else FIN_ACKED
  }

  /** `TCPState::state_summary` on the receiver object. */
  function ReceiverSummaryOf(r: TCPReceiver): (s: ReceiverSummary)
    requires r.Valid()
    reads r, r.reassembler, r.output
    ensures s == SummaryOfReceiver(r.State())
  {
    if r.reassembler.output.error then RECEIVER_ERROR
    else if r.AckNumber() == None then LISTEN
    else if r.reassembler.output.inputEnded then FIN_RECV
    else SYN_RECV
  }

  class TCPConnection {
    const rtTimeout: u16
    const receiver: TCPReceiver
    const sender: TCPSender
    var segmentsOut: seq<TCPSegment>
    var linger: bool
    var isActive: bool
    var sinceReceived: nat

    ghost predicate Valid()
      reads this, sender, sender.stream, sender.timer, receiver, receiver.reassembler, receiver.output
    {
      && sender.Valid() && receiver.Valid()
      && sender.stream != receiver.output
      && Countable(sender.State())
    }

    ghost function State(): Connection
      requires sender.stream.Valid() && receiver.Valid()
      reads this, sender, sender.stream, sender.timer, receiver, receiver.reassembler, receiver.output
    {
      Connection(rtTimeout, receiver.State(), sender.State(), segmentsOut, linger, isActive, sinceReceived)
    }

    constructor (rtTimeout: u16, recvCapacity: nat, sendCapacity: nat, isn: u32)
      ensures Valid() && State() == FreshConnection(rtTimeout, recvCapacity, sendCapacity, isn)
      ensures fresh(sender) && fresh(sender.stream) && fresh(sender.timer)
      ensures fresh(receiver) && fresh(receiver.reassembler) && fresh(receiver.output)
    {
      this.rtTimeout := rtTimeout;
      this.receiver := new TCPReceiver(recvCapacity);
      this.sender := new TCPSender(sendCapacity, rtTimeout, isn);
      this.segmentsOut := [];
      this.linger := true;
      this.isActive := true;
      this.sinceReceived := 0;
    }

    /** Fills in what the receiver has to say, as both places that queue a segment do. */
    method Stamp(seg: TCPSegment) returns (r: TCPSegment)
      requires Valid()
      ensures r == Stamped(receiver.State(), seg)
    {
      r := seg;
      var a := receiver.AckNumber();
      if a.Some? {
        var w := receiver.Window();
        r := r.(header := r.header.(ack := true, ackno := a.value, win := if w <= 65535 then w else 65535));
      }
    }

    /** Drains the sender's queue into the connection's. */
    method SendSegment()
      requires Valid()
      modifies this`segmentsOut, sender`segmentsOut
      ensures Valid() && State() == Flushed(old(State()))
    {
      while sender.segmentsOut != []
        invariant Valid()
        invariant segmentsOut + StampedAll(receiver.State(), sender.segmentsOut) ==
                    old(segmentsOut) + StampedAll(receiver.State(), old(sender.segmentsOut))
        invariant State() == old(State()).(sender := old(State()).sender.(segmentsOut := sender.segmentsOut),
                                           segmentsOut := segmentsOut)
        decreases |sender.segmentsOut|
      {
        var seg := sender.segmentsOut[0];
        sender.segmentsOut := sender.segmentsOut[1..];
        seg := Stamp(seg);
        segmentsOut := segmentsOut + [seg];
      }
    }

    method CleanShutdown()
      requires Valid()
      modifies this`linger, this`isActive
      ensures Valid() && State() == Connections.CleanShutdown(old(State()))
    {
      if receiver.reassembler.output.inputEnded && !sender.stream.AtEof() {
        linger := false;
      } else if SenderSummaryOf(sender) == FIN_ACKED && ReceiverSummaryOf(receiver) == FIN_RECV {
        if !linger || sinceReceived >= 10 * rtTimeout {
          isActive := false;
        }
      }
    }

    method UncleanShutdown()
      requires Valid()
      modifies this`isActive, sender.stream`error, receiver.output`error
      ensures Valid() && State() == Connections.UncleanShutdown(old(State()))
    {
      sender.stream.SetError();
      receiver.reassembler.output.SetError();
      isActive := false;
    }

    method FillWindow()
      requires Valid()
      modifies sender, sender.stream, sender.timer
      ensures Valid() && State() == Filled(old(State()))
    {
      FillKeepsWritten(sender.State());
      sender.FillWindow();
    }

    method Connect()
      requires Valid()
      modifies this`segmentsOut, sender, sender.stream, sender.timer
      ensures Valid() && State() == AfterConnect(old(State()))
    {
      FillWindow();
      SendSegment();
    }

    method Write(data: seq<byte>) returns (len: nat)
      requires Valid() && (isActive ==> Countable(AfterAppWrite(sender.State(), data)))
      modifies this`segmentsOut, sender, sender.stream, sender.timer
      ensures Valid() && State() == AfterConnWrite(old(State()), data)
      ensures len == if !old(isActive) || old(sender.stream.inputEnded) then 0
                     else Min(|data|, old(sender.stream.RemainingCapacity()))
      ensures State().sender.stream.written == old(State().sender.stream.written) + data[..len]
    {
      if !isActive || data == [] {
        return 0;
      }
      len := sender.stream.Write(data);
      FillKeepsWritten(sender.State());
      Connect();
    }

    method EndInputStream()
      requires Valid()
      modifies this`segmentsOut, sender, sender.stream, sender.timer
      ensures Valid() && State() == AfterEndInput(old(State()))
    {
      sender.stream.EndInput();
      Connect();
    }

    method SendRstSegment()
      requires Valid()
      modifies this`segmentsOut, sender, sender.stream, sender.timer
      ensures Valid() && State() == RstSent(old(State()))
    {
      FillWindow();
      if sender.segmentsOut == [] {
        sender.SendEmptySegment();
        return;
      }
      var seg := sender.segmentsOut[0];
      sender.segmentsOut := sender.segmentsOut[1..];
      seg := Stamp(seg);
      seg := seg.(header := seg.header.(rst := true));
      segmentsOut := segmentsOut + [seg];
    }

    /** The end of `tick`, after the clock has moved. */
    method Conclude()
      requires Valid()
      modifies this, sender, sender.stream, sender.timer, receiver.output`error
      ensures Valid() && State() == Concluded(old(State()))
    {
      if sender.retransmissions > MAX_RETX_ATTEMPTS {
        SendRstSegment();
        UncleanShutdown();
        return;
      }
      SendSegment();
      CleanShutdown();
    }

    method PassTime(ms: nat)
      requires Valid()
      modifies this`sinceReceived, sender, sender.timer
      ensures Valid() && State() == TimePassed(old(State()), ms)
    {
      sender.Tick(ms);
      sinceReceived := sinceReceived + ms;
    }

    method Tick(ms: nat)
      requires Valid()
      modifies this, sender, sender.stream, sender.timer, receiver.output`error
      ensures Valid() && State() == AfterConnTick(old(State()), ms)
    {
      if !isActive {
        return;
      }
      PassTime(ms);
      Conclude();
    }

    method TakeAck(seg: TCPSegment)
      requires Valid()
      modifies sender, sender.stream, sender.timer
      ensures Valid() && State() == old(State()).(sender := AckTaken(old(sender.State()), seg))
    {
      if seg.header.ack {
        FillKeepsWritten(Acknowledged(sender.State(), seg.header.ackno, seg.header.win));
        sender.AckReceived(seg.header.ackno, seg.header.win);
      }
    }

    method Reply(seg: TCPSegment)
      requires Valid()
      modifies sender`segmentsOut
      ensures Valid() && State() == old(State()).(sender := Replied(old(sender.State()), seg))
    {
      if SequenceLength(seg) > 0 && sender.segmentsOut == [] {
        sender.SendEmptySegment();
      }
    }

    method AnswerKeepAlive(seg: TCPSegment)
      requires Valid()
      modifies sender`segmentsOut
      ensures Valid() && State() == old(State()).(sender := KeptAlive(old(sender.State()), receiver.State(), seg))
    {
      var a := receiver.AckNumber();
      if a.Some? && SequenceLength(seg) == 0 && seg.header.seqno == (a.value - 1) % TWO32 {
        sender.SendEmptySegment();
      }
    }

    /** The part of `segment_received` after the receiver's turn. */
    method Respond(seg: TCPSegment)
      requires Valid()
      modifies this, sender, sender.stream, sender.timer
      ensures Valid() && State() == Responded(old(State()), seg)
    {
      if ReceiverSummaryOf(receiver) == SYN_RECV && SenderSummaryOf(sender) == CLOSED {
        Connect();
        return;
      }
      TakeAck(seg);
      Reply(seg);
      AnswerKeepAlive(seg);
      SendSegment();
      CleanShutdown();
    }

    method Hear(seg: TCPSegment, ghost S: seq<byte>)
      requires Valid() && Faithful(receiver.State().store, S) && Fits(receiver.State(), seg, S)
      requires sinceReceived == 0
      modifies receiver, receiver.reassembler, receiver.output
      ensures Valid() && State() == Heard(old(State()), seg)
    {
      receiver.SegmentReceived(seg, S);
    }

    /** `S` is the stream the peer is sending; see `Fits`. */
    method SegmentReceived(seg: TCPSegment, ghost S: seq<byte>)
      requires Valid() && Faithful(receiver.State().store, S) && Fits(receiver.State(), seg, S)
      modifies this, sender, sender.stream, sender.timer, receiver, receiver.reassembler, receiver.output
      ensures Valid() && State() == AfterConnSegment(old(State()), seg)
    {
      if !isActive {
        return;
      }
      sinceReceived := 0;
      if seg.header.rst {
        UncleanShutdown();
        return;
      }
      Hear(seg, S);
      Respond(seg);
    }
  }
}
