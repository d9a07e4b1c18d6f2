/** The official state summaries of a sender and a receiver. */
module TcpStates {
  import opened Words
  import opened ByteStreams
  import opened Receivers
  import opened Senders
  import opened Segmentation
  import opened SenderRuns

  datatype SenderSummary = SENDER_ERROR | CLOSED | SYN_SENT | SYN_ACKED | FIN_SENT | FIN_ACKED

  datatype ReceiverSummary = RECEIVER_ERROR | LISTEN | SYN_RECV | FIN_RECV

  function SummaryOfSender(s: Sender): SenderSummary {
    if s.stream.error then SENDER_ERROR
    else if s.nextSeqno == 0 then CLOSED
    else if s.nextSeqno == InFlight(s) then SYN_SENT
    else if !Eof(s.stream) then SYN_ACKED
    else if s.nextSeqno < |s.stream.written| + 2 then SYN_ACKED
    else if InFlight(s) > 0 then FIN_SENT
    else FIN_ACKED
  }

  function SummaryOfReceiver(r: Receiver): ReceiverSummary {
    if r.store.out.error then RECEIVER_ERROR
    else if Ackno(r) == None then LISTEN
    else if r.store.out.ended then FIN_RECV
    else SYN_RECV
  }

  function SenderRank(s: SenderSummary): nat {
    match s
    case CLOSED => 0
    case SYN_SENT => 1
    case SYN_ACKED => 2
    case FIN_SENT => 3
    case FIN_ACKED => 4
    case SENDER_ERROR => 5
  }

  function ReceiverRank(r: ReceiverSummary): nat {
    match r
    case LISTEN => 0
    case SYN_RECV => 1
    case FIN_RECV => 2
    case RECEIVER_ERROR => 3
  }

  /** A sender whose numbers go forward never falls back to an earlier summary. */
  lemma SenderForward(s: Sender, t: Sender)
    requires SenderOk(s) && SenderOk(t) && Countable(t) && Onward(s, t)
    ensures SenderRank(SummaryOfSender(s)) <= SenderRank(SummaryOfSender(t))
  {
    InFlightIs(s);
    InFlightIs(t);
  }

  /** What each summary of a sender says, by the numbers. */
  lemma SenderSummaryIff(s: Sender)
    requires SenderOk(s) && Countable(s) && !s.stream.error
    ensures SummaryOfSender(s) == CLOSED <==> s.nextSeqno == 0
    ensures SummaryOfSender(s) == SYN_SENT <==> s.nextSeqno > 0 && s.lastAckno == 0
    ensures SummaryOfSender(s) == SYN_ACKED <==> 0 < s.lastAckno && s.nextSeqno < |s.stream.written| + 2
    ensures SummaryOfSender(s) == FIN_SENT <==>
              0 < s.lastAckno < s.nextSeqno && s.nextSeqno == |s.stream.written| + 2
  {
    InFlightIs(s);
  }

  lemma ReceiverSummaryIff(r: Receiver)
    requires !r.store.out.error
    ensures SummaryOfReceiver(r) == LISTEN <==> !r.syn
    ensures SummaryOfReceiver(r) == SYN_RECV <==> r.syn && !r.store.out.ended
    ensures SummaryOfReceiver(r) == FIN_RECV <==> r.syn && r.store.out.ended
  {
  }

  /** Exactly when the summary says that FIN has been acknowledged. */
  lemma FinAckedIff(s: Sender)
    requires SenderOk(s) && Countable(s) && !s.stream.error
    ensures SummaryOfSender(s) == FIN_ACKED <==> s.lastAckno == |s.stream.written| + 2
  {
    InFlightIs(s);
  }
}
