/**
 Every run of one sender and one receiver over a network that loses, repeats and
 reorders: delivery may pick any segment ever emitted and any acknowledgment ever given.
 */
module LinkRuns {
  import opened Words
  import opened WrappingIntegers
  import opened Segments
  import opened Receivers
  import opened Senders
  import opened Segmentation
  import opened SenderProofs
  import opened SenderRuns
  import opened SenderTheorems
  import opened TcpStates
  import opened Links

  datatype Ack = Ack(ackno: u32, win: u16)

  /** `wire` and `acks` hold everything ever emitted; `seen` is one past the acknowledgment delivered last. */
  datatype Link = Link(sender: Sender, receiver: Receiver, wire: set<TCPSegment>, acks: seq<Ack>, seen: nat)

  datatype LinkEvent =
    | AtSender(call: SenderEvent)
    | Deliver(seg: TCPSegment)
    | GiveAck
    | DeliverAck(k: nat)
    | AppReads(n: nat)

  function FreshLink(sendCapacity: nat, timeout: u16, isn: u32, recvCapacity: nat): Link {
    Link(FreshSender(sendCapacity, timeout, isn), FreshReceiver(recvCapacity), {}, [], 0)
  }

  /** The owner moves the sender's queue onto the wire after each call. */
  function Posted(l: Link, s: Sender): Link {
    l.(sender := s.(segmentsOut := []), wire := l.wire + set seg | seg in s.segmentsOut)
  }

  predicate Enabled(l: Link, e: LinkEvent) {
    match e
    case AtSender(call) => !call.Acks?
    case Deliver(seg) => seg in l.wire
    case GiveAck => l.receiver.syn
    case DeliverAck(k) => k < |l.acks|
    case AppReads(n) => true
  }

  function LinkNext(l: Link, e: LinkEvent): Link
    requires Enabled(l, e)
  {
    match e
    case AtSender(call) => Posted(l, SenderNext(l.sender, call))
    case Deliver(seg) => l.(receiver := AfterSegment(l.receiver, seg))
    case GiveAck => l.(acks := l.acks + [Ack(Ackno(l.receiver).value, AdvertisedWindow(l.receiver))])
    case DeliverAck(k) => Posted(l, AfterAck(l.sender, l.acks[k].ackno, l.acks[k].win)).(seen := k + 1)
    case AppReads(n) => l.(receiver := AfterRead(l.receiver, n))
  }

  /** The link after a run, if every event was possible in its turn. */
  function LinkRun(l: Link, es: seq<LinkEvent>): Option<Link> {
    if es == [] then Some(l)
    else
      var m := LinkRun(l, es[..|es| - 1]);
      if m.Some? && Enabled(m.value, es[|es| - 1]) then Some(LinkNext(m.value, es[|es| - 1])) else None
  }

  ghost predicate LinkInv(l: Link) {
    && Linked(l.sender, l.receiver)
    && l.sender.segmentsOut == []
    && (forall seg :: seg in l.wire ==> Emitted(seg, l.sender))
    && (forall k :: 0 <= k < |l.acks| ==> AckedBy(l.acks[k].ackno, l.sender, l.receiver))
  }

  // ---------------------------------------------------------------- one step

  lemma PostedInv(l: Link, s: Sender)
    requires LinkInv(l) && Linked(s, l.receiver) && Onward(l.sender, s) && OutOk(s)
    ensures LinkInv(Posted(l, s))
  {
    var t := s.(segmentsOut := []);
    forall seg | seg in Posted(l, s).wire ensures Emitted(seg, t) {
      if seg in l.wire {
        OnwardEmitted(seg, l.sender, t);
      } else {
        OnwardEmitted(seg, s, t);
      }
    }
  }

  lemma CallKeepsAck(s: Sender, e: SenderEvent)
    requires !e.Acks? && SenderOk(s) && Short(s)
    ensures SenderNext(s, e).lastAckno == s.lastAckno && SenderNext(s, e).lastWin == s.lastWin
  {
    if e.Fills? { FillExtends(s); }
  }

  lemma ReceiverMovesInv(l: Link, r: Receiver)
    requires LinkInv(l) && Linked(l.sender, r)
    requires AbsoluteAck(l.receiver) <= AbsoluteAck(r) && (l.receiver.syn ==> r.syn)
    ensures LinkInv(l.(receiver := r))
  {
  }

  lemma LinkStep(l: Link, e: LinkEvent)
    requires LinkInv(l) && Short(l.sender) && Enabled(l, e)
    ensures LinkInv(LinkNext(l, e))
  {
    var s, r := l.sender, l.receiver;
    match e
    case AtSender(call) =>
      SenderStepOk(s, call);
      CallKeepsAck(s, call);
      SenderMoves(s, SenderNext(s, call), r);
      PostedInv(l, SenderNext(s, call));
    case Deliver(seg) =>
      SegmentArrives(s, r, seg);
      ReceiverMovesInv(l, AfterSegment(r, seg));
    case GiveAck =>
      AckGiven(s, r);
    case DeliverAck(k) =>
      AckArrives(s, r, l.acks[k].ackno, l.acks[k].win);
      AckOk(s, l.acks[k].ackno, l.acks[k].win);
      PostedInv(l, AfterAck(s, l.acks[k].ackno, l.acks[k].win));
    case AppReads(n) =>
      ReadHappens(s, r, n);
      ReceiverMovesInv(l, AfterRead(r, n));
  }

  lemma LinkStepGrows(l: Link, e: LinkEvent)
    requires Enabled(l, e)
    ensures |l.sender.stream.written| <= |LinkNext(l, e).sender.stream.written|
  {
    match e
    case AtSender(call) => StepGrows(l.sender, call);
    case DeliverAck(k) => StepGrows(l.sender, Acks(l.acks[k].ackno, l.acks[k].win));
    case Deliver(seg) =>
    case GiveAck =>
    case AppReads(n) =>
  }

  lemma {:induction false} LinkRunInv(l: Link, es: seq<LinkEvent>)
    requires LinkInv(l) && LinkRun(l, es).Some? && Short(LinkRun(l, es).value.sender)
    ensures LinkInv(LinkRun(l, es).value)
  {
    if es != [] {
      var init, last := es[..|es| - 1], es[|es| - 1];
      LinkStepGrows(LinkRun(l, init).value, last);
      LinkRunInv(l, init);
      LinkStep(LinkRun(l, init).value, last);
    }
  }

  // ---------------------------------------------------------------- end to end

  /**
   End-to-end safety and clean close, for every run from a fresh pair and any
   initial sequence number: what the receiver has assembled is a prefix of what
   the application wrote; the sender's last acknowledgment, the receiver's number
   and the sender's next number are in that order; the receiver ends its input
   only when the whole ended stream is assembled; and a sender whose FIN is
   acknowledged has a peer that assembled everything and ended its input.
   */
  lemma EndToEnd(sendCapacity: nat, timeout: u16, isn: u32, recvCapacity: nat, es: seq<LinkEvent>)
    requires LinkRun(FreshLink(sendCapacity, timeout, isn, recvCapacity), es).Some?
    requires Short(LinkRun(FreshLink(sendCapacity, timeout, isn, recvCapacity), es).value.sender)
    ensures var l := LinkRun(FreshLink(sendCapacity, timeout, isn, recvCapacity), es).value;
            var W, assembled := l.sender.stream.written, l.receiver.store.out.written;
            && assembled <= W
            && (l.receiver.syn ==> l.sender.lastAckno <= AbsoluteAck(l.receiver) <= l.sender.nextSeqno)
            && (!l.receiver.syn ==> l.sender.lastAckno == 0 && assembled == [])
            && (l.receiver.store.out.ended ==> l.sender.stream.ended && assembled == W)
            && (SummaryOfSender(l.sender) == FIN_ACKED ==> l.receiver.store.out.ended && assembled == W)
  {
    var f := FreshLink(sendCapacity, timeout, isn, recvCapacity);
    FreshLinked(sendCapacity, timeout, isn, recvCapacity);
    LinkRunInv(f, es);
    LinkedMeaning(LinkRun(f, es).value.sender, LinkRun(f, es).value.receiver);
  }

  // ---------------------------------------------------------------- flow control

  function AckAbs(l: Link, k: nat): nat
    requires k < |l.acks|
  {
    Absolute(l.acks[k].ackno, l.sender.isn)
  }

  function AckEdge(l: Link, k: nat): nat
    requires k < |l.acks|
  {
    AckAbs(l, k) + l.acks[k].win
  }

  /** The acknowledgments given so far never went back, in number or in right edge. */
  ghost predicate AcksForward(l: Link) {
    && (forall k :: 0 <= k < |l.acks| ==>
          AckAbs(l, k) <= AbsoluteAck(l.receiver) && AckEdge(l, k) <= RightEdge(l.receiver))
    && (forall j, k :: 0 <= j <= k < |l.acks| ==> AckAbs(l, j) <= AckAbs(l, k) && AckEdge(l, j) <= AckEdge(l, k))
  }

  /** The sender's view is the acknowledgment delivered last, and it keeps to that window. */
  ghost predicate FlowInv(l: Link) {
    && AcksForward(l)
    && l.seen <= |l.acks|
    && (l.seen == 0 ==> l.sender.lastAckno == 0 && l.sender.lastWin == 1 && l.sender.nextSeqno <= 1)
    && (l.seen > 0 ==> l.sender.lastAckno == AckAbs(l, l.seen - 1) && l.sender.lastWin == l.acks[l.seen - 1].win)
    && WithinWindow(l.sender)
  }

  /** Acknowledgments may be lost or repeated but do not overtake one another. */
  predicate KeepsOrder(l: Link, e: LinkEvent) {
    e.DeliverAck? ==> l.seen <= e.k + 1
  }

  ghost predicate InOrderRun(l: Link, es: seq<LinkEvent>) {
    || es == []
    || (var init, last := es[..|es| - 1], es[|es| - 1];
        InOrderRun(l, init) && LinkRun(l, init).Some? && KeepsOrder(LinkRun(l, init).value, last))
  }

  lemma CallFlows(s: Sender, e: SenderEvent)
    requires !e.Acks? && SenderOk(s) && Short(s) && WithinWindow(s)
    ensures WithinWindow(SenderNext(s, e))
    ensures s.lastAckno == 0 && s.nextSeqno <= 1 ==> SenderNext(s, e).nextSeqno <= 1
  {
    match e
    case Fills =>
      FillExtends(s);
      FillWithinWindowIff(s);
      FillTarget(s);
    case Writes(data) =>
    case Ends =>
    case Passes(ms) =>
    case Empties =>
  }

  /** The next acknowledgment in order leaves no more in flight than it allows. */
  lemma AckAllows(l: Link, k: nat)
    requires FlowInv(l) && k < |l.acks| && l.seen <= k + 1 && 1 <= AckAbs(l, k)
    ensures l.sender.lastAckno <= AckAbs(l, k)
    ensures l.sender.nextSeqno - AckAbs(l, k) <= Max(1, l.acks[k].win)
  {
    if l.seen > 0 {
      assert AckAbs(l, l.seen - 1) <= AckAbs(l, k) && AckEdge(l, l.seen - 1) <= AckEdge(l, k);
    }
  }

  lemma AckFlows(l: Link, k: nat)
    requires LinkInv(l) && Short(l.sender) && FlowInv(l) && k < |l.acks| && l.seen <= k + 1
    ensures FlowInv(LinkNext(l, DeliverAck(k)))
  {
    var s, a := l.sender, l.acks[k];
    AckAllows(l, k);
    AckRead(s, l.receiver, a.ackno);
    AckWithinWindowIff(s, a.ackno, a.win);
    AckArrives(s, l.receiver, a.ackno, a.win);
    AckOk(s, a.ackno, a.win);
    AckSetsWindow(s, a.ackno, a.win);
    FlowCarries(l, LinkNext(l, DeliverAck(k)));
  }

  lemma FlowCarries(l: Link, t: Link)
    requires FlowInv(l) && t.receiver == l.receiver && t.acks == l.acks && t.sender.isn == l.sender.isn
    ensures AcksForward(t)
    ensures forall k :: 0 <= k < |l.acks| ==> AckAbs(t, k) == AckAbs(l, k) && AckEdge(t, k) == AckEdge(l, k)
  {
    assert forall k :: 0 <= k < |l.acks| ==> AckAbs(t, k) == AckAbs(l, k) && AckEdge(t, k) == AckEdge(l, k);
  }

  lemma ReceiverFlows(l: Link, r: Receiver)
    requires FlowInv(l) && AbsoluteAck(l.receiver) <= AbsoluteAck(r) && RightEdge(l.receiver) <= RightEdge(r)
    ensures FlowInv(l.(receiver := r))
  {
    var t := l.(receiver := r);
    assert forall k :: 0 <= k < |l.acks| ==> AckAbs(t, k) == AckAbs(l, k) && AckEdge(t, k) == AckEdge(l, k);
  }

  lemma GivingFlows(l: Link)
    requires LinkInv(l) && Short(l.sender) && FlowInv(l) && l.receiver.syn
    ensures FlowInv(LinkNext(l, GiveAck))
  {
    AckGiven(l.sender, l.receiver);
    var t := LinkNext(l, GiveAck);
    assert forall k :: 0 <= k < |l.acks| ==> AckAbs(t, k) == AckAbs(l, k) && AckEdge(t, k) == AckEdge(l, k);
  }

  lemma FlowStep(l: Link, e: LinkEvent)
    requires LinkInv(l) && Short(l.sender) && FlowInv(l) && Enabled(l, e) && KeepsOrder(l, e)
    ensures FlowInv(LinkNext(l, e))
  {
    var s, r := l.sender, l.receiver;
    match e
    case AtSender(call) =>
      SenderStepOk(s, call);
      CallKeepsAck(s, call);
      CallFlows(s, call);
      FlowCarries(l, LinkNext(l, e));
    case Deliver(seg) =>
      SegmentArrives(s, r, seg);
      ReceiverFlows(l, AfterSegment(r, seg));
    case GiveAck => GivingFlows(l);
    case DeliverAck(k) => AckFlows(l, k);
    case AppReads(n) =>
      ReadHappens(s, r, n);
      ReceiverFlows(l, AfterRead(r, n));
  }

  lemma {:induction false} FlowRun(l: Link, es: seq<LinkEvent>)
    requires LinkInv(l) && FlowInv(l) && LinkRun(l, es).Some? && InOrderRun(l, es)
    requires Short(LinkRun(l, es).value.sender)
    ensures FlowInv(LinkRun(l, es).value)
  {
    if es != [] {
      var init, last := es[..|es| - 1], es[|es| - 1];
      LinkStepGrows(LinkRun(l, init).value, last);
      LinkRunInv(l, init);
      FlowRun(l, init);
      FlowStep(LinkRun(l, init).value, last);
    }
  }

  /**
   Flow control: with this receiver, and acknowledgments that do not overtake one
   another, the sender in every reachable state has at most the advertised window
   in flight, or the single probe a zero window allows.
   */
  lemma FlowControl(sendCapacity: nat, timeout: u16, isn: u32, recvCapacity: nat, es: seq<LinkEvent>)
    requires LinkRun(FreshLink(sendCapacity, timeout, isn, recvCapacity), es).Some?
    requires InOrderRun(FreshLink(sendCapacity, timeout, isn, recvCapacity), es)
    requires Short(LinkRun(FreshLink(sendCapacity, timeout, isn, recvCapacity), es).value.sender)
    ensures var s := LinkRun(FreshLink(sendCapacity, timeout, isn, recvCapacity), es).value.sender;
            InFlight(s) <= Max(1, s.lastWin)
  {
    var f := FreshLink(sendCapacity, timeout, isn, recvCapacity);
    FreshLinked(sendCapacity, timeout, isn, recvCapacity);
    FlowRun(f, es);
    LinkRunInv(f, es);
    InFlightIs(LinkRun(f, es).value.sender);
  }
}
