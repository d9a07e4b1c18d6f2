/**
 A run in which an older acknowledgment overtakes a newer one, and the sender
 exceeds the window: why flow control needs acknowledgments in order.
 */
module Overtaking {
  import opened Words
  import opened ByteStreams
  import opened Stores
  import opened Segments
  import opened Receivers
  import opened Timers
  import opened Senders
  import opened Segmentation
  import opened SenderRuns
  import opened LinkRuns

  /** A sender with initial number 0, timeout 1000 and room for ten bytes. */
  function At(
    written: seq<byte>, read: nat, next: nat, last: nat, win: u16, outstanding: seq<TCPSegment>, out: seq<TCPSegment>
  ): Sender
    requires read <= |written| <= 10
  {
    Sender(0, out, 1000, StreamData(written, read, 10, false, false), next, 1000, 0, last, win,
           if outstanding == [] then Stopped() else Started(1000), outstanding)
  }

  /** A receiver with room for two bytes that has heard SYN 0. */
  function Heard(written: seq<byte>, read: nat): Receiver
    requires read <= |written| <= read + 2
  {
    Receiver(Store(StreamData(written, read, 2, false, false), map[], false, 0), true, 0)
  }

  function Syn(): TCPSegment {
    TCPSegment(BlankHeader().(syn := true), [])
  }

  function Data(seqno: u32, payload: seq<byte>): TCPSegment {
    TCPSegment(BlankHeader().(seqno := seqno), payload)
  }

  // ---------------------------------------------------------------- the sender's steps

  lemma SendSyn()
    ensures AfterFill(At([], 0, 0, 0, 1, [], [])) == At([], 0, 1, 0, 1, [Syn()], [Syn()])
  {
  }

  lemma NothingToSend(s: Sender)
    requires Placed(s) && Countable(s) && s.lastAckno > 0 && !s.stream.ended && s.stream.read == |s.stream.written|
    ensures AfterFill(s) == s
  {
    InFlightIs(s);
  }

  lemma SynAcked()
    ensures AfterAck(At([], 0, 1, 0, 1, [Syn()], []), 1, 2) == At([], 0, 1, 1, 2, [], [])
  {
    assert PopAcked([Syn()], 1) == [];
    NothingToSend(At([], 0, 1, 1, 2, [], []));
  }

  lemma OneByte(x: byte)
    ensures AfterFill(At([x], 0, 1, 1, 2, [], [])) == At([x], 1, 2, 1, 2, [Data(1, [x])], [Data(1, [x])])
  {
    var s := At([x], 0, 1, 1, 2, [], []);
    assert InFlight(s) == 0 && RemainingWindow(s) == 2;
    assert NextPayload(s) == [x] && !FinRides(s);
    var t := At([x], 1, 2, 1, 2, [Data(1, [x])], [Data(1, [x])]);
    assert AfterSend(Taken(s), DataSegment([x], false)) == t;
    assert AfterFillLoop(s) == AfterFillLoop(t);
    NothingToSend(t);
  }

  lemma ByteAcked(x: byte)
    ensures AfterAck(At([x], 1, 2, 1, 2, [Data(1, [x])], []), 2, 2) == At([x], 1, 2, 2, 2, [], [])
  {
    assert PopAcked([Data(1, [x])], 2) == [];
    NothingToSend(At([x], 1, 2, 2, 2, [], []));
  }

  lemma TwoBytes(x: byte)
    ensures AfterFill(At([x, x, x, x], 1, 2, 2, 2, [], []))
         == At([x, x, x, x], 3, 4, 2, 2, [Data(2, [x, x])], [Data(2, [x, x])])
  {
    var s := At([x, x, x, x], 1, 2, 2, 2, [], []);
    assert InFlight(s) == 0 && RemainingWindow(s) == 2;
    assert NextPayload(s) == [x, x] && !FinRides(s);
    var t := At([x, x, x, x], 3, 4, 2, 2, [Data(2, [x, x])], [Data(2, [x, x])]);
    assert AfterSend(Taken(s), DataSegment([x, x], false)) == t;
    assert AfterFillLoop(s) == AfterFillLoop(t);
    assert RemainingWindow(t) == 0;
  }

  /** The older acknowledgment repeats the last number with a smaller window. */
  lemma Overtaken(x: byte)
    ensures AfterAck(At([x, x, x, x], 3, 4, 2, 2, [Data(2, [x, x])], []), 2, 1)
         == At([x, x, x, x], 4, 5, 2, 1, [Data(2, [x, x]), Data(4, [x])], [Data(4, [x])])
  {
    var s := At([x, x, x, x], 3, 4, 2, 1, [Data(2, [x, x])], []);
    OneTooMany(s, x);
  }

  lemma OneTooMany(s: Sender, x: byte)
    requires s == At([x, x, x, x], 3, 4, 2, 1, [Data(2, [x, x])], [])
    ensures AfterFill(s) == At([x, x, x, x], 4, 5, 2, 1, [Data(2, [x, x]), Data(4, [x])], [Data(4, [x])])
  {
    assert InFlight(s) == 2 && RemainingWindow(s) == TWO64 - 1;
    assert NextPayload(s) == [x] && !FinRides(s);
    var t := At([x, x, x, x], 4, 5, 2, 1, [Data(2, [x, x]), Data(4, [x])], [Data(4, [x])]);
    assert AfterSend(Taken(s), DataSegment([x], false)) == t;
    assert AfterFillLoop(s) == AfterFillLoop(t);
    NothingToSend(t);
  }

  // ---------------------------------------------------------------- the receiver's steps

  lemma SynHeard()
    ensures AfterSegment(FreshReceiver(2), Syn()) == Heard([], 0)
  {
    PushNothing(EmptyStore(2), [], 0);
  }

  lemma ByteHeard(x: byte)
    ensures AfterSegment(Heard([], 0), Data(1, [x])) == Heard([x], 0)
  {
    var st := Heard([], 0).store;
    assert StreamIndex(Heard([], 0), Data(1, [x])) == 0;
    var all := st.held + Accepted(st, [x], 0);
    assert Covers([x], 0, 0);
    assert forall i: nat :: i in all <==> i == 0;
    assert Run(all, 1, 2) == [];
    assert Run(all, 0, 2) == [x];
    assert Beyond(all, 1) == map[];
  }

  // ---------------------------------------------------------------- the run

  /** Some run from a fresh sender and receiver leads here. */
  ghost predicate Reached(l: Link) {
    exists es :: LinkRun(FreshLink(10, 1000, 0, 2), es) == Some(l)
  }

  lemma Reach(m: Link, e: LinkEvent, n: Link)
    requires Reached(m) && Enabled(m, e) && n == LinkNext(m, e)
    ensures Reached(n)
  {
    var es :| LinkRun(FreshLink(10, 1000, 0, 2), es) == Some(m);
    assert (es + [e])[..|es|] == es;
    assert LinkRun(FreshLink(10, 1000, 0, 2), es + [e]) == Some(n);
  }

  /** Giving an acknowledgment changes nothing but the record of those given. */
  lemma ReachGiven(m: Link, a: Ack, acks: seq<Ack>)
    requires Reached(m) && Ackno(m.receiver) == Some(a.ackno) && AdvertisedWindow(m.receiver) == a.win
    requires acks == m.acks + [a]
    ensures Reached(m.(acks := acks))
  {
    Reach(m, GiveAck, m.(acks := acks));
  }

  lemma Acknos(x: byte)
    ensures Ackno(Heard([], 0)) == Some(1) && AdvertisedWindow(Heard([], 0)) == 2
    ensures Ackno(Heard([x], 0)) == Some(2) && AdvertisedWindow(Heard([x], 0)) == 1
    ensures Ackno(Heard([x], 1)) == Some(2) && AdvertisedWindow(Heard([x], 1)) == 2
  {
  }

  lemma ReachAcked(m: Link, k: nat, t: Sender, sent: set<TCPSegment>)
    requires Reached(m) && k < |m.acks| && t == AfterAck(m.sender, m.acks[k].ackno, m.acks[k].win)
    requires forall seg :: seg in t.segmentsOut <==> seg in sent
    ensures Reached(m.(sender := t.(segmentsOut := []), wire := m.wire + sent, seen := k + 1))
  {
    assert sent == set seg | seg in t.segmentsOut;
    Reach(m, DeliverAck(k), m.(sender := t.(segmentsOut := []), wire := m.wire + sent, seen := k + 1));
  }

  function SynSent(): Link {
    Link(At([], 0, 1, 0, 1, [Syn()], []), FreshReceiver(2), {Syn()}, [], 0)
  }

  lemma ReachSynSent()
    ensures Reached(SynSent())
  {
    var l := FreshLink(10, 1000, 0, 2);
    assert LinkRun(l, []) == Some(l);
    SendSyn();
    Reach(l, AtSender(Fills), SynSent());
  }

  function SynThere(acks: seq<Ack>): Link {
    SynSent().(receiver := Heard([], 0), acks := acks)
  }

  lemma ReachSynThere()
    ensures Reached(SynThere([Ack(1, 2)]))
  {
    ReachSynSent();
    SynHeard();
    Reach(SynSent(), Deliver(Syn()), SynThere([]));
    Acknos(0);
    ReachGiven(SynThere([]), Ack(1, 2), [Ack(1, 2)]);
  }

  function Opened(written: seq<byte>): Link
    requires |written| <= 10
  {
    Link(At(written, 0, 1, 1, 2, [], []), Heard([], 0), {Syn()}, [Ack(1, 2)], 1)
  }

  lemma ReachOpened(x: byte)
    ensures Reached(Opened([x]))
  {
    ReachSynThere();
    SynAcked();
    Reach(SynThere([Ack(1, 2)]), DeliverAck(0), Opened([]));
    Reach(Opened([]), AtSender(Writes([x])), Opened([x]));
  }

  /** One byte is sent, and the receiver and the acknowledgments given are as said. */
  function ByteSent(x: byte, r: Receiver, acks: seq<Ack>): Link {
    Link(At([x], 1, 2, 1, 2, [Data(1, [x])], []), r, {Syn(), Data(1, [x])}, acks, 1)
  }

  lemma ReachByteSent(x: byte)
    ensures Reached(ByteSent(x, Heard([], 0), [Ack(1, 2)]))
  {
    ReachOpened(x);
    OneByte(x);
    Reach(Opened([x]), AtSender(Fills), ByteSent(x, Heard([], 0), [Ack(1, 2)]));
  }

  lemma ReachByteThere(x: byte)
    ensures Reached(ByteSent(x, Heard([x], 0), [Ack(1, 2)]))
  {
    ReachByteSent(x);
    ByteHeard(x);
    Reach(ByteSent(x, Heard([], 0), [Ack(1, 2)]), Deliver(Data(1, [x])), ByteSent(x, Heard([x], 0), [Ack(1, 2)]));
  }

  /** Before the application reads the byte, and after, an acknowledgment is given. */
  lemma ReachAcksGiven(x: byte)
    ensures Reached(ByteSent(x, Heard([x], 1), [Ack(1, 2), Ack(2, 1), Ack(2, 2)]))
  {
    ReachByteThere(x);
    Acknos(x);
    ReachGiven(ByteSent(x, Heard([x], 0), [Ack(1, 2)]), Ack(2, 1), [Ack(1, 2), Ack(2, 1)]);
    ReachSecondAck(x);
  }

  lemma ReachSecondAck(x: byte)
    requires Reached(ByteSent(x, Heard([x], 0), [Ack(1, 2), Ack(2, 1)]))
    ensures Reached(ByteSent(x, Heard([x], 1), [Ack(1, 2), Ack(2, 1), Ack(2, 2)]))
  {
    var m := ByteSent(x, Heard([x], 1), [Ack(1, 2), Ack(2, 1)]);
    Reach(ByteSent(x, Heard([x], 0), [Ack(1, 2), Ack(2, 1)]), AppReads(1), m);
    Acknos(x);
    ReachGiven(m, Ack(2, 2), [Ack(1, 2), Ack(2, 1), Ack(2, 2)]);
  }

  /** The newer acknowledgment has arrived, and the older one is still under way. */
  function NewerTaken(s: Sender, wire: set<TCPSegment>, x: byte, seen: nat): Link {
    Link(s, Heard([x], 1), wire, [Ack(1, 2), Ack(2, 1), Ack(2, 2)], seen)
  }

  lemma ReachNewerTaken(x: byte)
    ensures Reached(NewerTaken(At([x, x, x, x], 1, 2, 2, 2, [], []), {Syn(), Data(1, [x])}, x, 3))
  {
    var m := NewerTaken(At([x], 1, 2, 2, 2, [], []), {Syn(), Data(1, [x])}, x, 3);
    ReachAcksGiven(x);
    ByteAcked(x);
    Reach(ByteSent(x, Heard([x], 1), [Ack(1, 2), Ack(2, 1), Ack(2, 2)]), DeliverAck(2), m);
    Reach(m, AtSender(Writes([x, x, x])),
          NewerTaken(At([x, x, x, x], 1, 2, 2, 2, [], []), {Syn(), Data(1, [x])}, x, 3));
  }

  function WindowFull(x: byte): Link {
    NewerTaken(At([x, x, x, x], 3, 4, 2, 2, [Data(2, [x, x])], []), {Syn(), Data(1, [x]), Data(2, [x, x])}, x, 3)
  }

  lemma ReachWindowFull(x: byte)
    ensures Reached(WindowFull(x))
  {
    ReachNewerTaken(x);
    TwoBytes(x);
    Reach(NewerTaken(At([x, x, x, x], 1, 2, 2, 2, [], []), {Syn(), Data(1, [x])}, x, 3), AtSender(Fills),
          WindowFull(x));
  }

  function Flooded(x: byte, out: seq<TCPSegment>): Sender {
    At([x, x, x, x], 4, 5, 2, 1, [Data(2, [x, x]), Data(4, [x])], out)
  }

  lemma ThreeInFlight(x: byte)
    ensures Short(Flooded(x, [])) && InFlight(Flooded(x, [])) == 3 && Flooded(x, []).lastWin == 1
  {
  }

  /**
   Flow control fails when acknowledgments overtake one another: some run from a
   fresh pair ends with three numbers in flight against a window of one.
   */
  lemma OvertakingFloods(x: byte) returns (l: Link)
    ensures Reached(l) && Short(l.sender) && InFlight(l.sender) == 3 && l.sender.lastWin == 1
  {
    var m, t := WindowFull(x), Flooded(x, [Data(4, [x])]);
    ReachWindowFull(x);
    assert t == AfterAck(m.sender, 2, 1) by { Overtaken(x); }
    l := m.(sender := t.(segmentsOut := []), wire := m.wire + {Data(4, [x])}, seen := 2);
    ReachAcked(m, 1, t, {Data(4, [x])});
    ThreeInFlight(x);
  }
}
