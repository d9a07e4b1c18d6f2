/**
 Two endpoints joined by a network that loses, repeats and reorders: each may be
 handed any segment the other ever sent. The whole protocol, end to end.
 */
module Pairs {
  import opened Words
  import opened Stores
  import opened Segments
  import opened Receivers
  import opened Senders
  import opened Segmentation
  import opened SenderRuns
  import opened TcpStates
  import opened Links
  import opened Connections
  import opened ConnectionProofs
  import opened Sides

  /** `fromA` and `fromB` hold everything each endpoint ever put on the wire. */
  datatype Pair = Pair(a: Connection, b: Connection, fromA: set<TCPSegment>, fromB: set<TCPSegment>)

  datatype PairEvent = AtA(call: ConnEvent) | AtB(call: ConnEvent)

  function Swapped(p: Pair): Pair {
    Pair(p.b, p.a, p.fromB, p.fromA)
  }

  /** A segment can be delivered to the first endpoint only if the second once sent it. */
  predicate PossibleAtA(p: Pair, e: ConnEvent) {
    e.Segment? ==> e.seg in p.fromB
  }

  function StepA(p: Pair, e: ConnEvent): Pair {
    var t := ConnNext(p.a, e);
    p.(a := t.(segmentsOut := []), fromA := p.fromA + set seg | seg in t.segmentsOut)
  }

  predicate Possible(p: Pair, e: PairEvent) {
    match e
    case AtA(call) => PossibleAtA(p, call)
    case AtB(call) => PossibleAtA(Swapped(p), call)
  }

  function PairNext(p: Pair, e: PairEvent): Pair {
    match e
    case AtA(call) => StepA(p, call)
    case AtB(call) => Swapped(StepA(Swapped(p), call))
  }

  /** The pair after a run, if every delivery was possible in its turn. */
  function PairRun(p: Pair, es: seq<PairEvent>): Option<Pair> {
    if es == [] then Some(p)
    else
      var m := PairRun(p, es[..|es| - 1]);
      if m.Some? && Possible(m.value, es[|es| - 1]) then Some(PairNext(m.value, es[|es| - 1])) else None
  }

  function FreshPair(ta: u16, ra: nat, sa: nat, ia: u32, tb: u16, rb: nat, sb: nat, ib: u32): Pair {
    Pair(FreshConnection(ta, ra, sa, ia), FreshConnection(tb, rb, sb, ib), {}, {})
  }

  predicate BothShort(p: Pair) {
    Short(p.a.sender) && Short(p.b.sender)
  }

  ghost predicate HalfInv(p: Pair) {
    && ConnOk(p.a)
    && p.a.segmentsOut == []
    && Side(p.a, p.b.sender, p.b.receiver)
    && (forall seg :: seg in p.fromA ==> From(seg, p.a.sender, p.a.receiver, p.b.sender))
  }

  ghost predicate PairInv(p: Pair) {
    HalfInv(p) && HalfInv(Swapped(p))
  }

  lemma StepAInv(p: Pair, e: ConnEvent)
    requires PairInv(p) && BothShort(p) && Short(ConnNext(p.a, e).sender) && PossibleAtA(p, e)
    ensures PairInv(StepA(p, e))
  {
    var t := ConnNext(p.a, e);
    var q := StepA(p, e);
    ConnStepOk(p.a, e);
    assert e.Segment? ==> From(e.seg, p.b.sender, p.b.receiver, p.a.sender);
    SideStep(p.a, e, p.b.sender, p.b.receiver);
    forall seg | seg in q.fromA ensures From(seg, q.a.sender, q.a.receiver, q.b.sender) {
      if seg in p.fromA {
        FromPersists(seg, p.a, t, p.b.sender);
      }
    }
  }

  lemma PairStep(p: Pair, e: PairEvent)
    requires PairInv(p) && BothShort(p) && BothShort(PairNext(p, e)) && Possible(p, e)
    ensures PairInv(PairNext(p, e))
  {
    match e
    case AtA(call) => StepAInv(p, call);
    case AtB(call) => StepAInv(Swapped(p), call);
  }

  lemma PairStepGrows(p: Pair, e: PairEvent)
    ensures |p.a.sender.stream.written| <= |PairNext(p, e).a.sender.stream.written|
    ensures |p.b.sender.stream.written| <= |PairNext(p, e).b.sender.stream.written|
  {
    match e
    case AtA(call) => ConnStepGrows(p.a, call);
    case AtB(call) => ConnStepGrows(p.b, call);
  }

  lemma {:induction false} PairRunInv(p: Pair, es: seq<PairEvent>)
    requires PairInv(p) && PairRun(p, es).Some? && BothShort(PairRun(p, es).value)
    ensures PairInv(PairRun(p, es).value)
  {
    if es != [] {
      var init, last := es[..|es| - 1], es[|es| - 1];
      PairStepGrows(PairRun(p, init).value, last);
      PairRunInv(p, init);
      PairStep(PairRun(p, init).value, last);
    }
  }

  /** Every run that is possible from a state is possible in its beginnings, with streams no longer there. */
  lemma {:induction false} RunPrefix(p: Pair, es: seq<PairEvent>, k: nat)
    requires k <= |es| && PairRun(p, es).Some? && BothShort(PairRun(p, es).value)
    ensures PairRun(p, es[..k]).Some? && BothShort(PairRun(p, es[..k]).value)
    decreases |es|
  {
    if k == |es| {
      assert es[..k] == es;
    } else {
      var init := es[..|es| - 1];
      PairStepGrows(PairRun(p, init).value, es[|es| - 1]);
      RunPrefix(p, init, k);
      assert init[..k] == es[..k];
    }
  }

  /** What is known at the last event of a run. */
  lemma LastStep(p: Pair, all: seq<PairEvent>, init: seq<PairEvent>, e: PairEvent)
    requires PairInv(p) && all == init + [e] && PairRun(p, all).Some? && BothShort(PairRun(p, all).value)
    ensures PairRun(p, init).Some?
    ensures var m := PairRun(p, init).value;
            && PairInv(m) && BothShort(m) && Possible(m, e) && BothShort(PairNext(m, e))
            && PairRun(p, all) == Some(PairNext(m, e))
  {
    assert all[..|all| - 1] == init;
    PairStepGrows(PairRun(p, init).value, e);
    PairRunInv(p, init);
  }

  /** What is known at event `k` of a run. */
  lemma NextPrefix(p: Pair, es: seq<PairEvent>, k: nat)
    requires k < |es| && PairRun(p, es).Some? && BothShort(PairRun(p, es).value) && PairInv(p)
    ensures PairRun(p, es[..k]).Some?
    ensures var m := PairRun(p, es[..k]).value;
            && PairInv(m) && BothShort(m) && Possible(m, es[k]) && BothShort(PairNext(m, es[k]))
            && PairRun(p, es[..k + 1]) == Some(PairNext(m, es[k]))
  {
    RunPrefix(p, es, k + 1);
    LastStep(p, es[..k + 1], es[..k], es[k]);
  }

  lemma FreshHalf(ta: u16, ra: nat, sa: nat, ia: u32, tb: u16, rb: nat, sb: nat, ib: u32)
    ensures HalfInv(FreshPair(ta, ra, sa, ia, tb, rb, sb, ib))
  {
    FreshConnOk(ta, ra, sa, ia);
    FreshLinked(sa, ta, ia, rb);
    FreshLinked(sb, tb, ib, ra);
    FreshSenderOk(sa, ta, ia);
  }

  /** In such a run every delivery meets what the receiver object asks of its caller. */
  lemma DeliveryIsLegal(p: Pair, seg: TCPSegment)
    requires PairInv(p) && BothShort(p) && seg in p.fromB
    ensures Faithful(p.a.receiver.store, p.b.sender.stream.written)
    ensures Fits(p.a.receiver, seg, p.b.sender.stream.written)
    ensures Placed(p.a.sender) && Countable(p.a.sender)
  {
    assert From(seg, p.b.sender, p.b.receiver, p.a.sender);
    EmittedFits(p.b.sender, p.a.receiver, seg);
  }

  /** What the first endpoint's application wrote, as the second has it. */
  ghost predicate Delivers(s: Sender, r: Receiver) {
    && r.store.out.written <= s.stream.written
    && (r.syn ==> s.lastAckno <= AbsoluteAck(r) <= s.nextSeqno)
    && (r.store.out.ended ==> s.stream.ended && r.store.out.written == s.stream.written)
    && (SummaryOfSender(s) == FIN_ACKED ==> r.store.out.ended && r.store.out.written == s.stream.written)
  }

  /** A connection that closed without error has had everything delivered, both ways. */
  ghost predicate CleanMeansDelivered(c: Connection, peer: Connection) {
    !c.active && !c.sender.stream.error ==>
      && c.sender.stream.ended && peer.sender.stream.ended
      && peer.receiver.store.out.ended && peer.receiver.store.out.written == c.sender.stream.written
      && c.receiver.store.out.ended && c.receiver.store.out.written == peer.sender.stream.written
  }

  lemma HalfMeaning(p: Pair)
    requires PairInv(p) && BothShort(p)
    ensures Delivers(p.a.sender, p.b.receiver) && CleanMeansDelivered(p.a, p.b)
  {
    LinkedMeaning(p.a.sender, p.b.receiver);
    LinkedMeaning(p.b.sender, p.a.receiver);
  }

  /**
   The theorem of the whole system. Two fresh endpoints, any timeouts, capacities
   and initial sequence numbers, any calls by the applications and the clock on
   either side, any losses, repetitions and reorderings: at every moment each side
   has assembled a prefix of what the other wrote, acknowledgments stay between
   what is assembled and what was sent, input ends only after complete assembly,
   an acknowledged FIN means complete delivery, and a connection that has closed
   without error has had both streams delivered completely.
   */
  lemma PairTheorem(ta: u16, ra: nat, sa: nat, ia: u32, tb: u16, rb: nat, sb: nat, ib: u32, es: seq<PairEvent>)
    requires PairRun(FreshPair(ta, ra, sa, ia, tb, rb, sb, ib), es).Some?
    requires BothShort(PairRun(FreshPair(ta, ra, sa, ia, tb, rb, sb, ib), es).value)
    ensures var p := PairRun(FreshPair(ta, ra, sa, ia, tb, rb, sb, ib), es).value;
            && Delivers(p.a.sender, p.b.receiver) && Delivers(p.b.sender, p.a.receiver)
            && CleanMeansDelivered(p.a, p.b) && CleanMeansDelivered(p.b, p.a)
  {
    var f := FreshPair(ta, ra, sa, ia, tb, rb, sb, ib);
    FreshHalf(ta, ra, sa, ia, tb, rb, sb, ib);
    FreshHalf(tb, rb, sb, ib, ta, ra, sa, ia);
    PairRunInv(f, es);
    HalfMeaning(PairRun(f, es).value);
    HalfMeaning(Swapped(PairRun(f, es).value));
  }
}
