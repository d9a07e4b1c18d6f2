/**
 Every fair way to go on delivers. A round is fair if, in it, the receiving
 application reads, what was outstanding is delivered after that, and what the
 receiver already had is acknowledged; anything else may happen in between.
 */
module Fairness {
  import opened Words
  import opened WrappingIntegers
  import opened ByteStreams
  import opened Segments
  import opened Receivers
  import opened Senders
  import opened Segmentation
  import opened SenderProofs
  import opened SenderRuns
  import opened Links
  import opened Connections
  import opened Sides
  import opened Pairs
  import opened Upkeep
  import opened Progress
  import opened CloseTheorems

  // ---------------------------------------------------------------- what never goes back

  /** The endpoint `t` is the endpoint `c` at a later time. */
  predicate LaterEnd(c: Connection, t: Connection) {
    Advances(c, t) && Wider(c.receiver.store.out, t.receiver.store.out)
  }

  predicate Later(p: Pair, q: Pair) {
    LaterEnd(p.a, q.a) && LaterEnd(p.b, q.b)
  }

  lemma LaterThen(p: Pair, m: Pair, q: Pair)
    requires Later(p, m) && Later(m, q)
    ensures Later(p, q)
  {
  }

  lemma StepLater(p: Pair, e: PairEvent)
    requires PairInv(p) && BothShort(p) && Possible(p, e) && BothShort(PairNext(p, e))
    ensures Later(p, PairNext(p, e))
  {
    match e
    case AtA(call) =>
      SideStep(p.a, call, p.b.sender, p.b.receiver);
      ReceiverGrows(p.a, call);
    case AtB(call) =>
      SideStep(p.b, call, p.a.sender, p.a.receiver);
      ReceiverGrows(p.b, call);
  }

  lemma {:induction false} RunLater(p: Pair, es: seq<PairEvent>)
    requires PairInv(p) && PairRun(p, es).Some? && BothShort(PairRun(p, es).value)
    ensures Later(p, PairRun(p, es).value)
  {
    if es != [] {
      var init, last := es[..|es| - 1], es[|es| - 1];
      var m := PairRun(p, init).value;
      PairStepGrows(m, last);
      PairRunInv(p, init);
      RunLater(p, init);
      StepLater(m, last);
      LaterThen(p, m, PairNext(m, last));
    }
  }

  /** One more event after a run. */
  function NextOf(m: Option<Pair>, e: PairEvent): Option<Pair> {
    if m.Some? && Possible(m.value, e) then Some(PairNext(m.value, e)) else None
  }

  lemma RunSnocs(p: Pair, es: seq<PairEvent>, e: PairEvent)
    ensures PairRun(p, es + [e]) == NextOf(PairRun(p, es), e)
  {
    assert (es + [e])[..|es + [e]| - 1] == es;
  }

  lemma {:induction false} RunConcat(p: Pair, first: seq<PairEvent>, m: Pair, rest: seq<PairEvent>)
    requires PairRun(p, first) == Some(m)
    ensures PairRun(p, first + rest) == PairRun(m, rest)
    decreases |rest|
  {
    if rest == [] {
      assert first + rest == first;
    } else {
      var init, last := rest[..|rest| - 1], rest[|rest| - 1];
      RunConcat(p, first, m, init);
      RunSnocs(p, first + init, last);
      RunSnocs(m, init, last);
      assert first + rest == (first + init) + [last] && rest == init + [last];
    }
  }

  lemma CutAt(es: seq<PairEvent>, k: nat)
    requires k <= |es|
    ensures es[..k] + es[k..] == es
  {
  }

  /** The rest of a run. */
  lemma RunSplit(p: Pair, es: seq<PairEvent>, q: Pair, first: seq<PairEvent>, m: Pair, rest: seq<PairEvent>)
    requires PairRun(p, es) == Some(q) && PairRun(p, first) == Some(m) && first + rest == es
    ensures PairRun(m, rest) == Some(q)
  {
    RunConcat(p, first, m, rest);
  }

  lemma {:induction false} NoErrorAlong(p: Pair, es: seq<PairEvent>)
    requires PairInv(p) && PairRun(p, es).Some? && BothShort(PairRun(p, es).value) && NoError(PairRun(p, es).value)
    ensures NoError(p)
  {
    if es != [] {
      var init, last := es[..|es| - 1], es[|es| - 1];
      PairStepGrows(PairRun(p, init).value, last);
      PairRunInv(p, init);
      NoErrorBefore(PairRun(p, init).value, last);
      NoErrorAlong(p, init);
    }
  }

  /** A run that ends without error, from a state that is ready. */
  ghost predicate GoodRun(p: Pair, es: seq<PairEvent>, q: Pair) {
    Ready(p) && PairRun(p, es) == Some(q) && BothShort(q) && NoError(q)
  }

  /** Where such a run stands before its event `k`. */
  lemma Before(p: Pair, es: seq<PairEvent>, q: Pair, k: nat) returns (m: Pair)
    requires GoodRun(p, es, q) && k <= |es|
    ensures PairRun(p, es[..k]) == Some(m) && Ready(m) && Later(p, m) && Later(m, q)
  {
    RunPrefix(p, es, k);
    m := PairRun(p, es[..k]).value;
    CutAt(es, k);
    RunSplit(p, es, q, es[..k], m, es[k..]);
    PairRunKeen(p, es[..k]);
    RunKeepsRoom(p, es[..k]);
    NoErrorAlong(m, es[k..]);
    RunLater(p, es[..k]);
    RunLater(m, es[k..]);
  }

  /** Its event `k` leads from the one to the next. */
  lemma Happens(p: Pair, es: seq<PairEvent>, q: Pair, k: nat) returns (m: Pair, n: Pair)
    requires GoodRun(p, es, q) && k < |es|
    ensures PairRun(p, es[..k]) == Some(m) && PairRun(p, es[..k + 1]) == Some(n)
    ensures Ready(m) && Possible(m, es[k]) && n == PairNext(m, es[k])
    ensures Later(p, m) && Later(m, q) && Later(n, q)
  {
    NextPrefix(p, es, k);
    m := Before(p, es, q, k);
    n := Before(p, es, q, k + 1);
  }

  // ---------------------------------------------------------------- a fair round

  /** At event `k` the second application reads all there is. */
  ghost predicate ReadsAll(p: Pair, es: seq<PairEvent>, k: nat) {
    && k < |es| && PairRun(p, es[..k]).Some?
    && es[k].AtB? && es[k].call.AppTakes?
    && es[k].call.n >= |PairRun(p, es[..k]).value.b.receiver.store.out.written|
  }

  /** At event `i` a copy of `seg` reaches the second endpoint. */
  predicate Reached(es: seq<PairEvent>, i: nat, seg: TCPSegment) {
    i < |es| && es[i].AtB? && es[i].call.Segment? && Copy(es[i].call.seg, seg)
  }

  /** At event `i` the first endpoint is told that `n` numbers have arrived. */
  predicate Told(es: seq<PairEvent>, i: nat, isn: u32, n: nat) {
    && i < |es| && es[i].AtA? && es[i].call.Segment?
    && es[i].call.seg.header.ack && !es[i].call.seg.header.rst
    && Absolute(es[i].call.seg.header.ackno, isn) >= n
  }

  ghost predicate ReachedAfter(es: seq<PairEvent>, k: nat, seg: TCPSegment) {
    exists i :: k < i && Reached(es, i, seg)
  }

  /** Event `k` reads, and after it all that was outstanding arrives. */
  ghost predicate ServedFrom(p: Pair, es: seq<PairEvent>, k: nat) {
    && ReadsAll(p, es, k)
    && forall j :: 0 <= j < |p.a.sender.outstanding| ==> ReachedAfter(es, k, p.a.sender.outstanding[j])
  }

  /** Fair to the stream of the first endpoint. */
  ghost predicate Round(p: Pair, es: seq<PairEvent>) {
    && (exists k :: ServedFrom(p, es, k))
    && (Got(p.b.receiver) > 0 ==> exists i :: Told(es, i, p.a.sender.isn, Got(p.b.receiver)))
  }

  /** What the peer has and what was sent, together. */
  function Measure(p: Pair): nat {
    Got(p.b.receiver) + p.a.sender.nextSeqno
  }

  lemma LaterMeasure(p: Pair, q: Pair)
    requires Later(p, q)
    ensures Got(p.b.receiver) <= Got(q.b.receiver) && p.a.sender.nextSeqno <= q.a.sender.nextSeqno
    ensures Goal(p.a.sender) <= Goal(q.a.sender)
  {
  }

  /** Between two points of such a run. */
  lemma Between(p: Pair, es: seq<PairEvent>, q: Pair, k: nat, i: nat, n: Pair, m: Pair)
    requires GoodRun(p, es, q) && k <= i <= |es|
    requires PairRun(p, es[..k]) == Some(n) && PairRun(p, es[..i]) == Some(m)
    ensures Later(n, m)
  {
    PrefixGood(p, es, q, i, m);
    var v := Before(p, es[..i], m, k);
    assert es[..i][..k] == es[..k];
  }

  lemma PrefixGood(p: Pair, es: seq<PairEvent>, q: Pair, i: nat, m: Pair)
    requires GoodRun(p, es, q) && i <= |es| && PairRun(p, es[..i]) == Some(m)
    ensures GoodRun(p, es[..i], m)
  {
    var u := Before(p, es, q, i);
  }

  /** Room made by reading lasts until more has arrived. */
  lemma RoomLasts(r: Receiver, t: Receiver, s: Sender)
    requires Linked(s, t) && Wider(r.store.out, t.store.out) && Got(t) <= Got(r) && (r.syn ==> t.syn)
    requires r.store.out.capacity > 0 && r.store.out.read == |r.store.out.written|
    ensures WindowSize(t) > 0
  {
  }

  /** Where a segment belongs is known ever after. */
  lemma PlaceLasts(seg: TCPSegment, w: TCPSegment, a: nat, s: Sender, t: Sender)
    requires EmittedAt(seg, a, s) && Copy(w, seg) && Onward(s, t)
    ensures EmittedAt(w, a, t)
  {
    var n := |seg.payload|;
    if !seg.header.syn && SequenceLength(seg) > 0 {
      assert s.stream.written[a - 1..a - 1 + n] == t.stream.written[a - 1..a - 1 + n];
    }
  }

  /** Delivering what the second endpoint wants, once it has read, gets it on. */
  lemma ReachedAdvances(m: Pair, w: TCPSegment, a: nat, n: Pair)
    requires Ready(m) && w in m.fromA && EmittedAt(w, a, m.a.sender) && !w.header.rst
    requires a <= Got(m.b.receiver) < a + SequenceLength(w) && Got(m.b.receiver) < Goal(m.a.sender)
    requires WindowSize(m.b.receiver) > 0 && n == PairNext(m, AtB(Segment(w)))
    ensures Got(m.b.receiver) < Got(n.b.receiver)
  {
    StillOpen(m);
    ReadyLinked(m);
    HeardIs(m.b, w);
    WantedArrives(m.a.sender, m.b.receiver, w, a);
  }

  lemma DeliveryAdvances(p: Pair, es: seq<PairEvent>, q: Pair, k: nat, i: nat, seg: TCPSegment, a: nat)
    requires GoodRun(p, es, q) && ReadsAll(p, es, k) && k < i && Reached(es, i, seg)
    requires EmittedAt(seg, a, p.a.sender) && a <= Got(p.b.receiver) < a + SequenceLength(seg)
    requires Got(p.b.receiver) < Goal(p.a.sender)
    ensures Got(p.b.receiver) < Got(q.b.receiver)
  {
    var m0, n0 := Happens(p, es, q, k);
    var m, n := Happens(p, es, q, i);
    Between(p, es, q, k + 1, i, n0, m);
    LaterMeasure(p, m0);
    LaterMeasure(p, m);
    LaterMeasure(m, q);
    LaterMeasure(n, q);
    if Got(m.b.receiver) == Got(p.b.receiver) {
      var w := es[i].call.seg;
      ReadLeavesRoom(m0, es[k].call.n, n0, m);
      PlaceLasts(seg, w, a, p.a.sender, m.a.sender);
      ReachedAdvances(m, w, a, n);
    }
  }

  lemma ReadLeavesRoom(m0: Pair, count: nat, n0: Pair, m: Pair)
    requires Ready(m0) && n0 == PairNext(m0, AtB(AppTakes(count)))
    requires count >= |m0.b.receiver.store.out.written|
    requires Ready(m) && Later(n0, m) && Got(m.b.receiver) <= Got(m0.b.receiver)
    ensures WindowSize(m.b.receiver) > 0
  {
    ReadStep(m0, count, n0);
    ReadyLinked(m);
    RoomLasts(n0.b.receiver, m.b.receiver, m.a.sender);
  }

  lemma ReadStep(m: Pair, count: nat, n: Pair)
    requires n == PairNext(m, AtB(AppTakes(count))) && count >= |m.b.receiver.store.out.written|
    ensures var r, t := m.b.receiver, n.b.receiver;
            && t.store.out.read == |t.store.out.written| && t.store.out.capacity == r.store.out.capacity
            && t.syn == r.syn && Got(t) == Got(r)
  {
  }

  /** An acknowledgment of all that has arrived is the latest one. */
  lemma IsLatest(m: Pair, w: TCPSegment)
    requires Ready(m) && w in m.fromB && w.header.ack && !w.header.rst
    requires Absolute(w.header.ackno, m.a.sender.isn) >= Got(m.b.receiver)
    ensures m.b.receiver.syn && Gives(w, m.b.receiver) && AckedBy(w.header.ackno, m.a.sender, m.b.receiver)
  {
    assert From(w, m.b.sender, m.b.receiver, m.a.sender);
    ReadyLinked(m);
    WrapOfAbsolute(w.header.ackno, m.a.sender.isn);
  }

  /** Telling the first endpoint that all it sent has arrived makes it send more. */
  lemma ToldAdvances(m: Pair, w: TCPSegment, n: Pair)
    requires Ready(m) && w in m.fromB && w.header.ack && !w.header.rst && n == PairNext(m, AtA(Segment(w)))
    requires 0 < Got(m.b.receiver) == m.a.sender.nextSeqno < Goal(m.a.sender)
    requires Absolute(w.header.ackno, m.a.sender.isn) >= Got(m.b.receiver)
    ensures m.a.sender.nextSeqno < n.a.sender.nextSeqno
  {
    StillOpen(m);
    ReadyLinked(m);
    IsLatest(m, w);
    AckMovesSender(m.a.sender, m.b.receiver, w);
    SameStep(m, w, n);
  }

  lemma SameStep(m: Pair, w: TCPSegment, n: Pair)
    requires m.a.active && !m.a.sender.stream.error && m.a.sender.nextSeqno > 0 && w.header.ack && !w.header.rst
    requires n == PairNext(m, AtA(Segment(w)))
    ensures n.a.sender.nextSeqno == AfterAck(m.a.sender, w.header.ackno, w.header.win).nextSeqno
  {
    TakenInNumbers(m.a, w);
  }

  lemma AckAdvances(p: Pair, es: seq<PairEvent>, q: Pair, i: nat)
    requires GoodRun(p, es, q) && Told(es, i, p.a.sender.isn, Got(p.b.receiver))
    requires 0 < Got(p.b.receiver) == p.a.sender.nextSeqno < Goal(p.a.sender)
    ensures Measure(p) < Measure(q)
  {
    var m, n := Happens(p, es, q, i);
    LaterMeasure(p, m);
    LaterMeasure(m, q);
    LaterMeasure(n, q);
    if Measure(m) == Measure(p) {
      ToldAdvances(m, es[i].call.seg, n);
    }
  }

  /** What is outstanding covers what the peer wants. */
  lemma WantedOutstanding(p: Pair) returns (j: nat, a: nat)
    requires Ready(p) && Got(p.b.receiver) < p.a.sender.nextSeqno
    ensures j < |p.a.sender.outstanding| && EmittedAt(p.a.sender.outstanding[j], a, p.a.sender)
    ensures a <= Got(p.b.receiver) < a + SequenceLength(p.a.sender.outstanding[j])
  {
    var s := p.a.sender;
    GotBounds(p);
    j, a := FindCover(s.outstanding, s.isn, QueueHead(s), s.nextSeqno, s.stream.written, s.stream.ended,
                      Got(p.b.receiver));
  }

  lemma ServedAdvances(p: Pair, es: seq<PairEvent>, q: Pair, k: nat)
    requires GoodRun(p, es, q) && ServedFrom(p, es, k) && Got(p.b.receiver) < p.a.sender.nextSeqno
    ensures Got(p.b.receiver) < Got(q.b.receiver)
  {
    GotBounds(p);
    var j, a := WantedOutstanding(p);
    var seg := p.a.sender.outstanding[j];
    assert ReachedAfter(es, k, seg);
    var i :| k < i && Reached(es, i, seg);
    DeliveryAdvances(p, es, q, k, i, seg, a);
  }

  /** A fair round gets on, unless everything has arrived. */
  lemma RoundAdvances(p: Pair, es: seq<PairEvent>, q: Pair)
    requires GoodRun(p, es, q) && Round(p, es) && p.a.sender.nextSeqno > 0
    ensures Measure(p) < Measure(q) || Got(p.b.receiver) == Goal(p.a.sender)
  {
    GotBounds(p);
    if Got(p.b.receiver) < p.a.sender.nextSeqno {
      var k :| ServedFrom(p, es, k);
      ServedAdvances(p, es, q, k);
      RunLater(p, es);
      LaterMeasure(p, q);
    } else if Got(p.b.receiver) < Goal(p.a.sender) {
      var i :| Told(es, i, p.a.sender.isn, Got(p.b.receiver));
      AckAdvances(p, es, q, i);
    }
  }

  // ---------------------------------------------------------------- fair rounds exist

  /** One more event that writes nothing and brings no reset. */
  lemma Extends(p: Pair, es: seq<PairEvent>, m: Pair, e: PairEvent) returns (n: Pair)
    requires GoodRun(p, es, m) && Possible(m, e) && Harmless(e.call)
    ensures n == PairNext(m, e) && GoodRun(p, es + [e], n) && m.fromA <= n.fromA && m.fromB <= n.fromB
  {
    var u := Before(p, es, m, |es|);
    assert es[..|es|] == es;
    match e {
      case AtA(call) => n := StepAForth(m, call, ConnNext(m.a, call));
      case AtB(call) => n := StepBForth(m, call, ConnNext(m.b, call));
    }
    RunThen(p, es, e);
  }

  lemma ReadsStill(p: Pair, es: seq<PairEvent>, e: PairEvent, k: nat)
    requires ReadsAll(p, es, k)
    ensures ReadsAll(p, es + [e], k)
  {
    assert (es + [e])[..k] == es[..k];
  }

  lemma ReachedStill(es: seq<PairEvent>, e: PairEvent, k: nat, seg: TCPSegment)
    requires ReachedAfter(es, k, seg)
    ensures ReachedAfter(es + [e], k, seg)
  {
    var i :| k < i && Reached(es, i, seg);
    assert Reached(es + [e], i, seg);
  }

  /** The first `j` outstanding segments have been delivered after the reading. */
  ghost predicate Served(p: Pair, es: seq<PairEvent>, j: nat)
    requires j <= |p.a.sender.outstanding|
  {
    && ReadsAll(p, es, 0)
    && forall i :: 0 <= i < j ==> ReachedAfter(es, 0, p.a.sender.outstanding[i])
  }

  lemma ServedStill(p: Pair, es: seq<PairEvent>, e: PairEvent, j: nat)
    requires j <= |p.a.sender.outstanding| && Served(p, es, j)
    ensures Served(p, es + [e], j)
  {
    ReadsStill(p, es, e, 0);
    forall i | 0 <= i < j ensures ReachedAfter(es + [e], 0, p.a.sender.outstanding[i]) {
      ReachedStill(es, e, 0, p.a.sender.outstanding[i]);
    }
  }

  lemma ServeOne(p: Pair, es: seq<PairEvent>, m: Pair, j: nat) returns (fs: seq<PairEvent>, n: Pair)
    requires GoodRun(p, es, m) && p.fromA <= m.fromA && p.fromB <= m.fromB
    requires j < |p.a.sender.outstanding| && Served(p, es, j)
    ensures GoodRun(p, fs, n) && p.fromA <= n.fromA && p.fromB <= n.fromB && Served(p, fs, j + 1)
  {
    var w := OutstandingOnWire(p, j);
    var e := AtB(Segment(w));
    n := Extends(p, es, m, e);
    fs := es + [e];
    ServedStill(p, es, e, j);
    assert Reached(fs, |es|, p.a.sender.outstanding[j]);
    assert ReachedAfter(fs, 0, p.a.sender.outstanding[j]);
  }

  lemma {:induction false} ServeAll(p: Pair, j: nat) returns (es: seq<PairEvent>, m: Pair)
    requires Ready(p) && j <= |p.a.sender.outstanding|
    ensures GoodRun(p, es, m) && p.fromA <= m.fromA && p.fromB <= m.fromB && Served(p, es, j)
  {
    if j == 0 {
      var e := AtB(AppTakes(|p.b.receiver.store.out.written|));
      assert PairRun(p, []) == Some(p);
      m := Extends(p, [], p, e);
      es := [] + [e];
      assert es[..0] == [];
    } else {
      es, m := ServeAll(p, j - 1);
      es, m := ServeOne(p, es, m, j - 1);
    }
  }

  /** From every state two endpoints reach without error there is a fair round. */
  lemma FairRoundExists(p: Pair) returns (es: seq<PairEvent>, q: Pair)
    requires Ready(p)
    ensures GoodRun(p, es, q) && Round(p, es)
  {
    es, q := ServeAll(p, |p.a.sender.outstanding|);
    if Got(p.b.receiver) > 0 {
      var w := FindAck(p);
      var e := AtA(Segment(w));
      q := Extends(p, es, q, e);
      ServedStill(p, es, e, |p.a.sender.outstanding|);
      es := es + [e];
      AckIsAll(p, w);
      assert Told(es, |es| - 1, p.a.sender.isn, Got(p.b.receiver));
    }
    assert ServedFrom(p, es, 0);
  }

  lemma AckIsAll(p: Pair, w: TCPSegment)
    requires Ready(p) && p.b.receiver.syn && Gives(w, p.b.receiver)
    ensures Absolute(w.header.ackno, p.a.sender.isn) == Got(p.b.receiver)
  {
    ReadyLinked(p);
    AckGiven(p.a.sender, p.b.receiver);
  }

  // ---------------------------------------------------------------- round after round

  /** One fair round after the other. */
  ghost predicate Fair(p: Pair, rounds: seq<seq<PairEvent>>)
    decreases |rounds|
  {
    || rounds == []
    || (Round(p, rounds[0]) && PairRun(p, rounds[0]).Some? && Fair(PairRun(p, rounds[0]).value, rounds[1..]))
  }

  /** Where they lead. */
  ghost function AfterRounds(p: Pair, rounds: seq<seq<PairEvent>>): Pair
    requires Fair(p, rounds)
    decreases |rounds|
  {
    if rounds == [] then p else AfterRounds(PairRun(p, rounds[0]).value, rounds[1..])
  }

  /** The run they make up. */
  lemma {:induction false} RoundsRun(p: Pair, rounds: seq<seq<PairEvent>>)
    requires Fair(p, rounds)
    ensures Reaches(p, AfterRounds(p, rounds))
    decreases |rounds|
  {
    if rounds == [] {
      ReachesSelf(p);
    } else {
      var m := PairRun(p, rounds[0]).value;
      var q := AfterRounds(m, rounds[1..]);
      assert Reaches(p, m);
      RoundsRun(m, rounds[1..]);
      ReachesThen(p, m, q);
    }
  }

  /** A way to go on that ends without error, seen from its middle. */
  lemma FirstRound(p: Pair, m: Pair, q: Pair, es: seq<PairEvent>)
    requires Ready(p) && PairRun(p, es) == Some(m) && Reaches(m, q) && BothShort(q) && NoError(q)
    ensures GoodRun(p, es, m) && Ready(m) && Later(p, m) && Later(m, q)
  {
    var rest :| PairRun(m, rest) == Some(q);
    ReachesSelf(p);
    RunGrows(m, rest);
    PairRunKeen(p, es);
    RunKeepsRoom(p, es);
    NoErrorAlong(m, rest);
    RunLater(p, es);
    RunLater(m, rest);
  }

  lemma {:induction false} RunGrows(p: Pair, es: seq<PairEvent>)
    requires PairRun(p, es).Some? && BothShort(PairRun(p, es).value)
    ensures BothShort(p)
  {
    if es != [] {
      PairStepGrows(PairRun(p, es[..|es| - 1]).value, es[|es| - 1]);
      RunGrows(p, es[..|es| - 1]);
    }
  }

  lemma {:induction false} RoundsAdvance(p: Pair, rounds: seq<seq<PairEvent>>)
    requires Ready(p) && p.a.sender.nextSeqno > 0 && Fair(p, rounds)
    requires var q := AfterRounds(p, rounds);
             BothShort(q) && NoError(q) && Goal(q.a.sender) == Goal(p.a.sender)
    requires Measure(p) + |rounds| >= 2 * Goal(p.a.sender)
    ensures Got(AfterRounds(p, rounds).b.receiver) == Goal(p.a.sender)
    ensures Ready(AfterRounds(p, rounds))
    decreases |rounds|
  {
    GotBounds(p);
    if rounds != [] {
      var m, q := PairRun(p, rounds[0]).value, AfterRounds(p, rounds);
      RoundsRun(m, rounds[1..]);
      FirstRound(p, m, q, rounds[0]);
      LaterMeasure(p, m);
      LaterMeasure(m, q);
      RoundAdvances(p, rounds[0], m);
      GotBounds(m);
      RoundsAdvance(m, rounds[1..]);
    }
  }

  /**
   Every fair way to go on delivers: from any state two endpoints reach without
   error, once the first has connected and as long as its application writes nothing
   more, any run of fair rounds that does not end in error, whatever else happens in
   it, has delivered the stream, and its end if there is one, after at most two
   rounds for each of its sequence numbers.
   */
  lemma FairDelivers(ta: u16, ra: nat, sa: nat, ia: u32, tb: u16, rb: nat, sb: nat, ib: u32, es: seq<PairEvent>,
                     rounds: seq<seq<PairEvent>>)
    requires PairRun(FreshPair(ta, ra, sa, ia, tb, rb, sb, ib), es).Some? && ra > 0 && rb > 0
    requires var p := PairRun(FreshPair(ta, ra, sa, ia, tb, rb, sb, ib), es).value;
             && BothShort(p) && NoError(p) && p.a.sender.nextSeqno > 0
             && Fair(p, rounds) && |rounds| >= 2 * Goal(p.a.sender)
             && var q := AfterRounds(p, rounds);
                BothShort(q) && NoError(q) && Goal(q.a.sender) == Goal(p.a.sender)
    ensures var p := PairRun(FreshPair(ta, ra, sa, ia, tb, rb, sb, ib), es).value;
            var q := AfterRounds(p, rounds);
            && q.b.receiver.store.out.written == q.a.sender.stream.written
            && q.b.receiver.store.out.ended == q.a.sender.stream.ended
  {
    var p := PairRun(FreshPair(ta, ra, sa, ia, tb, rb, sb, ib), es).value;
    ReachableReady(ta, ra, sa, ia, tb, rb, sb, ib, es);
    RoundsAdvance(p, rounds);
    GotAll(AfterRounds(p, rounds));
  }

  lemma GotAll(p: Pair)
    requires Ready(p) && Got(p.b.receiver) == Goal(p.a.sender)
    ensures p.b.receiver.store.out.written == p.a.sender.stream.written
    ensures p.b.receiver.store.out.ended == p.a.sender.stream.ended
  {
    ReadyLinked(p);
    LinkedMeaning(p.a.sender, p.b.receiver);
  }
}
