/**
 What the applications say and hear. The streams inside the endpoints are tied to
 the bytes that applications hand over and take out, call by call and over every run.
 */
module Conversations {
  import opened Words
  import opened ByteStreams
  import opened Stores
  import opened Segments
  import opened Receivers
  import opened Senders
  import opened SenderRuns
  import opened Connections
  import opened ConnectionProofs
  import opened Pairs
  import opened Progress
  import opened Closing
  import opened CloseTheorems

  // ---------------------------------------------------------------- one endpoint

  /** The bytes of a write that are accepted: as many as there is room for, while there is still a use for them. */
  function Wrote(c: Connection, e: ConnEvent): seq<byte> {
    var s := c.sender.stream;
    if e.AppWrites? && c.active && !s.ended then e.data[..Min(|e.data|, s.capacity - (|s.written| - s.read))] else []
  }

  /** The bytes a read returns: the next ones not read yet. */
  function Got(c: Connection, e: ConnEvent): seq<byte> {
    var out := c.receiver.store.out;
    if e.AppTakes? then out.written[out.read..out.read + Min(e.n, |out.written| - out.read)] else []
  }

  /** Everything an application wrote over a run, in the order of its writes. */
  function WroteAll(c: Connection, es: seq<ConnEvent>): seq<byte> {
    if es == [] then []
    else WroteAll(c, es[..|es| - 1]) + Wrote(ConnRun(c, es[..|es| - 1]), es[|es| - 1])
  }

  /** Everything an application read over a run, in the order of its reads. */
  function GotAll(c: Connection, es: seq<ConnEvent>): seq<byte> {
    if es == [] then []
    else GotAll(c, es[..|es| - 1]) + Got(ConnRun(c, es[..|es| - 1]), es[|es| - 1])
  }

  /** The stream to be sent holds the same bytes and has the same end mark. */
  predicate SameInput(s: Sender, t: Sender) {
    t.stream.written == s.stream.written && t.stream.ended == s.stream.ended
  }

  lemma FillSameInput(s: Sender)
    ensures SameInput(s, AfterFill(s))
  {
    FillLoopKeepsWritten(s);
  }

  lemma AckSameInput(s: Sender, seg: TCPSegment)
    ensures SameInput(s, AckTaken(s, seg))
  {
    if seg.header.ack {
      FillSameInput(Acknowledged(s, seg.header.ackno, seg.header.win));
    }
  }

  lemma TakenInSameInput(c: Connection, seg: TCPSegment)
    ensures SameInput(c.sender, TakenIn(c, seg).sender)
  {
    FillSameInput(c.sender);
    AckSameInput(c.sender, seg);
  }

  lemma SegmentSameInput(c: Connection, seg: TCPSegment)
    ensures SameInput(c.sender, AfterConnSegment(c, seg).sender)
  {
    if c.active && !seg.header.rst {
      TakenInSameInput(c, seg);
      SegmentIs(c, seg);
    }
  }

  lemma TickSameInput(c: Connection, ms: nat)
    ensures SameInput(c.sender, AfterConnTick(c, ms).sender)
  {
    var t := TimePassed(c, ms);
    FillSameInput(t.sender);
    assert SameInput(c.sender, t.sender);
  }

  lemma WriteGains(c: Connection, data: seq<byte>)
    ensures var s, t := c.sender.stream, AfterConnWrite(c, data).sender.stream;
            t.written == s.written + Wrote(c, AppWrites(data)) && t.ended == s.ended
  {
    FillSameInput(AfterAppWrite(c.sender, data));
  }

  /** What a call does to the outgoing stream: it gains what the application wrote, and ends if it said so. */
  lemma StepWrites(c: Connection, e: ConnEvent)
    ensures ConnNext(c, e).sender.stream.written == c.sender.stream.written + Wrote(c, e)
    ensures ConnNext(c, e).sender.stream.ended <==> c.sender.stream.ended || e.AppEnds?
  {
    match e
    case Connects => FillSameInput(c.sender);
    case AppWrites(data) => WriteGains(c, data);
    case AppEnds => FillSameInput(AfterAppEnd(c.sender));
    case Ticks(ms) => TickSameInput(c, ms);
    case Segment(seg) => SegmentSameInput(c, seg);
    case AppTakes(n) =>
  }

  lemma {:induction false} RunWrites(c: Connection, es: seq<ConnEvent>)
    ensures ConnRun(c, es).sender.stream.written == c.sender.stream.written + WroteAll(c, es)
  {
    if es != [] {
      var init, last := es[..|es| - 1], es[|es| - 1];
      RunWrites(c, init);
      StepWrites(ConnRun(c, init), last);
      Regroup(c.sender.stream.written, WroteAll(c, init), Wrote(ConnRun(c, init), last));
    }
  }

  lemma {:induction false} RunEnds(c: Connection, es: seq<ConnEvent>)
    ensures ConnRun(c, es).sender.stream.ended <==> c.sender.stream.ended || AppEnds in es
  {
    if es != [] {
      var init, last := es[..|es| - 1], es[|es| - 1];
      RunEnds(c, init);
      StepWrites(ConnRun(c, init), last);
      assert AppEnds in es <==> AppEnds in init || last == AppEnds by {
        assert es == init + [last];
      }
    }
  }

  lemma SegmentReads(c: Connection, seg: TCPSegment)
    ensures var s, t := c.receiver.store.out, AfterConnSegment(c, seg).receiver.store.out;
            s.written <= t.written && t.read == s.read
  {
    if c.active && !seg.header.rst {
      HeardReads(c.receiver, seg);
      SegmentIs(c, seg);
    }
  }

  lemma HeardReads(r: Receiver, seg: TCPSegment)
    ensures var s, t := r.store.out, AfterSegment(r, seg).store.out;
            s.written <= t.written && t.read == s.read
  {
    PushForward(r.store, seg.payload, if r.syn then StreamIndex(r, seg) else 0, seg.header.fin);
  }

  lemma TickReads(c: Connection, ms: nat)
    ensures var s, t := c.receiver.store.out, AfterConnTick(c, ms).receiver.store.out;
            t.written == s.written && t.read == s.read
  {
  }

  /** What a call does to the incoming stream: only reading moves the reader, by what is returned. */
  lemma StepReads(c: Connection, e: ConnEvent)
    ensures var s, t := c.receiver.store.out, ConnNext(c, e).receiver.store.out;
            s.written <= t.written && t.read == s.read + |Got(c, e)| && t.written[s.read..t.read] == Got(c, e)
  {
    match e
    case Connects =>
    case AppWrites(data) =>
    case AppEnds =>
    case Ticks(ms) => TickReads(c, ms);
    case Segment(seg) => SegmentReads(c, seg);
    case AppTakes(n) =>
  }

  lemma JoinReads(a: seq<byte>, b: seq<byte>, i: nat, j: nat, k: nat)
    requires a <= b && i <= j <= |a| && j <= k <= |b|
    ensures a[i..j] + b[j..k] == b[i..k]
  {
  }

  lemma {:induction false} RunReads(c: Connection, es: seq<ConnEvent>)
    ensures var s, t := c.receiver.store.out, ConnRun(c, es).receiver.store.out;
            s.written <= t.written && s.read <= t.read && GotAll(c, es) == t.written[s.read..t.read]
  {
    if es != [] {
      var init, last := es[..|es| - 1], es[|es| - 1];
      var m := ConnRun(c, init);
      RunReads(c, init);
      StepReads(m, last);
      JoinReads(m.receiver.store.out.written, ConnRun(c, es).receiver.store.out.written,
                c.receiver.store.out.read, m.receiver.store.out.read, ConnRun(c, es).receiver.store.out.read);
    }
  }

  // ---------------------------------------------------------------- two endpoints

  /** The calls made at the first endpoint, in their order. */
  function CallsA(es: seq<PairEvent>): seq<ConnEvent> {
    if es == [] then []
    else CallsA(es[..|es| - 1]) + if es[|es| - 1].AtA? then [es[|es| - 1].call] else []
  }

  function CallsB(es: seq<PairEvent>): seq<ConnEvent> {
    if es == [] then []
    else CallsB(es[..|es| - 1]) + if es[|es| - 1].AtB? then [es[|es| - 1].call] else []
  }

  function Unqueued(c: Connection): Connection {
    c.(segmentsOut := [])
  }

  lemma CleanUnqueued(c: Connection)
    ensures Unqueued(CleanShutdown(Flushed(Unqueued(c)))) == Unqueued(CleanShutdown(Flushed(c)))
  {
    assert Unqueued(CleanShutdown(Flushed(c))) == CleanShutdown(Unqueued(Flushed(c)));
    assert Unqueued(Flushed(Unqueued(c))) == Unqueued(Flushed(c));
  }

  lemma RespondUnqueued(c: Connection, seg: TCPSegment)
    ensures Unqueued(Responded(Unqueued(c), seg)) == Unqueued(Responded(c, seg))
  {
    assert Answered(Unqueued(c), seg) == Unqueued(Answered(c, seg));
    CleanUnqueued(Answered(c, seg));
  }

  lemma SegmentUnqueued(c: Connection, seg: TCPSegment)
    ensures Unqueued(AfterConnSegment(Unqueued(c), seg)) == Unqueued(AfterConnSegment(c, seg))
  {
    assert Heard(Unqueued(c), seg) == Unqueued(Heard(c, seg));
    RespondUnqueued(Heard(c, seg), seg);
  }

  lemma RstUnqueued(c: Connection)
    ensures Unqueued(RstSent(Unqueued(c))) == Unqueued(RstSent(c))
  {
  }

  lemma TickUnqueued(c: Connection, ms: nat)
    ensures Unqueued(AfterConnTick(Unqueued(c), ms)) == Unqueued(AfterConnTick(c, ms))
  {
    var t := TimePassed(c, ms);
    assert TimePassed(Unqueued(c), ms) == Unqueued(t);
    RstUnqueued(t);
    CleanUnqueued(t);
  }

  /** No call looks at the segments that wait to go out. */
  lemma StepUnqueued(c: Connection, e: ConnEvent)
    ensures Unqueued(ConnNext(Unqueued(c), e)) == Unqueued(ConnNext(c, e))
  {
    match e
    case Connects =>
    case AppWrites(data) =>
    case AppEnds =>
    case Ticks(ms) => TickUnqueued(c, ms);
    case Segment(seg) => SegmentUnqueued(c, seg);
    case AppTakes(n) =>
  }

  lemma SnocRun(c: Connection, es: seq<ConnEvent>, e: ConnEvent)
    ensures ConnRun(c, es + [e]) == ConnNext(ConnRun(c, es), e)
  {
    assert (es + [e])[..|es|] == es;
  }

  lemma StepAlone(p: Pair, c: Connection, es: seq<ConnEvent>, e: ConnEvent)
    requires p.a == Unqueued(ConnRun(c, es))
    ensures StepA(p, e).a == Unqueued(ConnRun(c, es + [e])) && StepA(p, e).b == p.b
  {
    SnocRun(c, es, e);
    StepUnqueued(ConnRun(c, es), e);
  }

  /** From `p` to `m` each endpoint did what it would do alone with these calls. */
  predicate Alone(p: Pair, m: Pair, atA: seq<ConnEvent>, atB: seq<ConnEvent>) {
    m.a == Unqueued(ConnRun(p.a, atA)) && m.b == Unqueued(ConnRun(p.b, atB))
  }

  lemma NextAlone(p: Pair, m: Pair, atA: seq<ConnEvent>, atB: seq<ConnEvent>, e: PairEvent)
    requires Alone(p, m, atA, atB)
    ensures e.AtA? ==> Alone(p, PairNext(m, e), atA + [e.call], atB)
    ensures e.AtB? ==> Alone(p, PairNext(m, e), atA, atB + [e.call])
  {
    if e.AtA? {
      StepAlone(m, p.a, atA, e.call);
    } else {
      StepAlone(Swapped(m), p.b, atB, e.call);
    }
  }

  lemma SnocCalls(es: seq<PairEvent>, e: PairEvent)
    ensures CallsA(es + [e]) == if e.AtA? then CallsA(es) + [e.call] else CallsA(es)
    ensures CallsB(es + [e]) == if e.AtB? then CallsB(es) + [e.call] else CallsB(es)
  {
    assert (es + [e])[..|es|] == es;
  }

  lemma SnocAlone(p: Pair, m: Pair, es: seq<PairEvent>, e: PairEvent)
    requires Alone(p, m, CallsA(es), CallsB(es))
    ensures Alone(p, PairNext(m, e), CallsA(es + [e]), CallsB(es + [e]))
  {
    SnocCalls(es, e);
    NextAlone(p, m, CallsA(es), CallsB(es), e);
  }

  /** In a pair each endpoint does what it would do alone with the calls made at it. */
  lemma {:induction false} EachAlone(p: Pair, es: seq<PairEvent>)
    requires PairRun(p, es).Some? && p.a.segmentsOut == p.b.segmentsOut == []
    ensures Alone(p, PairRun(p, es).value, CallsA(es), CallsB(es))
  {
    if es != [] {
      var init, last := es[..|es| - 1], es[|es| - 1];
      EachAlone(p, init);
      SnocAlone(p, PairRun(p, init).value, init, last);
      assert es == init + [last];
    }
  }

  /**
   One direction, in the words of the applications: what the reader read so far,
   what its endpoint has assembled, and what the writer wrote begin alike; the
   reader meets the end only after the writer set it, having read it all.
   */
  ghost predicate Spoken(writer: Connection, calls: seq<ConnEvent>, reader: Connection, taken: seq<ConnEvent>) {
    var said, heard := WroteAll(writer, calls), ConnRun(reader, taken).receiver.store.out;
    && GotAll(reader, taken) <= heard.written <= said
    && (heard.ended ==> AppEnds in calls && heard.written == said)
    && (Eof(heard) ==> GotAll(reader, taken) == said)
  }

  predicate ClosedCleanly(c: Connection) {
    !c.active && !c.sender.stream.error
  }

  lemma DeliversSpoken(p: Pair, writer: Connection, calls: seq<ConnEvent>, reader: Connection, taken: seq<ConnEvent>)
    requires writer.sender.stream.written == [] && !writer.sender.stream.ended
    requires reader.receiver.store.out.written == []
    requires p.a == Unqueued(ConnRun(writer, calls)) && p.b == Unqueued(ConnRun(reader, taken))
    requires Delivers(p.a.sender, p.b.receiver)
    ensures Spoken(writer, calls, reader, taken)
    ensures p.a.sender.stream.written == WroteAll(writer, calls)
    ensures GotAll(reader, taken) == p.b.receiver.store.out.written[..p.b.receiver.store.out.read]
  {
    RunWrites(writer, calls);
    RunEnds(writer, calls);
    RunReads(reader, taken);
  }

  /**
   The theorem of the whole system, in the words of the applications. Whatever they
   and the clocks do, and however the network loses, repeats and reorders: what an
   application has read is the beginning of what the other wrote, it finds the end
   only when it has read all of that and the other has ended it, and a connection
   that closed without error has what both wrote assembled in full.
   */
  lemma ConversationTheorem(ta: u16, ra: nat, sa: nat, ia: u32, tb: u16, rb: nat, sb: nat, ib: u32, es: seq<PairEvent>)
    requires PairRun(FreshPair(ta, ra, sa, ia, tb, rb, sb, ib), es).Some?
    requires BothShort(PairRun(FreshPair(ta, ra, sa, ia, tb, rb, sb, ib), es).value)
    ensures var f := FreshPair(ta, ra, sa, ia, tb, rb, sb, ib);
            var p := PairRun(f, es).value;
            && Spoken(f.a, CallsA(es), f.b, CallsB(es)) && Spoken(f.b, CallsB(es), f.a, CallsA(es))
            && (ClosedCleanly(p.a) || ClosedCleanly(p.b) ==>
                  Exchanged(p, WroteAll(f.a, CallsA(es)), WroteAll(f.b, CallsB(es))))
  {
    var f := FreshPair(ta, ra, sa, ia, tb, rb, sb, ib);
    var p := PairRun(f, es).value;
    PairTheorem(ta, ra, sa, ia, tb, rb, sb, ib, es);
    EachAlone(f, es);
    DeliversSpoken(p, f.a, CallsA(es), f.b, CallsB(es));
    DeliversSpoken(Swapped(p), f.b, CallsB(es), f.a, CallsA(es));
  }

  lemma SnocAll(c: Connection, es: seq<ConnEvent>, e: ConnEvent)
    ensures GotAll(c, es + [e]) == GotAll(c, es) + Got(ConnRun(c, es), e)
    ensures WroteAll(c, es + [e]) == WroteAll(c, es) + Wrote(ConnRun(c, es), e)
  {
    assert (es + [e])[..|es|] == es;
  }

  lemma TakesTheRest(c: Connection, n: nat)
    requires n == |c.receiver.store.out.written|
    ensures var out := c.receiver.store.out; out.written[..out.read] + Got(c, AppTakes(n)) == out.written
    ensures Wrote(c, AppTakes(n)) == []
  {
  }

  /** An application that takes as many bytes as there are has read everything. */
  lemma ReadsOut(c: Connection, es: seq<ConnEvent>, n: nat)
    requires c.receiver.store.out.read == 0 && n == |ConnRun(c, es).receiver.store.out.written|
    ensures GotAll(c, es + [AppTakes(n)]) == ConnRun(c, es).receiver.store.out.written
    ensures WroteAll(c, es + [AppTakes(n)]) == WroteAll(c, es)
  {
    SnocAll(c, es, AppTakes(n));
    TakesTheRest(ConnRun(c, es), n);
    RunReads(c, es);
  }

  /** The first application reads whatever is there for it. */
  lemma ThenReads(f: Pair, es: seq<PairEvent>, q: Pair) returns (all: seq<PairEvent>)
    requires PairRun(f, es) == Some(q) && f.a.receiver.store.out.read == 0
    requires q.a == Unqueued(ConnRun(f.a, CallsA(es)))
    ensures PairRun(f, all) == Some(StepA(q, AppTakes(|q.a.receiver.store.out.written|)))
    ensures GotAll(f.a, CallsA(all)) == q.a.receiver.store.out.written
    ensures WroteAll(f.a, CallsA(all)) == WroteAll(f.a, CallsA(es)) && CallsB(all) == CallsB(es)
  {
    var n := |q.a.receiver.store.out.written|;
    all := es + [AtA(AppTakes(n))];
    ReadsOut(f.a, CallsA(es), n);
    RunThen(f, es, AtA(AppTakes(n)));
    SnocCalls(es, AtA(AppTakes(n)));
  }

  lemma ThenPeerReads(f: Pair, es: seq<PairEvent>, q: Pair) returns (all: seq<PairEvent>)
    requires PairRun(f, es) == Some(q) && f.b.receiver.store.out.read == 0
    requires q.b == Unqueued(ConnRun(f.b, CallsB(es)))
    ensures PairRun(f, all) == Some(Swapped(StepA(Swapped(q), AppTakes(|q.b.receiver.store.out.written|))))
    ensures GotAll(f.b, CallsB(all)) == q.b.receiver.store.out.written
    ensures WroteAll(f.b, CallsB(all)) == WroteAll(f.b, CallsB(es)) && CallsA(all) == CallsA(es)
  {
    var n := |q.b.receiver.store.out.written|;
    all := es + [AtB(AppTakes(n))];
    ReadsOut(f.b, CallsB(es), n);
    RunThen(f, es, AtB(AppTakes(n)));
    SnocCalls(es, AtB(AppTakes(n)));
  }

  lemma StaysClosed(q: Pair, n: nat)
    ensures BothClosed(StepA(q, AppTakes(n))) == BothClosed(q)
  {
  }

  /**
   Any two byte strings can be exchanged: there is a run from the start in which one
   application writes exactly `x` and the other reads exactly `x`, and likewise `y`
   the other way, and both connections close cleanly.
   */
  lemma AnyConversation(x: seq<byte>, y: seq<byte>,
                        ta: u16, ra: nat, sa: nat, ia: u32, tb: u16, rb: nat, sb: nat, ib: u32)
    returns (es: seq<PairEvent>)
    requires ra > 0 && rb > 0 && sa > 0 && sb > 0 && |x| + 2 < TWO31 && |y| + 2 < TWO31
    ensures var f := FreshPair(ta, ra, sa, ia, tb, rb, sb, ib);
            && PairRun(f, es).Some? && BothClosed(PairRun(f, es).value)
            && WroteAll(f.a, CallsA(es)) == x == GotAll(f.b, CallsB(es))
            && WroteAll(f.b, CallsB(es)) == y == GotAll(f.a, CallsA(es))
  {
    var f := FreshPair(ta, ra, sa, ia, tb, rb, sb, ib);
    var q := AnyExchange(x, y, ta, ra, sa, ia, tb, rb, sb, ib);
    var first :| PairRun(f, first) == Some(q);
    EachAlone(f, first);
    RunWrites(f.a, CallsA(first));
    RunWrites(f.b, CallsB(first));
    var m := StepA(q, AppTakes(|y|));
    var second := ThenReads(f, first, q);
    es := ThenPeerReads(f, second, m);
    StaysClosed(q, |y|);
    StaysClosed(Swapped(m), |x|);
  }
}
