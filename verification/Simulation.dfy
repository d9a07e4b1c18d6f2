/**
 The objects at work: two `TCPConnection` objects and a network, driven by a list
 of events. What is proved of every run of the values holds of the objects.
 */
module Simulation {
  import opened Words
  import opened ByteStreams
  import opened Stores
  import opened Segments
  import opened Receivers
  import opened Senders
  import opened Segmentation
  import opened Connections
  import opened SenderRuns
  import opened Pairs
  import opened CloseTheorems
  import opened Conversations
  import opened TcpConnections

  /** Everything an endpoint owns; the parts never change. */
  ghost function Parts(c: TCPConnection): set<object> {
    {c, c.sender, c.sender.stream, c.sender.timer, c.receiver, c.receiver.reassembler, c.receiver.output}
  }

  /** What the objects ask of their caller for this call. */
  ghost predicate Legal(c: Connection, e: ConnEvent, S: seq<byte>) {
    && (e.Segment? ==> Faithful(c.receiver.store, S) && Fits(c.receiver, e.seg, S))
    && (e.AppWrites? && c.active ==> Countable(AfterAppWrite(c.sender, e.data)))
  }

  /** One event at an endpoint; a read returns its bytes. */
  method Call(c: TCPConnection, e: ConnEvent, ghost S: seq<byte>) returns (bytes: seq<byte>)
    requires c.Valid() && Legal(c.State(), e, S)
    modifies Parts(c)
    ensures c.Valid() && c.State() == ConnNext(old(c.State()), e)
    ensures bytes == Got(old(c.State()), e)
  {
    bytes := [];
    match e
    case Connects => c.Connect();
    case AppWrites(data) => var len := c.Write(data);
    case AppEnds => c.EndInputStream();
    case Ticks(ms) => c.Tick(ms);
    case Segment(seg) => c.SegmentReceived(seg, S);
    case AppTakes(n) => bytes := c.receiver.reassembler.ReadOutput(n);
  }

  /** One event at the endpoint `c`, whose owner then puts its outgoing segments on the wire. */
  method CallAndSend(c: TCPConnection, e: ConnEvent, wire: set<TCPSegment>, ghost S: seq<byte>)
    returns (sent: set<TCPSegment>, bytes: seq<byte>)
    requires c.Valid() && Legal(c.State(), e, S)
    modifies Parts(c)
    ensures c.Valid() && c.State() == ConnNext(old(c.State()), e).(segmentsOut := [])
    ensures sent == wire + set seg | seg in ConnNext(old(c.State()), e).segmentsOut
    ensures bytes == Got(old(c.State()), e)
  {
    bytes := Call(c, e, S);
    sent := wire + set seg | seg in c.segmentsOut;
    c.segmentsOut := [];
  }

  /** In a run of two endpoints every call is legal. */
  lemma CallIsLegal(p: Pair, e: ConnEvent)
    requires PairInv(p) && BothShort(p) && PossibleAtA(p, e) && Short(ConnNext(p.a, e).sender)
    ensures Legal(p.a, e, p.b.sender.stream.written)
  {
    if e.Segment? {
      DeliveryIsLegal(p, e.seg);
    } else if e.AppWrites? {
      FillKeepsWritten(AfterAppWrite(p.a.sender, e.data));
    }
  }

  /** The two objects and the network between them are as in `p`. */
  ghost predicate Stands(a: TCPConnection, b: TCPConnection, fromA: set<TCPSegment>, fromB: set<TCPSegment>, p: Pair)
    reads Parts(a), Parts(b)
  {
    && Parts(a) !! Parts(b) && a.Valid() && b.Valid()
    && Pair(a.State(), b.State(), fromA, fromB) == p
  }

  /** One event at the first endpoint. */
  method StepFirst(a: TCPConnection, b: TCPConnection, fromA: set<TCPSegment>, fromB: set<TCPSegment>, e: ConnEvent,
                   ghost p: Pair) returns (sent: set<TCPSegment>, bytes: seq<byte>)
    requires Stands(a, b, fromA, fromB, p)
    requires PairInv(p) && BothShort(p) && PossibleAtA(p, e) && Short(ConnNext(p.a, e).sender)
    modifies Parts(a)
    ensures Stands(a, b, sent, fromB, StepA(p, e)) && bytes == Got(p.a, e)
  {
    CallIsLegal(p, e);
    sent, bytes := CallAndSend(a, e, fromA, p.b.sender.stream.written);
  }

  method StepObjects(a: TCPConnection, b: TCPConnection, fromA: set<TCPSegment>, fromB: set<TCPSegment>, e: PairEvent,
                     ghost p: Pair)
    returns (newA: set<TCPSegment>, newB: set<TCPSegment>, gotA: seq<byte>, gotB: seq<byte>)
    requires Stands(a, b, fromA, fromB, p)
    requires PairInv(p) && BothShort(p) && Possible(p, e) && BothShort(PairNext(p, e))
    modifies Parts(a), Parts(b)
    ensures Stands(a, b, newA, newB, PairNext(p, e))
    ensures gotA == (if e.AtA? then Got(p.a, e.call) else []) && gotB == (if e.AtB? then Got(p.b, e.call) else [])
  {
    newA, newB, gotA, gotB := fromA, fromB, [], [];
    match e {
      case AtA(call) => newA, gotA := StepFirst(a, b, fromA, fromB, call, p);
      case AtB(call) => newB, gotB := StepFirst(b, a, fromB, fromA, call, Swapped(p));
    }
  }

  method FreshObjects(ta: u16, ra: nat, sa: nat, ia: u32, tb: u16, rb: nat, sb: nat, ib: u32)
    returns (a: TCPConnection, b: TCPConnection)
    ensures fresh(Parts(a)) && fresh(Parts(b))
    ensures Stands(a, b, {}, {}, FreshPair(ta, ra, sa, ia, tb, rb, sb, ib))
  {
    a := FreshObject(ta, ra, sa, ia);
    b := FreshObject(tb, rb, sb, ib);
  }

  method FreshObject(rtTimeout: u16, recvCapacity: nat, sendCapacity: nat, isn: u32) returns (c: TCPConnection)
    ensures fresh(Parts(c)) && c.Valid()
    ensures c.State() == FreshConnection(rtTimeout, recvCapacity, sendCapacity, isn)
  {
    c := new TCPConnection(rtTimeout, recvCapacity, sendCapacity, isn);
  }

  function WithA(calls: seq<ConnEvent>, e: PairEvent): seq<ConnEvent> {
    if e.AtA? then calls + [e.call] else calls
  }

  function WithB(calls: seq<ConnEvent>, e: PairEvent): seq<ConnEvent> {
    if e.AtB? then calls + [e.call] else calls
  }

  lemma CallsNext(es: seq<PairEvent>, k: nat)
    requires k < |es|
    ensures CallsA(es[..k + 1]) == WithA(CallsA(es[..k]), es[k]) && CallsB(es[..k + 1]) == WithB(CallsB(es[..k]), es[k])
  {
    assert es[..k + 1] == es[..k] + [es[k]];
    SnocCalls(es[..k], es[k]);
  }

  /** The objects, the calls they have had so far, and the bytes read from them. */
  ghost predicate Read(p: Pair, m: Pair, atA: seq<ConnEvent>, atB: seq<ConnEvent>, readA: seq<byte>, readB: seq<byte>) {
    Alone(p, m, atA, atB) && readA == GotAll(p.a, atA) && readB == GotAll(p.b, atB)
  }

  lemma GotNext(c: Connection, calls: seq<ConnEvent>, m: Connection, e: ConnEvent)
    requires m == Unqueued(ConnRun(c, calls))
    ensures GotAll(c, calls + [e]) == GotAll(c, calls) + Got(m, e)
  {
    SnocAll(c, calls, e);
  }

  lemma ReadNext(p: Pair, m: Pair, atA: seq<ConnEvent>, atB: seq<ConnEvent>, readA: seq<byte>, readB: seq<byte>,
                 e: PairEvent)
    requires Read(p, m, atA, atB, readA, readB)
    ensures var gotA := if e.AtA? then Got(m.a, e.call) else [];
            var gotB := if e.AtB? then Got(m.b, e.call) else [];
            Read(p, PairNext(m, e), WithA(atA, e), WithB(atB, e), readA + gotA, readB + gotB)
  {
    NextAlone(p, m, atA, atB, e);
    if e.AtA? {
      GotNext(p.a, atA, m.a, e.call);
      assert readB + [] == readB;
    } else {
      GotNext(p.b, atB, m.b, e.call);
      assert readA + [] == readA;
    }
  }

  /** Two objects driven through any possible run end in the state the run of the values has. */
  method Drive(a: TCPConnection, b: TCPConnection, es: seq<PairEvent>, ghost p: Pair)
    returns (fromA: set<TCPSegment>, fromB: set<TCPSegment>, readA: seq<byte>, readB: seq<byte>)
    requires Stands(a, b, {}, {}, p) && PairInv(p)
    requires PairRun(p, es).Some? && BothShort(PairRun(p, es).value)
    modifies Parts(a), Parts(b)
    ensures Stands(a, b, fromA, fromB, PairRun(p, es).value)
    ensures Read(p, PairRun(p, es).value, CallsA(es), CallsB(es), readA, readB)
  {
    fromA, fromB, readA, readB := {}, {}, [], [];
    ghost var m := p;
    ghost var atA, atB := [], [];
    assert es[..0] == [];
    for k := 0 to |es|
      invariant PairRun(p, es[..k]) == Some(m) && Stands(a, b, fromA, fromB, m)
      invariant atA == CallsA(es[..k]) && atB == CallsB(es[..k])
      invariant Read(p, m, atA, atB, readA, readB)
    {
      NextPrefix(p, es, k);
      CallsNext(es, k);
      ReadNext(p, m, atA, atB, readA, readB, es[k]);
      var gotA, gotB;
      fromA, fromB, gotA, gotB := StepObjects(a, b, fromA, fromB, es[k], m);
      readA, readB := readA + gotA, readB + gotB;
      m, atA, atB := PairNext(m, es[k]), WithA(atA, es[k]), WithB(atB, es[k]);
    }
    assert es[..|es|] == es;
  }

  /**
   The whole system as objects: two fresh endpoints, driven through any possible
   run. What came out of each is the beginning of what was written into the other,
   all of it once the end is met, and a clean close means that everything arrived.
   */
  method Simulate(ta: u16, ra: nat, sa: nat, ia: u32, tb: u16, rb: nat, sb: nat, ib: u32, es: seq<PairEvent>)
    returns (a: TCPConnection, b: TCPConnection, fromA: set<TCPSegment>, fromB: set<TCPSegment>,
             readA: seq<byte>, readB: seq<byte>)
    requires PairRun(FreshPair(ta, ra, sa, ia, tb, rb, sb, ib), es).Some?
    requires BothShort(PairRun(FreshPair(ta, ra, sa, ia, tb, rb, sb, ib), es).value)
    ensures fresh(Parts(a)) && fresh(Parts(b))
    ensures Stands(a, b, fromA, fromB, PairRun(FreshPair(ta, ra, sa, ia, tb, rb, sb, ib), es).value)
    ensures Delivers(a.sender.State(), b.receiver.State()) && Delivers(b.sender.State(), a.receiver.State())
    ensures var f := FreshPair(ta, ra, sa, ia, tb, rb, sb, ib);
            var saidA, saidB := WroteAll(f.a, CallsA(es)), WroteAll(f.b, CallsB(es));
            && readB <= saidA && (Eof(b.receiver.output.State()) ==> readB == saidA)
            && readA <= saidB && (Eof(a.receiver.output.State()) ==> readA == saidB)
            && (ClosedCleanly(a.State()) || ClosedCleanly(b.State()) ==>
                  Exchanged(Pair(a.State(), b.State(), fromA, fromB), saidA, saidB))
  {
    ghost var f := FreshPair(ta, ra, sa, ia, tb, rb, sb, ib);
    assert PairInv(f) by {
      FreshHalf(ta, ra, sa, ia, tb, rb, sb, ib);
      FreshHalf(tb, rb, sb, ib, ta, ra, sa, ia);
    }
    PairTheorem(ta, ra, sa, ia, tb, rb, sb, ib, es);
    ConversationTheorem(ta, ra, sa, ia, tb, rb, sb, ib, es);
    a, b := FreshObjects(ta, ra, sa, ia, tb, rb, sb, ib);
    fromA, fromB, readA, readB := Drive(a, b, es, f);
  }
}
