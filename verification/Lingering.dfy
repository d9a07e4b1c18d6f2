/** When an endpoint gives up its linger time, over every run, and what that means for closing. */
module Lingering {
  import opened Words
  import opened ByteStreams
  import opened Segments
  import opened Senders
  import opened Segmentation
  import opened SenderRuns
  import opened TcpStates
  import opened Connections
  import opened ConnectionProofs
  import opened ConnectionTheorems

  /** The peer's stream has ended while this side's own is still open or unsent: the peer finished first. */
  predicate PeerFirst(c: Connection) {
    c.receiver.store.out.ended && !(c.sender.stream.ended && c.sender.stream.read == |c.sender.stream.written|)
  }

  /** A segment or a tick, taken while active and not ending in error, that left things so. */
  predicate DropsAt(c: Connection, e: ConnEvent) {
    c.active && (e.Segment? || e.Ticks?) && !EndsInError(c, e) && PeerFirst(ConnNext(c, e))
  }

  lemma CleanLinger(c: Connection)
    ensures CleanShutdown(c).linger == (c.linger && !PeerFirst(c))
    ensures PeerFirst(CleanShutdown(c)) == PeerFirst(c)
  {
  }

  lemma SegmentLinger(c: Connection, seg: TCPSegment)
    requires ConnOk(c) && Countable(c.sender) && c.active && !seg.header.rst
    ensures var t := AfterConnSegment(c, seg);
            t.linger == (c.linger && !PeerFirst(t))
  {
    SegmentGoes(c, seg);
    var h := Heard(c, seg);
    if SummaryOfReceiver(h.receiver) != SYN_RECV || SummaryOfSender(h.sender) != CLOSED {
      CleanLinger(TakenIn(c, seg));
    }
  }

  lemma TickLinger(c: Connection, ms: nat)
    requires ConnOk(c) && Countable(c.sender) && c.active
    ensures var t := AfterConnTick(c, ms);
            t.linger == (c.linger && (GivesUp(c, ms) || !PeerFirst(t)))
  {
    TickCounts(c, ms);
    if !GivesUp(c, ms) {
      CleanLinger(Flushed(TimePassed(c, ms)));
    }
  }

  /** One call drops the flag exactly when it leaves the peer first. */
  lemma LingerStep(c: Connection, e: ConnEvent)
    requires ConnOk(c) && Countable(c.sender)
    ensures ConnNext(c, e).linger == (c.linger && !DropsAt(c, e))
  {
    match e
    case Connects =>
    case AppWrites(data) =>
    case AppEnds =>
    case Ticks(ms) =>
      if c.active {
        TickLinger(c, ms);
      }
    case Segment(seg) =>
      if c.active && !seg.header.rst {
        SegmentLinger(c, seg);
      }
    case AppTakes(n) =>
  }

  /** Some call of the run dropped the flag. */
  ghost predicate Dropped(c: Connection, es: seq<ConnEvent>) {
    exists k: nat :: k < |es| && DroppedBy(c, es, k)
  }

  ghost predicate DroppedBy(c: Connection, es: seq<ConnEvent>, k: nat)
    requires k < |es|
  {
    DropsAt(ConnRun(c, es[..k]), es[k])
  }

  lemma DroppedSnoc(c: Connection, es: seq<ConnEvent>)
    requires es != []
    ensures var init := es[..|es| - 1];
            Dropped(c, es) <==> Dropped(c, init) || DropsAt(ConnRun(c, init), es[|es| - 1])
  {
    var init := es[..|es| - 1];
    if Dropped(c, init) {
      var k: nat :| k < |init| && DroppedBy(c, init, k);
      assert init[..k] == es[..k];
      assert DroppedBy(c, es, k);
    }
    if DropsAt(ConnRun(c, init), es[|es| - 1]) {
      assert DroppedBy(c, es, |es| - 1);
    }
    if Dropped(c, es) {
      var k: nat :| k < |es| && DroppedBy(c, es, k);
      if k < |init| {
        assert init[..k] == es[..k];
        assert DroppedBy(c, init, k);
      }
    }
  }

  lemma {:induction false} LingerRun(c: Connection, es: seq<ConnEvent>)
    requires ConnOk(c) && Countable(ConnRun(c, es).sender)
    ensures ConnRun(c, es).linger == (c.linger && !Dropped(c, es))
  {
    if es != [] {
      var init, last := es[..|es| - 1], es[|es| - 1];
      ConnStepGrows(ConnRun(c, init), last);
      ConnRunOk(c, init);
      LingerRun(c, init);
      LingerStep(ConnRun(c, init), last);
      DroppedSnoc(c, es);
    }
  }

  /**
   The linger flag in every run: it is gone if and only if some segment or tick,
   taken while active and not ending in error, left the peer's stream ended while
   this side's own stream was not ended or not read to its end.
   */
  lemma LingerTheorem(rtTimeout: u16, recvCapacity: nat, sendCapacity: nat, isn: u32, es: seq<ConnEvent>)
    requires Countable(ConnRun(FreshConnection(rtTimeout, recvCapacity, sendCapacity, isn), es).sender)
    ensures var f := FreshConnection(rtTimeout, recvCapacity, sendCapacity, isn);
            !ConnRun(f, es).linger <==> Dropped(f, es)
  {
    FreshConnOk(rtTimeout, recvCapacity, sendCapacity, isn);
    LingerRun(FreshConnection(rtTimeout, recvCapacity, sendCapacity, isn), es);
  }

  // ---------------------------------------------------------------- closing after the peer, or before

  /** What is finished stays finished. */
  predicate Lasting(c: Connection, t: Connection) {
    && (c.receiver.store.out.ended ==> t.receiver.store.out.ended)
    && (Eof(c.sender.stream) ==> Eof(t.sender.stream))
  }

  lemma OnwardEof(s: Sender, t: Sender)
    requires Onward(s, t)
    ensures Eof(s.stream) ==> Eof(t.stream)
  {
  }

  lemma ConnOnward(c: Connection, e: ConnEvent)
    requires ConnOk(c) && Countable(c.sender) && Countable(ConnNext(c, e).sender)
    ensures Onward(c.sender, ConnNext(c, e).sender)
  {
    match e
    case Connects => FillOk(c.sender);
    case AppWrites(data) =>
      if c.active && data != [] {
        FillKeepsWritten(AfterAppWrite(c.sender, data));
        StreamOnward(c, AfterWrite(c.sender.stream, data));
      }
    case AppEnds => StreamOnward(c, AfterEnd(c.sender.stream));
    case Ticks(ms) => TickOnward(c, ms);
    case Segment(seg) =>
      if c.active && !seg.header.rst {
        SegmentGoes(c, seg);
        SegmentIs(c, seg);
      }
    case AppTakes(n) =>
  }

  lemma StreamOnward(c: Connection, stream: Stream)
    requires SenderOk(c.sender) && Countable(c.sender.(stream := stream))
    requires c.sender.stream.written <= stream.written && stream.read == c.sender.stream.read
    requires stream.error == c.sender.stream.error
    requires c.sender.stream.ended ==> stream.ended && stream.written == c.sender.stream.written
    ensures Onward(c.sender, AfterConnect(c.(sender := c.sender.(stream := stream))).sender)
  {
    StreamOk(c.sender, stream);
    FillOk(c.sender.(stream := stream));
  }

  lemma RstOnward(c: Connection)
    requires SenderOk(c.sender) && Countable(c.sender)
    ensures Onward(c.sender, UncleanShutdown(RstSent(c)).sender)
  {
    FillOk(c.sender);
  }

  lemma TickOnward(c: Connection, ms: nat)
    requires ConnOk(c) && Countable(c.sender)
    ensures Onward(c.sender, AfterConnTick(c, ms).sender)
  {
    if c.active {
      TickOk(c.sender, ms);
      if AfterTick(c.sender, ms).retransmissions <= MAX_RETX_ATTEMPTS {
        TickedSender(c, ms);
      } else {
        RstOnward(TimePassed(c, ms));
      }
    }
  }

  lemma TickEnded(c: Connection, ms: nat)
    ensures c.receiver.store.out.ended ==> AfterConnTick(c, ms).receiver.store.out.ended
  {
  }

  lemma EndedLasts(c: Connection, e: ConnEvent)
    ensures c.receiver.store.out.ended ==> ConnNext(c, e).receiver.store.out.ended
  {
    match e
    case Connects =>
    case AppWrites(data) =>
    case AppEnds =>
    case Ticks(ms) => TickEnded(c, ms);
    case Segment(seg) =>
      if c.active && !seg.header.rst {
        ReceiverForward(c.receiver, seg);
        SegmentIs(c, seg);
      }
    case AppTakes(n) =>
  }

  lemma LastingStep(c: Connection, e: ConnEvent)
    requires ConnOk(c) && Countable(c.sender) && Countable(ConnNext(c, e).sender)
    ensures Lasting(c, ConnNext(c, e))
  {
    ConnOnward(c, e);
    OnwardEof(c.sender, ConnNext(c, e).sender);
    EndedLasts(c, e);
  }

  /** The beginnings of a run are no longer than it. */
  lemma {:induction false} PrefixCountable(c: Connection, es: seq<ConnEvent>, k: nat)
    requires k <= |es| && Countable(ConnRun(c, es).sender)
    ensures Countable(ConnRun(c, es[..k]).sender)
    decreases |es|
  {
    if k == |es| {
      assert es[..k] == es;
    } else {
      var init := es[..|es| - 1];
      ConnStepGrows(ConnRun(c, init), es[|es| - 1]);
      PrefixCountable(c, init, k);
      assert init[..k] == es[..k];
    }
  }

  lemma LastingThen(c: Connection, m: Connection, t: Connection)
    requires Lasting(c, m) && Lasting(m, t)
    ensures Lasting(c, t)
  {
  }

  /** The state before event `k` of a run and the state after it. */
  lemma AtEvent(c: Connection, es: seq<ConnEvent>, k: nat) returns (m: Connection, t: Connection)
    requires ConnOk(c) && Countable(ConnRun(c, es).sender) && k < |es|
    ensures m == ConnRun(c, es[..k]) && t == ConnRun(c, es[..k + 1]) && t == ConnNext(m, es[k])
    ensures ConnOk(m) && Countable(m.sender) && Countable(t.sender)
  {
    m, t := ConnRun(c, es[..k]), ConnRun(c, es[..k + 1]);
    PrefixCountable(c, es, k);
    PrefixCountable(c, es, k + 1);
    ConnRunOk(c, es[..k]);
    assert es[..k + 1] == es[..k] + [es[k]];
    RunSnoc(c, es[..k], es[k]);
  }

  lemma LastStep(c: Connection, es: seq<ConnEvent>) returns (m: Connection)
    requires ConnOk(c) && es != [] && Countable(ConnRun(c, es).sender)
    ensures m == ConnRun(c, es[..|es| - 1]) && Countable(m.sender) && Lasting(m, ConnRun(c, es))
  {
    m := ConnRun(c, es[..|es| - 1]);
    ConnStepGrows(m, es[|es| - 1]);
    ConnRunOk(c, es[..|es| - 1]);
    LastingStep(m, es[|es| - 1]);
  }

  lemma {:induction false} LastingRun(c: Connection, es: seq<ConnEvent>, j: nat)
    requires ConnOk(c) && Countable(ConnRun(c, es).sender) && j <= |es|
    ensures Lasting(ConnRun(c, es[..j]), ConnRun(c, es))
    decreases |es|
  {
    if j == |es| {
      assert es[..j] == es;
    } else {
      var init := es[..|es| - 1];
      var m := LastStep(c, es);
      LastingRun(c, init, j);
      assert init[..j] == es[..j];
      LastingThen(ConnRun(c, es[..j]), m, ConnRun(c, es));
    }
  }

  lemma LastingBetween(c: Connection, es: seq<ConnEvent>, j: nat, k: nat)
    requires ConnOk(c) && Countable(ConnRun(c, es).sender) && j <= k <= |es|
    ensures Lasting(ConnRun(c, es[..j]), ConnRun(c, es[..k]))
  {
    PrefixCountable(c, es, k);
    LastingRun(c, es[..k], j);
    assert es[..k][..j] == es[..j];
  }

  /** At event `k` the peer's end arrived, and this side's own stream was then at its end. */
  ghost predicate FinishedFirst(c: Connection, es: seq<ConnEvent>, k: nat)
    requires k < |es|
  {
    && !ConnRun(c, es[..k]).receiver.store.out.ended
    && ConnRun(c, es[..k + 1]).receiver.store.out.ended
    && Eof(ConnRun(c, es[..k + 1]).sender.stream)
  }

  lemma BeforeTheEnd(t: Connection, m: Connection)
    requires Lasting(t, m) && !m.receiver.store.out.ended
    ensures !PeerFirst(t)
  {
  }

  lemma AfterOwnEnd(m: Connection, t: Connection)
    requires Lasting(m, t) && Eof(m.sender.stream)
    ensures !PeerFirst(t)
  {
  }

  lemma NeverPeerFirst(f: Connection, es: seq<ConnEvent>, k: nat, j: nat, t: Connection)
    requires ConnOk(f) && Countable(ConnRun(f, es).sender) && k < |es| && FinishedFirst(f, es, k)
    requires j <= |es| && t == ConnRun(f, es[..j])
    ensures !PeerFirst(t)
  {
    if j <= k {
      LastingBetween(f, es, j, k);
      BeforeTheEnd(t, ConnRun(f, es[..k]));
    } else {
      LastingBetween(f, es, k + 1, j);
      AfterOwnEnd(ConnRun(f, es[..k + 1]), t);
    }
  }

  lemma NotDroppedAt(f: Connection, es: seq<ConnEvent>, k: nat, j: nat)
    requires ConnOk(f) && Countable(ConnRun(f, es).sender) && k < |es| && FinishedFirst(f, es, k) && j < |es|
    ensures !DroppedBy(f, es, j)
  {
    var m, t := AtEvent(f, es, j);
    NeverPeerFirst(f, es, k, j + 1, t);
    assert !DropsAt(m, es[j]);
  }

  lemma KeepsLingering(f: Connection, es: seq<ConnEvent>, k: nat)
    requires ConnOk(f) && f.linger && Countable(ConnRun(f, es).sender) && k < |es| && FinishedFirst(f, es, k)
    ensures ConnRun(f, es).linger
  {
    LingerRun(f, es);
    forall j: nat | j < |es| ensures !DroppedBy(f, es, j) {
      NotDroppedAt(f, es, k, j);
    }
  }

  /**
   An endpoint whose own stream was at its end when the peer's end arrived -- it
   finished first, or both at once -- closes without error only when the ticks
   since the last segment received add up to ten times the initial timeout.
   */
  lemma FirstToFinishLingers(rtTimeout: u16, recvCapacity: nat, sendCapacity: nat, isn: u32, es: seq<ConnEvent>,
                             e: ConnEvent, k: nat)
    requires var f := FreshConnection(rtTimeout, recvCapacity, sendCapacity, isn);
             && Countable(ConnRun(f, es + [e]).sender) && k < |es + [e]| && FinishedFirst(f, es + [e], k)
             && ConnRun(f, es).active && !ConnRun(f, es + [e]).active
             && !ConnRun(f, es + [e]).sender.stream.error
    ensures Silence(es + [e]) >= 10 * rtTimeout
  {
    var f := FreshConnection(rtTimeout, recvCapacity, sendCapacity, isn);
    FreshConnOk(rtTimeout, recvCapacity, sendCapacity, isn);
    KeepsLingering(f, es + [e], k);
    RunSnoc(f, es, e);
    ConnStepGrows(ConnRun(f, es), e);
    GoingInactive(rtTimeout, recvCapacity, sendCapacity, isn, es, e);
  }

  /** Nothing ends before SYN has been heard. */
  lemma SynStep(c: Connection, e: ConnEvent)
    requires c.receiver.store.out.ended ==> c.receiver.syn
    ensures var r := ConnNext(c, e).receiver;
            r.store.out.ended ==> r.syn
  {
    match e
    case Connects =>
    case AppWrites(data) =>
    case AppEnds =>
    case Ticks(ms) => TickReceives(c, ms);
    case Segment(seg) =>
      if c.active && !seg.header.rst {
        SegmentIs(c, seg);
      }
    case AppTakes(n) =>
  }

  lemma TickReceives(c: Connection, ms: nat)
    ensures var r, t := c.receiver, AfterConnTick(c, ms).receiver;
            t.syn == r.syn && t.store.out.ended == r.store.out.ended
  {
  }

  lemma {:induction false} SynRun(c: Connection, es: seq<ConnEvent>)
    requires c.receiver.store.out.ended ==> c.receiver.syn
    ensures var r := ConnRun(c, es).receiver;
            r.store.out.ended ==> r.syn
  {
    if es != [] {
      SynRun(c, es[..|es| - 1]);
      SynStep(ConnRun(c, es[..|es| - 1]), es[|es| - 1]);
    }
  }

  /**
   The other way round: an endpoint that has given up its linger time closes with
   the first segment or tick that leaves its own FIN acknowledged.
   */
  lemma LastToFinishCloses(rtTimeout: u16, recvCapacity: nat, sendCapacity: nat, isn: u32, es: seq<ConnEvent>,
                           e: ConnEvent)
    requires var c := ConnRun(FreshConnection(rtTimeout, recvCapacity, sendCapacity, isn), es);
             && Countable(c.sender) && c.active && !c.linger && (e.Ticks? || e.Segment?) && !EndsInError(c, e)
             && SummaryOfSender(ConnNext(c, e).sender) == FIN_ACKED
    ensures !ConnNext(ConnRun(FreshConnection(rtTimeout, recvCapacity, sendCapacity, isn), es), e).active
  {
    var f := FreshConnection(rtTimeout, recvCapacity, sendCapacity, isn);
    var c := ConnRun(f, es);
    FreshConnOk(rtTimeout, recvCapacity, sendCapacity, isn);
    ConnRunOk(f, es);
    SynRun(f, es);
    InactiveIff(c, e);
    LingerStep(c, e);
    EndedLasts(c, e);
    SynStep(c, e);
    NoErrorYet(c, e);
  }

  lemma NoErrorYet(c: Connection, e: ConnEvent)
    requires ConnOk(c) && Countable(c.sender) && c.active && (e.Ticks? || e.Segment?) && !EndsInError(c, e)
    ensures !ConnNext(c, e).receiver.store.out.error
  {
    if e.Ticks? {
      OtherTicks(c, e.ms);
    } else {
      ReceiverForward(c.receiver, e.seg);
      SegmentIs(c, e.seg);
    }
  }
}
