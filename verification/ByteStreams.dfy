/**
 The flow-controlled byte stream. `Stream` is its value: everything ever written,
 how much of that has been read, and the flags. The class keeps only the unread
 bytes and two counters, as the source does.
 */
module ByteStreams {
  import opened Words

  datatype StreamData = StreamData(
    written: seq<byte>,
    read: nat,
    capacity: nat,
    ended: bool,
    error: bool)
  {
    predicate Consistent() {
      read <= |written| <= read + capacity
    }
  }

  type Stream = s: StreamData | s.Consistent() witness StreamData([], 0, 0, false, false)

  function Fresh(capacity: nat): Stream {
    StreamData([], 0, capacity, false, false)
  }

  function Unread(s: Stream): seq<byte> {
    s.written[s.read..]
  }

  function Room(s: Stream): nat {
    s.capacity - (|s.written| - s.read)
  }

  predicate Eof(s: Stream) {
    s.ended && s.read == |s.written|
  }

  function AfterWrite(s: Stream, data: seq<byte>): Stream {
    if s.ended then s else s.(written := s.written + data[..Min(|data|, Room(s))])
  }

  /** What reading `n` bytes returns. */
  function Peek(s: Stream, n: nat): seq<byte> {
    Unread(s)[..Min(n, |s.written| - s.read)]
  }

  function AfterPop(s: Stream, n: nat): Stream {
    s.(read := s.read + Min(n, |s.written| - s.read))
  }

  function AfterEnd(s: Stream): Stream {
    s.(ended := true)
  }

  function AfterError(s: Stream): Stream {
    s.(error := true)
  }

  /** One call by the stream's writer or reader. */
  datatype StreamOp = OpWrite(data: seq<byte>) | OpRead(n: nat) | OpEnd | OpError

  function Apply(s: Stream, op: StreamOp): Stream {
    match op
    case OpWrite(data) => AfterWrite(s, data)
    case OpRead(n) => AfterPop(s, n)
    case OpEnd => AfterEnd(s)
    case OpError => AfterError(s)
  }

  function Delivered(s: Stream, op: StreamOp): seq<byte> {
    if op.OpRead? then Peek(s, op.n) else []
  }

  function ApplyAll(s: Stream, ops: seq<StreamOp>): Stream
    decreases |ops|
  {
    if ops == [] then s else ApplyAll(Apply(s, ops[0]), ops[1..])
  }

  /** Everything a reader has been given over a run. */
  function DeliveredAll(s: Stream, ops: seq<StreamOp>): seq<byte>
    decreases |ops|
  {
    if ops == [] then [] else Delivered(s, ops[0]) + DeliveredAll(Apply(s, ops[0]), ops[1..])
  }

  /** What a writer hands over and the stream has room for; an ended stream takes nothing. */
  function Gained(s: Stream, op: StreamOp): seq<byte> {
    if op.OpWrite? && !s.ended then op.data[..Min(|op.data|, s.capacity - (|s.written| - s.read))] else []
  }

  /** Everything the stream has taken over a run. */
  function GainedAll(s: Stream, ops: seq<StreamOp>): seq<byte>
    decreases |ops|
  {
    if ops == [] then [] else Gained(s, ops[0]) + GainedAll(Apply(s, ops[0]), ops[1..])
  }

  lemma OneStep(s: Stream, op: StreamOp)
    ensures var m := Apply(s, op);
            && m.written == s.written + Gained(s, op)
            && s.read <= m.read
            && Delivered(s, op) == m.written[s.read..m.read]
            && m.capacity == s.capacity
            && (s.ended ==> m.ended && m.written == s.written)
  {
  }

  lemma JoinSlices(t: seq<byte>, m: seq<byte>, i: nat, j: nat)
    requires m <= t && i <= j <= |m|
    ensures m[i..j] + t[j..] == t[i..]
  {
  }

  lemma Regroup(a: seq<byte>, b: seq<byte>, c: seq<byte>)
    ensures (a + b) + c == a + (b + c)
  {
  }

  lemma UnreadGrows(s: Stream, more: seq<byte>)
    ensures (s.written + more)[s.read..] == Unread(s) + more
  {
  }

  /**
   First in, first out over any run: what the reader got, followed by what is
   still unread, is what was unread at the start followed by what the writer
   handed over and there was room for.
   */
  lemma {:induction false} FirstInFirstOut(s: Stream, ops: seq<StreamOp>)
    ensures var t := ApplyAll(s, ops);
            && t.written == s.written + GainedAll(s, ops)
            && DeliveredAll(s, ops) + Unread(t) == Unread(s) + GainedAll(s, ops)
            && t.read == s.read + |DeliveredAll(s, ops)|
            && t.capacity == s.capacity
            && (s.ended ==> t.ended && t.written == s.written)
    decreases |ops|
  {
    if ops != [] {
      var m, t := Apply(s, ops[0]), ApplyAll(s, ops);
      OneStep(s, ops[0]);
      FirstInFirstOut(m, ops[1..]);
      Regroup(s.written, Gained(s, ops[0]), GainedAll(m, ops[1..]));
      Regroup(Delivered(s, ops[0]), DeliveredAll(m, ops[1..]), Unread(t));
      JoinSlices(t.written, m.written, s.read, m.read);
      UnreadGrows(m, GainedAll(m, ops[1..]));
      UnreadGrows(s, GainedAll(s, ops));
    }
  }

  class ByteStream {
    var buff: seq<byte>
    const capacity: nat
    var bytesRead: nat
    var bytesWritten: nat
    var inputEnded: bool
    var error: bool
    /** Every byte ever accepted, in order. */
    ghost var history: seq<byte>

    ghost predicate Valid()
      reads this
    {
      && bytesWritten == |history|
      && bytesRead <= bytesWritten
      && buff == history[bytesRead..]
      && |buff| <= capacity
    }

    ghost function State(): Stream
      requires Valid()
      reads this
    {
      StreamData(history, bytesRead, capacity, inputEnded, error)
    }

    constructor (capacity: nat)
      ensures Valid() && State() == Fresh(capacity)
    {
      this.buff := [];
      this.capacity := capacity;
      this.bytesRead := 0;
      this.bytesWritten := 0;
      this.inputEnded := false;
      this.error := false;
      this.history := [];
    }

    function RemainingCapacity(): (r: nat)
      requires Valid()
      reads this
      ensures r == Room(State())
    {
      capacity - |buff|
    }

    predicate AtEof()
      requires Valid()
      reads this
      ensures AtEof() == Eof(State())
    {
      inputEnded && |buff| == 0
    }

    method Write(data: seq<byte>) returns (size: nat)
      requires Valid()
      modifies this
      ensures Valid() && State() == AfterWrite(old(State()), data)
      ensures size == |State().written| - |old(State().written)|
    {
      if inputEnded {
        return 0;
      }
      size := Min(|data|, RemainingCapacity());
      bytesWritten := bytesWritten + size;
      ghost var unread := buff;
      for i := 0 to size
        invariant buff == unread + data[..i]
        invariant inputEnded == old(inputEnded) && error == old(error)
        invariant bytesRead == old(bytesRead) && history == old(history)
        invariant bytesWritten == old(bytesWritten) + size
      {
        buff := buff + [data[i]];
        assert data[..i + 1] == data[..i] + [data[i]];
      }
      history := history + data[..size];
    }

    method PeekOutput(len: nat) returns (r: seq<byte>)
      requires Valid()
      ensures r == Peek(State(), len)
    {
      r := buff[..Min(len, |buff|)];
    }

    method PopOutput(len: nat)
      requires Valid()
      modifies this
      ensures Valid() && State() == AfterPop(old(State()), len)
    {
      var size := Min(len, |buff|);
      bytesRead := bytesRead + size;
      for i := 0 to size
        invariant buff == old(buff)[i..]
        invariant inputEnded == old(inputEnded) && error == old(error)
        invariant bytesWritten == old(bytesWritten) && history == old(history)
        invariant bytesRead == old(bytesRead) + size
      {
        buff := buff[1..];
      }
    }

    method Read(len: nat) returns (r: seq<byte>)
      requires Valid()
      modifies this
      ensures Valid() && State() == AfterPop(old(State()), len)
      ensures r == Peek(old(State()), len)
    {
      r := PeekOutput(len);
      PopOutput(len);
    }

    method EndInput()
      requires Valid()
      modifies this`inputEnded
      ensures Valid() && State() == AfterEnd(old(State()))
    {
      inputEnded := true;
    }

    method SetError()
      requires Valid()
      modifies this`error
      ensures Valid() && State() == AfterError(old(State()))
    {
      error := true;
    }
  }
}
