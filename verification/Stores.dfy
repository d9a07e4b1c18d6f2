/**
 The reassembler as a plain map from stream index to byte: what each push must
 amount to, the invariant it keeps for slices of one stream, and the
 independence of the outcome from the order of arrival.
 */
module Stores {
  import opened Words
  import opened ByteStreams

  datatype Store = Store(out: Stream, held: map<nat, byte>, eof: bool, eofIndex: nat)

  function EmptyStore(capacity: nat): Store {
    Store(Fresh(capacity), map[], false, 0)
  }

  function FirstUnassembled(st: Store): nat {
    |st.out.written|
  }

  function FirstUnacceptable(st: Store): nat {
    st.out.read + st.out.capacity
  }

  /** The bytes of a substring that lie in the window. */
  function Accepted(st: Store, data: seq<byte>, index: nat): map<nat, byte> {
    map i: nat | FirstUnassembled(st) <= i < FirstUnacceptable(st) && Covers(data, index, i) :: data[i - index]
  }

  /** The longest contiguous run of `m` from `at`, stopping at `limit`. */
  function Run(m: map<nat, byte>, at: nat, limit: nat): (r: seq<byte>)
    ensures at <= limit ==> at + |r| <= limit
    ensures forall i: nat :: at <= i < at + |r| ==> i in m && r[i - at] == m[i]
    ensures at + |r| < limit ==> at + |r| !in m
    decreases limit - at
  {
    if at < limit && at in m then [m[at]] + Run(m, at + 1, limit) else []
  }

  function Beyond(m: map<nat, byte>, now: nat): map<nat, byte> {
    map i | i in m && now <= i :: m[i]
  }

  /** What the drain loop leaves: the run moves from the map to the output. */
  function Drained(st: Store, all: map<nat, byte>): Store {
    var run := Run(all, FirstUnassembled(st), FirstUnacceptable(st));
    st.(out := AfterWrite(st.out, run),
        held := Beyond(all, FirstUnassembled(st) + |run|))
  }

  /** Input ends once everything before the recorded end has been assembled. */
  function Finished(st: Store): Store {
    if st.eof && FirstUnassembled(st) == st.eofIndex
    then st.(out := AfterEnd(st.out), held := map[])
    else st
  }

  function Push(st: Store, data: seq<byte>, index: nat, eof: bool): Store {
    var noted := if eof then st.(eof := true, eofIndex := index + |data|) else st;
    Finished(Drained(noted, st.held + Accepted(st, data, index)))
  }

  function ReadOut(st: Store, n: nat): Store {
    st.(out := AfterPop(st.out, n))
  }

  /** What a push can never undo, for any bytes at all. */
  lemma PushForward(st: Store, data: seq<byte>, index: nat, eof: bool)
    ensures var t := Push(st, data, index, eof);
            && st.out.written <= t.out.written
            && (st.out.ended ==> t.out.ended)
            && t.out.error == st.out.error && t.out.read == st.out.read && t.out.capacity == st.out.capacity
  {
  }

  // ---------------------------------------------------------------- slices of one stream

  /** The substring is a slice of `S`, and the end mark stands only at the end of `S`. */
  ghost predicate IsSlice(S: seq<byte>, data: seq<byte>, index: nat, eof: bool) {
    && (data != [] || eof ==> index + |data| <= |S| && data == S[index..index + |data|])
    && (eof ==> index + |data| == |S|)
  }

  /** The store holds a prefix of `S` and, inside its window, some later bytes of `S`. */
  ghost predicate Faithful(st: Store, S: seq<byte>) {
    && st.out.written <= S
    && (forall i: nat :: i in st.held ==> FirstUnassembled(st) < i < FirstUnacceptable(st))
    && (forall i: nat :: i in st.held ==> i < |S| && st.held[i] == S[i])
    && (st.eof ==> st.eofIndex == |S|)
    && (st.out.ended <==> st.eof && FirstUnassembled(st) == |S|)
  }

  /** Index `i` has arrived and been kept. */
  predicate Knows(st: Store, i: nat) {
    i < FirstUnassembled(st) || i in st.held
  }

  predicate Covers(data: seq<byte>, index: nat, i: nat) {
    index <= i < index + |data|
  }

  lemma EmptyFaithful(capacity: nat, S: seq<byte>)
    ensures Faithful(EmptyStore(capacity), S)
  {
  }

  /** The union of what was held and what is accepted is a set of bytes of `S`. */
  lemma UnionFaithful(st: Store, S: seq<byte>, data: seq<byte>, index: nat, eof: bool)
    requires Faithful(st, S) && IsSlice(S, data, index, eof)
    ensures var all := st.held + Accepted(st, data, index);
            && (forall i: nat :: i in all <==>
                  i in st.held || (Covers(data, index, i) && FirstUnassembled(st) <= i < FirstUnacceptable(st)))
            && (forall i: nat :: i in all ==>
                  FirstUnassembled(st) <= i < FirstUnacceptable(st) && i < |S| && all[i] == S[i])
  {
  }

  lemma DrainedFaithful(st: Store, S: seq<byte>, all: map<nat, byte>)
    requires st.out.written <= S
    requires st.out.ended ==> FirstUnassembled(st) == |S|
    requires forall i: nat :: i in all ==>
               FirstUnassembled(st) <= i < FirstUnacceptable(st) && i < |S| && all[i] == S[i]
    ensures var r := Drained(st, all);
            && r.out.written <= S
            && FirstUnassembled(st) <= FirstUnassembled(r)
            && (forall i: nat :: Knows(r, i) <==> i < FirstUnassembled(st) || i in all)
            && (forall i: nat :: i in r.held ==>
                  FirstUnassembled(r) < i < FirstUnacceptable(r) && i < |S| && r.held[i] == S[i])
            && r.out.ended == st.out.ended && r.out.read == st.out.read
  {
    var at := FirstUnassembled(st);
    var run := Run(all, at, FirstUnacceptable(st));
    if st.out.ended {
      assert at !in all;
      assert run == [];
    }
    assert run == S[at..at + |run|] by {
      if run != [] { assert at + (|run| - 1) in all; }
      forall j | 0 <= j < |run| ensures run[j] == S[at + j] {
        assert at + j in all;
      }
    }
    assert run[..|run|] == run;
  }

  lemma FinishedFaithful(d: Store, S: seq<byte>)
    requires d.out.written <= S
    requires forall i: nat :: i in d.held ==>
               FirstUnassembled(d) < i < FirstUnacceptable(d) && i < |S| && d.held[i] == S[i]
    requires d.eof ==> d.eofIndex == |S|
    requires d.out.ended ==> d.eof && FirstUnassembled(d) == |S|
    ensures Faithful(Finished(d), S)
    ensures Finished(d).out.written == d.out.written && Finished(d).eof == d.eof
    ensures forall i: nat :: Knows(Finished(d), i) <==> Knows(d, i)
  {
    if d.eof && FirstUnassembled(d) == |S| {
      assert forall i: nat :: i !in d.held;
    }
  }

  /**
   The refinement theorem for one push: the invariant is kept, the store now knows
   exactly what it knew plus the bytes that lie below the window's end, and the
   input is ended exactly when the end is known and everything before it assembled.
   */
  lemma PushFaithful(st: Store, S: seq<byte>, data: seq<byte>, index: nat, eof: bool)
    requires Faithful(st, S) && IsSlice(S, data, index, eof)
    ensures var r := Push(st, data, index, eof);
            && Faithful(r, S)
            && st.out.written <= r.out.written
            && (forall i: nat :: Knows(r, i) <==> Knows(st, i) || (Covers(data, index, i) && i < FirstUnacceptable(st)))
            && r.eof == (st.eof || eof)
            && r.out.read == st.out.read && r.out.capacity == st.out.capacity && r.out.error == st.out.error
  {
    var noted := if eof then st.(eof := true, eofIndex := index + |data|) else st;
    UnionFaithful(st, S, data, index, eof);
    DrainedFaithful(noted, S, st.held + Accepted(st, data, index));
    FinishedFaithful(Drained(noted, st.held + Accepted(st, data, index)), S);
  }

  /** A push that carries nothing changes nothing, whatever index it names. */
  lemma PushNothing(st: Store, S: seq<byte>, index: nat)
    requires Faithful(st, S)
    ensures Push(st, [], index, false) == st
  {
    var all := st.held + Accepted(st, [], index);
    assert all == st.held;
    var d := Drained(st, all);
    assert Run(all, FirstUnassembled(st), FirstUnacceptable(st)) == [];
    assert d.held == st.held;
    assert AfterWrite(st.out, []) == st.out;
    if st.eof && FirstUnassembled(d) == |S| {
      assert st.held == map[] by {
        assert forall i: nat :: i in st.held ==> false;
      }
    }
  }

  lemma ReadFaithful(st: Store, S: seq<byte>, n: nat)
    requires Faithful(st, S)
    ensures Faithful(ReadOut(st, n), S)
    ensures forall i: nat :: Knows(ReadOut(st, n), i) <==> Knows(st, i)
  {
  }

  /** While no end has been announced the stream may grow under the store. */
  lemma GrowFaithful(st: Store, S: seq<byte>, T: seq<byte>)
    requires Faithful(st, S) && S <= T && (st.eof ==> S == T)
    ensures Faithful(st, T)
  {
  }

  // ---------------------------------------------------------------- order independence

  datatype StoreOp = OpPush(data: seq<byte>, index: nat, eof: bool) | OpReadOut(n: nat)

  function Do(st: Store, op: StoreOp): Store {
    match op
    case OpPush(data, index, eof) => Push(st, data, index, eof)
    case OpReadOut(n) => ReadOut(st, n)
  }

  function DoAll(st: Store, ops: seq<StoreOp>): Store
    decreases |ops|
  {
    if ops == [] then st else DoAll(Do(st, ops[0]), ops[1..])
  }

  ghost predicate AllSlices(S: seq<byte>, ops: seq<StoreOp>) {
    forall k :: 0 <= k < |ops| && ops[k].OpPush? ==> IsSlice(S, ops[k].data, ops[k].index, ops[k].eof)
  }

  /** Some push in the list carries index `i`. */
  ghost predicate Covered(ops: seq<StoreOp>, i: nat) {
    exists k :: 0 <= k < |ops| && ops[k].OpPush? && Covers(ops[k].data, ops[k].index, i)
  }

  ghost predicate EndSeen(ops: seq<StoreOp>) {
    exists k :: 0 <= k < |ops| && ops[k].OpPush? && ops[k].eof
  }

  lemma DoFaithful(st: Store, S: seq<byte>, op: StoreOp)
    requires Faithful(st, S) && |S| <= st.out.capacity
    requires op.OpPush? ==> IsSlice(S, op.data, op.index, op.eof)
    ensures var r := Do(st, op);
            && Faithful(r, S) && r.out.capacity == st.out.capacity
            && (forall i: nat :: Knows(r, i) <==> Knows(st, i) || (op.OpPush? && Covers(op.data, op.index, i)))
            && r.eof == (st.eof || (op.OpPush? && op.eof))
  {
    match op
    case OpPush(data, index, eof) => PushFaithful(st, S, data, index, eof);
    case OpReadOut(n) => ReadFaithful(st, S, n);
  }

  lemma {:induction false} DoAllFaithful(st: Store, S: seq<byte>, ops: seq<StoreOp>)
    requires Faithful(st, S) && |S| <= st.out.capacity && AllSlices(S, ops)
    ensures var r := DoAll(st, ops);
            && Faithful(r, S) && r.out.capacity == st.out.capacity
            && (forall i: nat :: Knows(r, i) <==> Knows(st, i) || Covered(ops, i))
            && r.eof == (st.eof || EndSeen(ops))
    decreases |ops|
  {
    if ops != [] {
      DoFaithful(st, S, ops[0]);
      assert AllSlices(S, ops[1..]);
      DoAllFaithful(Do(st, ops[0]), S, ops[1..]);
      assert ops == [ops[0]] + ops[1..];
      forall i: nat
        ensures Covered(ops, i) <==>
                  (ops[0].OpPush? && Covers(ops[0].data, ops[0].index, i)) || Covered(ops[1..], i)
      {
        CoveredSplit(ops, i);
      }
      EndSeenSplit(ops);
    }
  }

  lemma CoveredSplit(ops: seq<StoreOp>, i: nat)
    requires ops != []
    ensures Covered(ops, i) <==> (ops[0].OpPush? && Covers(ops[0].data, ops[0].index, i)) || Covered(ops[1..], i)
  {
    if Covered(ops[1..], i) {
      var k :| 0 <= k < |ops[1..]| && ops[1..][k].OpPush? && Covers(ops[1..][k].data, ops[1..][k].index, i);
      assert ops[k + 1] == ops[1..][k];
    }
    if Covered(ops, i) {
      var k :| 0 <= k < |ops| && ops[k].OpPush? && Covers(ops[k].data, ops[k].index, i);
      if k > 0 { assert ops[1..][k - 1] == ops[k]; }
    }
  }

  lemma EndSeenSplit(ops: seq<StoreOp>)
    requires ops != []
    ensures EndSeen(ops) <==> (ops[0].OpPush? && ops[0].eof) || EndSeen(ops[1..])
  {
    if EndSeen(ops[1..]) {
      var k :| 0 <= k < |ops[1..]| && ops[1..][k].OpPush? && ops[1..][k].eof;
      assert ops[k + 1] == ops[1..][k];
    }
    if EndSeen(ops) {
      var k :| 0 <= k < |ops| && ops[k].OpPush? && ops[k].eof;
      if k > 0 { assert ops[1..][k - 1] == ops[k]; }
    }
  }

  /** Faithful stores that know the same indices have the same contents. */
  lemma KnownDetermines(a: Store, b: Store, S: seq<byte>)
    requires Faithful(a, S) && Faithful(b, S)
    requires forall i: nat :: Knows(a, i) <==> Knows(b, i)
    requires a.eof == b.eof
    ensures a.out.written == b.out.written && a.held == b.held && a.out.ended == b.out.ended
  {
    assert !Knows(a, FirstUnassembled(a)) && !Knows(b, FirstUnassembled(b));
    assert FirstUnassembled(a) == FirstUnassembled(b);
    assert forall i: nat :: i in a.held <==> i in b.held by {
      forall i: nat ensures i in a.held <==> i in b.held {
        assert Knows(a, i) <==> Knows(b, i);
      }
    }
    assert a.held == b.held;
  }

  /**
   Order independence: with room for the whole stream, two histories of pushes and
   reads whose slices cover the same indices leave the same bytes in the output,
   the same bytes held, and the same end mark -- in any order, with any overlaps.
   */
  lemma OrderIndependent(S: seq<byte>, capacity: nat, p: seq<StoreOp>, q: seq<StoreOp>)
    requires |S| <= capacity && AllSlices(S, p) && AllSlices(S, q)
    requires forall i: nat :: Covered(p, i) <==> Covered(q, i)
    requires EndSeen(p) == EndSeen(q)
    ensures var a := DoAll(EmptyStore(capacity), p);
            var b := DoAll(EmptyStore(capacity), q);
            a.out.written == b.out.written && a.held == b.held && a.out.ended == b.out.ended
  {
    EmptyFaithful(capacity, S);
    DoAllFaithful(EmptyStore(capacity), S, p);
    DoAllFaithful(EmptyStore(capacity), S, q);
    KnownDetermines(DoAll(EmptyStore(capacity), p), DoAll(EmptyStore(capacity), q), S);
  }

  /** Pushing every index of the stream, and its end mark, reproduces the stream. */
  lemma EverythingArrives(S: seq<byte>, capacity: nat, p: seq<StoreOp>)
    requires |S| <= capacity && AllSlices(S, p)
    requires EndSeen(p) && forall i: nat :: 0 <= i < |S| ==> Covered(p, i)
    ensures var a := DoAll(EmptyStore(capacity), p);
            a.out.written == S && a.held == map[] && a.out.ended
  {
    EmptyFaithful(capacity, S);
    DoAllFaithful(EmptyStore(capacity), S, p);
    var a := DoAll(EmptyStore(capacity), p);
    assert !Knows(a, FirstUnassembled(a));
  }
}
