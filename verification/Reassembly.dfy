/** The stream reassembler as the source runs it, proved equal to pushing into a `Store`. */
module Reassembly {
  import opened Words
  import opened ByteStreams
  import opened Pieces
  import opened Stores

  class StreamReassembler {
    const output: ByteStream
    const capacity: nat
    var eofIndex: nat
    var unassembledBytes: nat
    var eof: bool
    var buf: seq<Piece>

    /** The two objects fit together and the byte counter is exact. */
    ghost predicate Sound()
      reads this, output
    {
      && output.Valid() && output.capacity == capacity
      && Tidy(buf) && unassembledBytes == TotalLength(buf)
    }

    /** Between calls every stored piece lies strictly inside the window. */
    ghost predicate Valid()
      reads this, output
    {
      && Sound()
      && forall k :: 0 <= k < |buf| ==> output.bytesWritten < buf[k].idx && buf[k].End() <= output.bytesRead + capacity
    }

    ghost function State(): Store
      requires output.Valid()
      reads this, output
    {
      Store(output.State(), HeldMap(buf), eof, eofIndex)
    }

    constructor (capacity: nat)
      ensures Valid() && State() == EmptyStore(capacity) && fresh(output)
    {
      this.output := new ByteStream(capacity);
      this.capacity := capacity;
      this.eofIndex := 0;
      this.unassembledBytes := 0;
      this.eof := false;
      this.buf := [];
    }

    function FirstUnread(): nat
      reads output
    {
      output.bytesRead
    }

    function FirstUnassembled(): nat
      reads output
    {
      output.bytesWritten
    }

    function FirstUnacceptable(): nat
      reads output
    {
      FirstUnread() + capacity
    }

    method BufErase(k: nat)
      requires Sound() && k < |buf|
      modifies this`buf, this`unassembledBytes
      ensures Sound() && buf == Without(old(buf), k)
    {
      WithoutTidy(buf, k);
      WithoutLength(buf, k);
      unassembledBytes := unassembledBytes - |buf[k].data|;
      buf := Without(buf, k);
    }

    /** The counter grows whether or not the set takes the piece; see `SetInsert`. */
    method BufInsert(seg: Piece)
      modifies this`buf, this`unassembledBytes
      ensures buf == SetInsert(old(buf), seg)
      ensures unassembledBytes == old(unassembledBytes) + |seg.data|
    {
      unassembledBytes := unassembledBytes + |seg.data|;
      var k := 0;
      while k < |buf| && buf[k].idx < seg.idx
        invariant k <= |buf|
        invariant forall j :: 0 <= j < k ==> buf[j].idx < seg.idx
      {
        k := k + 1;
      }
      InsertPlace(buf, seg, k);
      if k == |buf| || seg.idx < buf[k].idx {
        buf := buf[..k] + [seg] + buf[k..];
      }
    }

    /** Absorbs every stored piece that meets `seg`, then stores the union. */
    method HandleOverlap(seg: Piece, ghost S: seq<byte>, ghost lo: nat, ghost hi: nat)
      requires Sound() && AllAgree(buf, S) && AllInRange(buf, lo, hi)
      requires Agrees(seg, S) && InRange(seg, lo, hi)
      modifies this`buf, this`unassembledBytes
      ensures Sound() && AllAgree(buf, S) && AllInRange(buf, lo, hi)
      ensures forall i: nat :: At(buf, i) <==> At(old(buf), i) || Spans(seg, i)
    {
      var cur := seg;
      var segIndex, segTail := seg.idx, seg.TailIdx();
      var k := 0;
      while k < |buf|
        invariant k <= |buf|
        invariant Sound() && AllAgree(buf, S) && AllInRange(buf, lo, hi)
        invariant Agrees(cur, S) && InRange(cur, lo, hi) && Growing(buf, k, cur, seg)
        invariant forall i: nat :: At(buf, i) || Spans(cur, i) <==> At(old(buf), i) || Spans(seg, i)
        decreases |buf| - k
      {
        OverlapsIsMeets(seg, buf[k]);
        if Overlaps(segIndex, segTail, buf[k]) {
          GrowMerge(buf, k, cur, seg, S, lo, hi);
          cur := MergeSeg(cur, buf[k]);
          BufErase(k);
        } else {
          k := k + 1;
        }
      }
      InsertKeeps(buf, cur, S, lo, hi);
      BufInsert(cur);
    }

    /** Trims a substring to the window, as the source does, and stores what is left. */
    method HandleSubstring(seg0: Piece, ghost S: seq<byte>)
      requires Valid() && AllAgree(buf, S) && Agrees(seg0, S)
      modifies this`buf, this`unassembledBytes
      ensures Sound() && AllAgree(buf, S) && AllInRange(buf, FirstUnassembled(), FirstUnacceptable())
      ensures forall i: nat :: i < FirstUnacceptable() ==>
                (At(buf, i) <==> At(old(buf), i) || (Spans(seg0, i) && FirstUnassembled() <= i))
    {
      var lo, hi := FirstUnassembled(), FirstUnacceptable();
      if seg0.idx >= hi || seg0.TailIdx() < lo {
        return;
      }
      var seg := Trimmed(seg0, lo, hi);
      TrimmedMeaning(seg0, lo, hi, S);
      if buf == [] {
        InsertKeeps(buf, seg, S, lo, hi);
        BufInsert(seg);
        return;
      }
      HandleOverlap(seg, S, lo, hi);
    }

    /** The pieces agree with `S` and the output holds a prefix of it. */
    ghost predicate Draining(S: seq<byte>)
      reads this, output
    {
      && Sound() && AllAgree(buf, S) && AllInRange(buf, FirstUnassembled(), FirstUnacceptable())
      && output.history <= S && (output.inputEnded ==> output.history == S)
    }

    /** Writes the first piece out; `ByteStream.Write` cuts it if it overruns the window. */
    method DrainFirst(ghost S: seq<byte>)
      requires Draining(S) && buf != [] && buf[0].idx == FirstUnassembled()
      modifies this`buf, this`unassembledBytes, output
      ensures Draining(S) && |buf| < |old(buf)|
      ensures FirstUnassembled() >= old(FirstUnassembled())
      ensures output.State() == old(output.State()).(written := output.history)
      ensures StepsOut(old(buf), buf, old(FirstUnassembled()), FirstUnassembled(), FirstUnacceptable())
    {
      assert !output.inputEnded by { assert Agrees(buf[0], S); }
      ghost var before, at := buf, FirstUnassembled();
      var n := output.Write(buf[0].data);
      BufErase(0);
      WroteFirst(before, S, at, FirstUnacceptable(), FirstUnassembled());
    }

    /** Moves pieces to the output while the first one is next in line. */
    method Drain(ghost S: seq<byte>)
      requires Draining(S)
      modifies this`buf, this`unassembledBytes, output
      ensures Valid() && Draining(S)
      ensures FirstUnassembled() >= old(FirstUnassembled())
      ensures output.State() == old(output.State()).(written := output.history)
      ensures StepsOut(old(buf), buf, old(FirstUnassembled()), FirstUnassembled(), FirstUnacceptable())
      ensures buf == [] || FirstUnassembled() < buf[0].idx
    {
      while buf != [] && buf[0].idx == FirstUnassembled()
        invariant Draining(S)
        invariant FirstUnassembled() >= old(FirstUnassembled())
        invariant output.State() == old(output.State()).(written := output.history)
        invariant StepsOut(old(buf), buf, old(FirstUnassembled()), FirstUnassembled(), FirstUnacceptable())
        decreases |buf|
      {
        DrainFirst(S);
      }
      RestInside(buf, FirstUnassembled(), FirstUnacceptable());
    }

    /** Stores the substring's bytes; the union with what was held is then in the pieces. */
    method StoreSubstring(data: seq<byte>, index: nat, ghost isEof: bool, ghost S: seq<byte>, ghost st: Store)
      requires Valid() && AllAgree(buf, S) && Faithful(st, S) && IsSlice(S, data, index, isEof)
      requires st.out == output.State() && st.held == HeldMap(buf)
      modifies this`buf, this`unassembledBytes
      ensures Draining(S)
      ensures HoldsUnion(buf, st.held + Accepted(st, data, index), S, FirstUnacceptable())
    {
      if data != [] {
        HandleSubstring(Piece(index, data), S);
      }
      MidHolds(st, old(buf), buf, S, data, index, isEof);
    }

    /** The part of a push between recording the end mark and testing it. */
    method StoreAndDrain(data: seq<byte>, index: nat, ghost isEof: bool, ghost S: seq<byte>, ghost st: Store)
      requires Valid() && AllAgree(buf, S) && Faithful(st, S) && IsSlice(S, data, index, isEof)
      requires st.out == output.State() && st.held == HeldMap(buf)
      modifies this`buf, this`unassembledBytes, output
      ensures Valid() && AllAgree(buf, S)
      ensures State() == Drained(old(State()), st.held + Accepted(st, data, index))
    {
      StoreSubstring(data, index, isEof, S, st);
      ghost var mid := buf;
      Drain(S);
      DrainIsDrained(old(State()), st.held + Accepted(st, data, index), S, mid, buf, FirstUnassembled());
    }

    /** Ends the output's input once everything before the end mark is assembled. */
    method Finish(ghost S: seq<byte>)
      requires Valid() && AllAgree(buf, S) && (eof ==> eofIndex == |S|)
      modifies this`buf, output`inputEnded
      ensures Valid() && State() == Finished(old(State()))
    {
      if eof && FirstUnassembled() == eofIndex {
        NothingLeft(buf, S, FirstUnassembled());
        output.EndInput();
        buf := [];
      }
    }

    /**
     Takes one substring of the logical stream `S`. Whatever the order, overlap or
     repetition of earlier substrings, the effect is `Push` on the plain map.
     */
    method PushSubstring(data: seq<byte>, index: nat, isEof: bool, ghost S: seq<byte>)
      requires Valid() && Faithful(State(), S) && IsSlice(S, data, index, isEof)
      modifies this, output
      ensures Valid() && State() == Push(old(State()), data, index, isEof)
    {
      ghost var st := State();
      assert AllAgree(buf, S) by { HeldAgree(buf, S); }
      eofIndex, eof := if isEof then index + |data| else eofIndex, eof || isEof;
      StoreAndDrain(data, index, isEof, S, st);
      Finish(S);
    }

    /** The memory limit: unread bytes and stored bytes, each counted once, fit in the capacity. */
    lemma MemoryLimit()
      requires Valid()
      ensures unassembledBytes == |State().held|
      ensures |output.buff| + unassembledBytes <= capacity
    {
      HeldCount(buf);
      LengthBound(buf, FirstUnassembled(), FirstUnacceptable());
    }

    method ReadOutput(len: nat) returns (r: seq<byte>)
      requires Valid()
      modifies output
      ensures Valid() && State() == ReadOut(old(State()), len)
      ensures r == Peek(old(State()).out, len)
    {
      r := output.Read(len);
    }
  }

  /** Below the window's end the pieces carry exactly the bytes of `all`, all of them from `S`. */
  ghost predicate HoldsUnion(buf: seq<Piece>, all: map<nat, byte>, S: seq<byte>, hi: nat) {
    && (forall i: nat :: i in all <==> At(buf, i) && i < hi)
    && (forall i: nat :: i in all ==> i < |S| && all[i] == S[i])
  }

  lemma MidHolds(st: Store, before: seq<Piece>, mid: seq<Piece>, S: seq<byte>, data: seq<byte>, index: nat, isEof: bool)
    requires Faithful(st, S) && IsSlice(S, data, index, isEof) && st.held == HeldMap(before)
    requires if data == [] then mid == before
             else forall i: nat :: i < FirstUnacceptable(st) ==>
                    (At(mid, i) <==> At(before, i) || (Spans(Piece(index, data), i) && FirstUnassembled(st) <= i))
    ensures HoldsUnion(mid, st.held + Accepted(st, data, index), S, FirstUnacceptable(st))
  {
    UnionFaithful(st, S, data, index, isEof);
    forall i: nat ensures i in st.held <==> At(before, i) {
      HeldKeys(before, i);
    }
    if data != [] {
      assert forall i: nat :: Spans(Piece(index, data), i) <==> Covers(data, index, i);
    }
  }

  /** Draining the pieces is draining the map. */
  lemma DrainIsDrained(st: Store, all: map<nat, byte>, S: seq<byte>, mid: seq<Piece>, rest: seq<Piece>, now: nat)
    requires st.out.written <= S && FirstUnassembled(st) <= now <= |S| && now <= FirstUnacceptable(st)
    requires st.out.ended ==> FirstUnassembled(st) == |S|
    requires HoldsUnion(mid, all, S, FirstUnacceptable(st))
    requires StepsOut(mid, rest, FirstUnassembled(st), now, FirstUnacceptable(st))
    requires Tidy(rest) && AllAgree(rest, S) && AllInRange(rest, now, FirstUnacceptable(st))
    requires rest == [] || rest[0].idx != now
    ensures Drained(st, all) == st.(out := st.out.(written := S[..now]), held := HeldMap(rest))
  {
    RestOfUnion(all, S, mid, rest, FirstUnassembled(st), now, FirstUnacceptable(st));
    DrainedParts(st, all, S, rest, now);
  }

  lemma RestOfUnion(all: map<nat, byte>, S: seq<byte>, mid: seq<Piece>, rest: seq<Piece>, at: nat, now: nat, hi: nat)
    requires HoldsUnion(mid, all, S, hi) && StepsOut(mid, rest, at, now, hi) && now <= hi
    requires Tidy(rest) && AllInRange(rest, now, hi) && (rest == [] || rest[0].idx != now)
    ensures forall i: nat :: At(rest, i) <==> i in all && now <= i
    ensures forall i: nat :: at <= i < now ==> i in all
    ensures now !in all
  {
    RestInside(rest, now, hi);
  }

  lemma DrainedParts(st: Store, all: map<nat, byte>, S: seq<byte>, rest: seq<Piece>, now: nat)
    requires st.out.written <= S && FirstUnassembled(st) <= now <= |S| && now <= FirstUnacceptable(st)
    requires st.out.ended ==> FirstUnassembled(st) == |S|
    requires forall i: nat :: i in all ==> i < |S| && all[i] == S[i]
    requires AllAgree(rest, S)
    requires forall i: nat :: At(rest, i) <==> i in all && now <= i
    requires forall i: nat :: FirstUnassembled(st) <= i < now ==> i in all
    requires now !in all
    ensures Drained(st, all) == st.(out := st.out.(written := S[..now]), held := HeldMap(rest))
  {
    RunEnds(all, S, FirstUnassembled(st), FirstUnacceptable(st), now);
    LeftIsHeld(all, S, rest, now);
    WriteSlice(st.out, S, now);
  }

  lemma WriteSlice(out: Stream, S: seq<byte>, now: nat)
    requires out.written <= S && |out.written| <= now <= |S| && now <= out.read + out.capacity
    requires out.ended ==> |out.written| == |S|
    ensures AfterWrite(out, S[|out.written|..now]) == out.(written := S[..now])
  {
    var at := |out.written|;
    assert S[..now] == out.written + S[at..now];
    assert S[at..now][..now - at] == S[at..now];
  }

  lemma RunEnds(all: map<nat, byte>, S: seq<byte>, at: nat, hi: nat, now: nat)
    requires at <= now <= |S| && now <= hi
    requires forall i: nat :: i in all ==> i < |S| && all[i] == S[i]
    requires forall i: nat :: at <= i < now ==> i in all
    requires now < hi ==> now !in all
    ensures Run(all, at, hi) == S[at..now]
  {
    var run := Run(all, at, hi);
    assert at + |run| == now;
    forall j | 0 <= j < |run| ensures run[j] == S[at + j] {
      assert at + j in all;
    }
  }

  lemma LeftIsHeld(all: map<nat, byte>, S: seq<byte>, rest: seq<Piece>, now: nat)
    requires AllAgree(rest, S)
    requires forall i: nat :: i in all ==> i < |S| && all[i] == S[i]
    requires forall i: nat :: At(rest, i) <==> i in all && now <= i
    ensures Beyond(all, now) == HeldMap(rest)
  {
    var left, held := Beyond(all, now), HeldMap(rest);
    forall i: nat ensures i in left <==> i in held {
      HeldKeys(rest, i);
    }
    forall i: nat | i in left ensures left[i] == held[i] {
      HeldBytes(rest, S, i);
    }
    assert left == held;
  }

  lemma NothingLeft(buf: seq<Piece>, S: seq<byte>, at: nat)
    requires AllAgree(buf, S) && |S| <= at && forall k :: 0 <= k < |buf| ==> at < buf[k].idx
    ensures buf == []
  {
    assert |buf| > 0 ==> Agrees(buf[0], S);
  }

  /**
   Draining from count `at` to count `now` took exactly the stored indices below
   `now`, and left the others that lie inside the window.
   */
  ghost predicate StepsOut(before: seq<Piece>, after: seq<Piece>, at: nat, now: nat, hi: nat) {
    && (forall i: nat :: at <= i < now ==> At(before, i))
    && (forall i: nat :: i < hi ==> (At(after, i) <==> At(before, i) && now <= i))
  }

  /** One round of the drain loop: `now` is the count after writing the first piece. */
  lemma WroteFirst(before: seq<Piece>, S: seq<byte>, at: nat, hi: nat, now: nat)
    requires Tidy(before) && AllAgree(before, S) && AllInRange(before, at, hi)
    requires before != [] && before[0].idx == at && at <= hi
    requires now == at + Min(|before[0].data|, hi - at)
    ensures S[..at] + before[0].data[..now - at] == S[..now]
    ensures AllAgree(Without(before, 0), S) && AllInRange(Without(before, 0), now, hi)
    ensures StepsOut(before, Without(before, 0), at, now, hi)
  {
    var rest := Without(before, 0);
    assert forall j :: 0 <= j < |rest| ==> rest[j] == before[j + 1];
    forall i: nat | i < hi ensures At(rest, i) <==> At(before, i) && now <= i {
      WithoutAt(before, 0, i);
      if At(rest, i) {
        var k :| 0 <= k < |rest| && Spans(rest[k], i);
        assert before[0].End() <= before[k + 1].idx;
      }
    }
    forall i: nat | at <= i < now ensures At(before, i) {
      assert Spans(before[0], i);
    }
  }

  lemma RestInside(buf: seq<Piece>, at: nat, hi: nat)
    requires Tidy(buf) && AllInRange(buf, at, hi)
    requires buf == [] || buf[0].idx != at
    ensures forall k :: 0 <= k < |buf| ==> at < buf[k].idx && buf[k].End() <= hi
    ensures forall i: nat :: At(buf, i) ==> at < i < hi
  {
    forall k | 0 <= k < |buf| ensures at < buf[k].idx && buf[k].End() <= hi {
      assert InRange(buf[0], at, hi) && InRange(buf[k], at, hi);
      if k > 0 { assert buf[0].End() <= buf[k].idx; }
    }
  }
}
