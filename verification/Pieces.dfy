/**
 The pieces a reassembler stores: an ordered set keyed by start index, written
 here as a sequence in key order, and the merging of overlapping pieces.
 */
module Pieces {
  import opened Words

  datatype Piece = Piece(idx: nat, data: seq<byte>) {
    function End(): nat {
      idx + |data|
    }

    /** Index of the last byte. */
    function TailIdx(): int {
      idx + |data| - 1
    }
  }

  predicate Spans(p: Piece, i: nat) {
    p.idx <= i < p.End()
  }

  predicate Disjoint(p: Piece, q: Piece) {
    p.End() <= q.idx || q.End() <= p.idx
  }

  /** `p` is a non-empty slice of `S`. */
  predicate Agrees(p: Piece, S: seq<byte>) {
    p.data != [] && p.End() <= |S| && p.data == S[p.idx..p.End()]
  }

  /** `p` starts at or after `lo` and, unless it starts exactly there, ends by `hi`. */
  predicate InRange(p: Piece, lo: nat, hi: nat) {
    lo <= p.idx && (p.End() <= hi || p.idx == lo)
  }

  /** Non-empty pieces in order, no two sharing an index. */
  predicate Tidy(buf: seq<Piece>) {
    && (forall k :: 0 <= k < |buf| ==> buf[k].data != [])
    && (forall j, k :: 0 <= j < k < |buf| ==> buf[j].End() <= buf[k].idx)
  }

  ghost predicate AllAgree(buf: seq<Piece>, S: seq<byte>) {
    forall k :: 0 <= k < |buf| ==> Agrees(buf[k], S)
  }

  ghost predicate AllInRange(buf: seq<Piece>, lo: nat, hi: nat) {
    forall k :: 0 <= k < |buf| ==> InRange(buf[k], lo, hi)
  }

  /** Some stored piece carries index `i`. */
  ghost predicate At(buf: seq<Piece>, i: nat) {
    exists k :: 0 <= k < |buf| && Spans(buf[k], i)
  }

  ghost function TotalLength(buf: seq<Piece>): nat {
    if buf == [] then 0 else |buf[0].data| + TotalLength(buf[1..])
  }

  function Without(buf: seq<Piece>, k: nat): seq<Piece>
    requires k < |buf|
  {
    buf[..k] + buf[k + 1..]
  }

  /** Insertion into a set ordered by start index: an equal key leaves the set unchanged. */
  function SetInsert(buf: seq<Piece>, p: Piece): seq<Piece> {
    if buf == [] then [p]
    else if p.idx < buf[0].idx then [p] + buf
    else if p.idx == buf[0].idx then buf
    else [buf[0]] + SetInsert(buf[1..], p)
  }

  /** Insertion happens at the first place whose key is not smaller. */
  lemma {:induction false} InsertPlace(buf: seq<Piece>, p: Piece, k: nat)
    requires k <= |buf| && forall j :: 0 <= j < k ==> buf[j].idx < p.idx
    requires k < |buf| ==> p.idx <= buf[k].idx
    ensures SetInsert(buf, p) ==
              if k == |buf| || p.idx < buf[k].idx then buf[..k] + [p] + buf[k..] else buf
  {
    if k > 0 {
      InsertPlace(buf[1..], p, k - 1);
      assert buf[1..][..k - 1] == buf[1..k] && buf[1..][k - 1..] == buf[k..];
      assert [buf[0]] + buf[1..k] == buf[..k];
    }
  }

  // ---------------------------------------------------------------- the set of indices

  lemma WithoutTidy(buf: seq<Piece>, k: nat)
    requires Tidy(buf) && k < |buf|
    ensures Tidy(Without(buf, k))
    ensures forall j :: 0 <= j < |Without(buf, k)| ==> Without(buf, k)[j] in buf && Disjoint(Without(buf, k)[j], buf[k])
  {
    var w := Without(buf, k);
    forall j | 0 <= j < |w| ensures w[j] in buf && Disjoint(w[j], buf[k]) {
      assert w[j] == if j < k then buf[j] else buf[j + 1];
    }
  }

  lemma WithoutAt(buf: seq<Piece>, k: nat, i: nat)
    requires k < |buf|
    ensures At(buf, i) <==> At(Without(buf, k), i) || Spans(buf[k], i)
  {
    var w := Without(buf, k);
    if At(w, i) {
      var j :| 0 <= j < |w| && Spans(w[j], i);
      assert w[j] == if j < k then buf[j] else buf[j + 1];
    }
    if At(buf, i) && !Spans(buf[k], i) {
      var j :| 0 <= j < |buf| && Spans(buf[j], i);
      if j < k { assert w[j] == buf[j]; } else { assert w[j - 1] == buf[j]; }
    }
  }

  lemma {:induction false} TotalLengthConcat(a: seq<Piece>, b: seq<Piece>)
    ensures TotalLength(a + b) == TotalLength(a) + TotalLength(b)
  {
    if a == [] {
      assert a + b == b;
    } else {
      assert (a + b)[1..] == a[1..] + b;
      TotalLengthConcat(a[1..], b);
    }
  }

  lemma WithoutLength(buf: seq<Piece>, k: nat)
    requires k < |buf|
    ensures TotalLength(buf) == TotalLength(Without(buf, k)) + |buf[k].data|
  {
    assert buf == buf[..k] + ([buf[k]] + buf[k + 1..]);
    TotalLengthConcat(buf[..k], [buf[k]] + buf[k + 1..]);
    TotalLengthConcat([buf[k]], buf[k + 1..]);
    assert TotalLength([buf[k]]) == |buf[k].data|;
    TotalLengthConcat(buf[..k], buf[k + 1..]);
  }

  lemma {:induction false} InsertMembers(buf: seq<Piece>, p: Piece)
    requires forall k :: 0 <= k < |buf| ==> buf[k].idx != p.idx
    ensures var r := SetInsert(buf, p);
            && |r| == |buf| + 1
            && (forall q :: q in r <==> q in buf || q == p)
            && TotalLength(r) == TotalLength(buf) + |p.data|
  {
    if buf == [] {
      assert TotalLength([p]) == |p.data| + TotalLength([p][1..]);
    } else if p.idx < buf[0].idx {
      assert SetInsert(buf, p)[1..] == buf;
    } else {
      InsertMembers(buf[1..], p);
      assert SetInsert(buf, p)[1..] == SetInsert(buf[1..], p);
      assert buf == [buf[0]] + buf[1..];
    }
  }

  /** A piece that meets no stored piece takes its place in the order. */
  lemma {:induction false} InsertTidy(buf: seq<Piece>, p: Piece)
    requires Tidy(buf) && p.data != []
    requires forall k :: 0 <= k < |buf| ==> Disjoint(buf[k], p)
    ensures Tidy(SetInsert(buf, p))
  {
    if buf != [] && buf[0].idx < p.idx {
      var rest := SetInsert(buf[1..], p);
      InsertTidy(buf[1..], p);
      InsertMembers(buf[1..], p);
      forall q | q in rest ensures buf[0].End() <= q.idx {
        assert q in buf[1..] || q == p;
      }
      ConsTidy(buf[0], rest);
    } else if buf != [] {
      ConsTidy(p, buf);
    }
  }

  lemma ConsTidy(p: Piece, rest: seq<Piece>)
    requires Tidy(rest) && p.data != [] && forall q :: q in rest ==> p.End() <= q.idx
    ensures Tidy([p] + rest)
  {
  }

  lemma InsertAt(buf: seq<Piece>, p: Piece, i: nat)
    requires forall q :: q in SetInsert(buf, p) <==> q in buf || q == p
    ensures At(SetInsert(buf, p), i) <==> At(buf, i) || Spans(p, i)
  {
    var r := SetInsert(buf, p);
    if At(r, i) {
      var k :| 0 <= k < |r| && Spans(r[k], i);
      assert r[k] in r;
      if r[k] != p {
        var j :| 0 <= j < |buf| && buf[j] == r[k];
      }
    }
    if At(buf, i) {
      var k :| 0 <= k < |buf| && Spans(buf[k], i);
      assert buf[k] in r;
      var j :| 0 <= j < |r| && r[j] == buf[k];
    }
    if Spans(p, i) {
      assert p in r;
      var j :| 0 <= j < |r| && r[j] == p;
    }
  }

  lemma InsertKeeps(buf: seq<Piece>, p: Piece, S: seq<byte>, lo: nat, hi: nat)
    requires Tidy(buf) && AllAgree(buf, S) && AllInRange(buf, lo, hi)
    requires Agrees(p, S) && InRange(p, lo, hi)
    requires forall k :: 0 <= k < |buf| ==> Disjoint(buf[k], p)
    ensures var r := SetInsert(buf, p);
            && Tidy(r) && AllAgree(r, S) && AllInRange(r, lo, hi)
            && TotalLength(r) == TotalLength(buf) + |p.data|
            && (forall i: nat :: At(r, i) <==> At(buf, i) || Spans(p, i))
  {
    InsertTidy(buf, p);
    InsertMembers(buf, p);
    var r := SetInsert(buf, p);
    forall k | 0 <= k < |r| ensures Agrees(r[k], S) && InRange(r[k], lo, hi) {
      assert r[k] in r;
    }
    forall i: nat ensures At(r, i) <==> At(buf, i) || Spans(p, i) {
      InsertAt(buf, p, i);
    }
  }

  // ---------------------------------------------------------------- trimming to the window

  /**
   The source's two trims. The right-hand one cuts to `hi - index` bytes with the
   index the piece had on arrival, so a piece whose front was cut may still end
   past `hi`.
   */
  function Trimmed(seg: Piece, lo: nat, hi: nat): Piece
    requires seg.idx < hi && lo <= seg.TailIdx()
  {
    var front := if seg.idx < lo then Piece(lo, seg.data[lo - seg.idx..]) else seg;
    if front.TailIdx() >= hi then Piece(front.idx, front.data[..Min(|front.data|, hi - seg.idx)]) else front
  }

  /** Below the window's end the trimmed piece has exactly the right indices; it overruns only from `lo`. */
  lemma TrimmedMeaning(seg: Piece, lo: nat, hi: nat, S: seq<byte>)
    requires Agrees(seg, S) && lo <= hi && seg.idx < hi && lo <= seg.TailIdx()
    ensures var t := Trimmed(seg, lo, hi);
            && InRange(t, lo, hi)
            && Agrees(t, S)
            && (forall i: nat :: i < hi ==> (Spans(t, i) <==> Spans(seg, i) && lo <= i))
  {
  }

  // ---------------------------------------------------------------- merging

  /** The source's four-way merge of a new piece with a stored piece it meets. */
  function MergeSeg(seg: Piece, other: Piece): Piece
    requires seg.data != [] && other.data != [] && !Disjoint(seg, other)
  {
    if seg.idx < other.idx && seg.TailIdx() <= other.TailIdx() then
      Piece(seg.idx, seg.data[..other.idx - seg.idx] + other.data)
    else if seg.idx >= other.idx && seg.TailIdx() > other.TailIdx() then
      Piece(other.idx, other.data + seg.data[other.End() - seg.idx..])
    else if seg.idx >= other.idx && seg.TailIdx() <= other.TailIdx() then
      other
    else
      seg
  }

  /** Merging slices of one stream gives the slice over both. */
  lemma MergeIsHull(seg: Piece, other: Piece, S: seq<byte>)
    requires Agrees(seg, S) && Agrees(other, S) && !Disjoint(seg, other)
    ensures var m := MergeSeg(seg, other);
            && m.idx == Min(seg.idx, other.idx)
            && m.End() == Max(seg.End(), other.End())
            && Agrees(m, S)
  {
    var m := MergeSeg(seg, other);
    if seg.idx < other.idx && seg.TailIdx() <= other.TailIdx() {
      assert m.data == S[seg.idx..other.idx] + S[other.idx..other.End()] == S[seg.idx..other.End()];
    } else if seg.idx >= other.idx && seg.TailIdx() > other.TailIdx() {
      assert m.data == S[other.idx..other.End()] + S[other.End()..seg.End()] == S[other.idx..seg.End()];
    }
  }

  /** The overlap test of the source, written on the inclusive bounds of the new piece. */
  predicate Overlaps(segIndex: nat, segTail: int, p: Piece) {
    || (segIndex <= p.TailIdx() && segIndex >= p.idx)
    || (segTail >= p.idx && segIndex <= p.idx)
  }

  lemma OverlapsIsMeets(seg: Piece, p: Piece)
    requires seg.data != [] && p.data != []
    ensures Overlaps(seg.idx, seg.TailIdx(), p) <==> !Disjoint(seg, p)
  {
  }

  /**
   Where the overlap loop stands after `k` pieces: `cur` has grown from `seg` and
   meets no examined piece; an unexamined piece that meets `cur` also meets `seg`,
   so testing against the original bounds misses nothing.
   */
  ghost predicate Growing(buf: seq<Piece>, k: nat, cur: Piece, seg: Piece) {
    && k <= |buf|
    && cur.idx <= seg.idx && seg.End() <= cur.End()
    && (forall j :: 0 <= j < |buf| ==> Disjoint(buf[j], cur) || !Disjoint(buf[j], seg))
    && (forall j :: 0 <= j < k ==> Disjoint(buf[j], cur))
  }

  lemma GrowMerge(buf: seq<Piece>, k: nat, cur: Piece, seg: Piece, S: seq<byte>, lo: nat, hi: nat)
    requires Tidy(buf) && AllAgree(buf, S) && AllInRange(buf, lo, hi) && k < |buf|
    requires seg.data != [] && Agrees(cur, S) && InRange(cur, lo, hi)
    requires Growing(buf, k, cur, seg) && !Disjoint(seg, buf[k])
    ensures !Disjoint(cur, buf[k])
    ensures var w := Without(buf, k);
            var m := MergeSeg(cur, buf[k]);
            && Tidy(w) && AllAgree(w, S) && AllInRange(w, lo, hi)
            && Agrees(m, S) && InRange(m, lo, hi)
            && Growing(w, k, m, seg)
            && (forall i: nat :: At(w, i) || Spans(m, i) <==> At(buf, i) || Spans(cur, i))
  {
    var w := Without(buf, k);
    MergeIsHull(cur, buf[k], S);
    var m := MergeSeg(cur, buf[k]);
    WithoutTidy(buf, k);
    assert forall j :: 0 <= j < |w| ==> w[j] == if j < k then buf[j] else buf[j + 1];
    HullGrowing(buf, k, cur, m, seg);
    forall i: nat ensures At(w, i) || Spans(m, i) <==> At(buf, i) || Spans(cur, i) {
      WithoutAt(buf, k, i);
    }
  }

  /** The hull of the growing piece and one that meets it: any other it meets was met before. */
  lemma HullGrowing(buf: seq<Piece>, k: nat, cur: Piece, m: Piece, seg: Piece)
    requires Tidy(buf) && k < |buf| && Growing(buf, k, cur, seg) && !Disjoint(cur, buf[k])
    requires m.idx == Min(cur.idx, buf[k].idx) && m.End() == Max(cur.End(), buf[k].End())
    ensures Growing(Without(buf, k), k, m, seg)
  {
    var w := Without(buf, k);
    forall j | 0 <= j < |w|
      ensures Disjoint(w[j], m) || !Disjoint(w[j], seg)
      ensures j < k ==> Disjoint(w[j], m)
    {
      assert w[j] == if j < k then buf[j] else buf[j + 1];
    }
  }

  // ---------------------------------------------------------------- pieces as a map

  ghost function PieceMap(p: Piece): map<nat, byte> {
    map i: nat | p.idx <= i < p.End() && Spans(p, i) :: p.data[i - p.idx]
  }

  /** The bytes stored in the pieces, by index. */
  ghost function HeldMap(buf: seq<Piece>): map<nat, byte> {
    if buf == [] then map[] else HeldMap(buf[1..]) + PieceMap(buf[0])
  }

  lemma {:induction false} HeldKeys(buf: seq<Piece>, i: nat)
    ensures i in HeldMap(buf) <==> At(buf, i)
  {
    if buf != [] {
      HeldKeys(buf[1..], i);
      WithoutAt(buf, 0, i);
      assert Without(buf, 0) == buf[1..];
    }
  }

  lemma {:induction false} HeldBytes(buf: seq<Piece>, S: seq<byte>, i: nat)
    requires AllAgree(buf, S) && i in HeldMap(buf)
    ensures i < |S| && HeldMap(buf)[i] == S[i]
  {
    if buf != [] && !Spans(buf[0], i) {
      HeldBytes(buf[1..], S, i);
    }
  }

  /** `m` holds nothing but bytes of `S`. */
  ghost predicate MapAgrees(m: map<nat, byte>, S: seq<byte>) {
    forall i: nat :: i in m ==> i < |S| && m[i] == S[i]
  }

  lemma FirstAgrees(p: Piece, rest: map<nat, byte>, S: seq<byte>)
    requires p.data != [] && MapAgrees(rest + PieceMap(p), S)
    ensures Agrees(p, S)
  {
    var whole := rest + PieceMap(p);
    PieceMapAt(p, rest, |p.data| - 1);
    assert p.End() - 1 in whole && p.End() <= |S|;
    forall j | 0 <= j < |p.data| ensures p.data[j] == S[p.idx..p.End()][j] {
      PieceMapAt(p, rest, j);
    }
  }

  lemma PieceMapAt(p: Piece, rest: map<nat, byte>, j: nat)
    requires j < |p.data|
    ensures p.idx + j in rest + PieceMap(p) && (rest + PieceMap(p))[p.idx + j] == p.data[j]
  {
    assert Spans(p, p.idx + j);
  }

  lemma RestAgrees(buf: seq<Piece>, S: seq<byte>)
    requires Tidy(buf) && buf != [] && MapAgrees(HeldMap(buf), S)
    ensures MapAgrees(HeldMap(buf[1..]), S)
  {
    forall i: nat | i in HeldMap(buf[1..]) ensures i < |S| && HeldMap(buf[1..])[i] == S[i] {
      HeldKeys(buf[1..], i);
      var k :| 0 <= k < |buf[1..]| && Spans(buf[1..][k], i);
      assert buf[1..][k] == buf[k + 1];
      assert !Spans(buf[0], i);
      assert i in HeldMap(buf);
    }
  }

  /** For tidy pieces, bytes that agree with `S` as a map agree with it piece by piece. */
  lemma {:induction false} HeldAgree(buf: seq<Piece>, S: seq<byte>)
    requires Tidy(buf) && MapAgrees(HeldMap(buf), S)
    ensures AllAgree(buf, S)
  {
    if buf != [] {
      FirstAgrees(buf[0], HeldMap(buf[1..]), S);
      RestAgrees(buf, S);
      HeldAgree(buf[1..], S);
    }
  }

  lemma {:induction false} PieceCount(p: Piece)
    ensures |PieceMap(p)| == |p.data|
    decreases |p.data|
  {
    if p.data == [] {
      assert PieceMap(p) == map[];
    } else {
      var last := p.End() - 1;
      var shorter := Piece(p.idx, p.data[..|p.data| - 1]);
      PieceCount(shorter);
      assert PieceMap(p) == PieceMap(shorter)[last := p.data[|p.data| - 1]] by {
        assert forall i: nat :: Spans(p, i) <==> Spans(shorter, i) || i == last;
      }
      assert last !in PieceMap(shorter);
    }
  }

  lemma DisjointUnionCount(a: map<nat, byte>, b: map<nat, byte>)
    requires a.Keys !! b.Keys
    ensures |a + b| == |a| + |b|
  {
    assert (a + b).Keys == a.Keys + b.Keys;
    assert |a.Keys + b.Keys| == |a.Keys| + |b.Keys|;
  }

  lemma RestAvoidsFirst(buf: seq<Piece>)
    requires Tidy(buf) && buf != []
    ensures HeldMap(buf[1..]).Keys !! PieceMap(buf[0]).Keys
  {
    forall i: nat | i in HeldMap(buf[1..]) ensures i !in PieceMap(buf[0]) {
      HeldKeys(buf[1..], i);
      var k :| 0 <= k < |buf[1..]| && Spans(buf[1..][k], i);
      assert buf[1..][k] == buf[k + 1];
    }
  }

  /** Stored bytes are counted once each, however often they arrived. */
  lemma {:induction false} HeldCount(buf: seq<Piece>)
    requires Tidy(buf)
    ensures |HeldMap(buf)| == TotalLength(buf)
  {
    if buf != [] {
      HeldCount(buf[1..]);
      PieceCount(buf[0]);
      RestAvoidsFirst(buf);
      DisjointUnionCount(HeldMap(buf[1..]), PieceMap(buf[0]));
    }
  }

  /** Tidy pieces inside `[lo, hi)` hold at most `hi - lo` bytes. */
  lemma {:induction false} LengthBound(buf: seq<Piece>, lo: nat, hi: nat)
    requires Tidy(buf) && lo <= hi
    requires forall k :: 0 <= k < |buf| ==> lo <= buf[k].idx && buf[k].End() <= hi
    ensures TotalLength(buf) <= hi - lo
  {
    if buf != [] {
      LengthBound(buf[1..], buf[0].End(), hi);
    }
  }
}
