/** The Internet checksum, section 1 of RFC 1071. */
module Checksums {
  import opened Words

  /** The bytes as 16-bit words, added up; `odd` says that the first byte is the low half of a word. */
  function WordSum(data: seq<byte>, odd: bool): nat {
    if data == [] then 0 else (if odd then data[0] else data[0] * 0x100) + WordSum(data[1..], !odd)
  }

  /** Folding carries back in until the sum fits 16 bits. */
  function Fold(sum: u32): u16 {
    if sum > 0xffff then Fold(sum / TWO16 + sum % TWO16) else sum
  }

  /** The complement of the folded sum. */
  function CheckValue(sum: u32): u16 {
    0xffff - Fold(sum)
  }

  /** The fold is the sum modulo 65535, with 65535 and not 0 for a positive multiple. */
  lemma {:induction false} FoldMeaning(sum: u32)
    ensures Fold(sum) == if sum == 0 then 0 else (sum - 1) % 0xffff + 1
    decreases sum
  {
    if sum > 0xffff {
      var next := sum / TWO16 + sum % TWO16;
      FoldMeaning(next);
      assert sum == sum / TWO16 * 0xffff + next;
      SameResidue(sum - 1, next - 1, sum / TWO16);
    }
  }

  lemma SameResidue(a: nat, b: nat, k: nat)
    requires a == k * 0xffff + b
    ensures a % 0xffff == b % 0xffff
  {
  }

  lemma FoldZeroOf(sum: u32)
    ensures CheckValue(sum) == 0 <==> sum > 0 && sum % 0xffff == 0
  {
    FoldMeaning(sum);
  }

  /**
   Adding a sum's own check value never carries out of 32 bits, because 2^32 - 1
   is itself a multiple of 65535, and the result always checks out.
   */
  lemma ChecksOut(sum: u32)
    ensures sum + CheckValue(sum) < TWO32
    ensures CheckValue(sum + CheckValue(sum)) == 0
  {
    var total := sum + CheckValue(sum);
    FoldMeaning(sum);
    assert TWO32 - 1 == 0x1_0001 * 0xffff;
    assert total > 0 && total % 0xffff == 0;
    FoldZeroOf(total);
  }

  lemma {:induction false} WordSumConcat(a: seq<byte>, b: seq<byte>, odd: bool)
    ensures WordSum(a + b, odd) == WordSum(a, odd) + WordSum(b, odd != (|a| % 2 == 1))
  {
    if a == [] {
      assert a + b == b;
    } else {
      WordSumConcat(a[1..], b, !odd);
      assert (a + b)[1..] == a[1..] + b;
    }
  }

  /** Replacing one byte changes the sum by its own weight. */
  lemma {:induction false} WordSumReplace(data: seq<byte>, odd: bool, k: nat, x: byte)
    requires k < |data|
    ensures var weight := if odd != (k % 2 == 1) then 1 else 0x100;
            WordSum(data[k := x], odd) == WordSum(data, odd) + (x - data[k]) * weight
  {
    var changed := data[k := x];
    if k == 0 {
      assert changed[1..] == data[1..];
    } else {
      assert changed[1..] == data[1..][k - 1 := x];
      WordSumReplace(data[1..], !odd, k - 1, x);
    }
  }

  lemma NotCongruent(a: nat, b: nat)
    requires a != b && a - 0xffff < b < a + 0xffff && a % 0xffff == 0
    ensures b % 0xffff != 0
  {
  }

  /** The 32-bit sum over a buffer, started with the lower layer's sum. */
  function Accumulated(initial: u32, data: seq<byte>): u32 {
    (initial + WordSum(data, false)) % TWO32
  }

  /** A 32-bit sum that checks out, moved by less than a word and perhaps wrapped, does not. */
  lemma MovedSum(total: nat, d: int)
    requires d != 0 && -0xff00 <= d <= 0xff00 && 0 <= total + d && CheckValue(total % TWO32) == 0
    ensures CheckValue((total + d) % TWO32) != 0
  {
    var before, after := total % TWO32, (total + d) % TWO32;
    FoldZeroOf(before);
    FoldZeroOf(after);
    WrapShifts(total, d);
    if after == before + d {
      NotCongruent(before, after);
    } else if after == before + d - TWO32 {
      assert TWO32 - 1 == 0x10001 * 0xffff;
      Multiple(before, 0x10001);
    }
  }

  lemma WrapShifts(total: nat, d: int)
    requires -TWO32 < d < TWO32 && 0 <= total + d
    ensures var before, after := total % TWO32, (total + d) % TWO32;
            after == before + d || after == before + d - TWO32 || after == before + d + TWO32
  {
  }

  lemma Multiple(a: nat, k: nat)
    requires a % 0xffff == 0 && k * 0xffff - 0xffff < a <= k * 0xffff
    ensures a == k * 0xffff
  {
  }

  /** Any change of a single byte in data that checked out is noticed, whether or not the sum wraps. */
  lemma CorruptionNoticed(initial: u32, data: seq<byte>, k: nat, x: byte)
    requires k < |data| && x != data[k]
    requires CheckValue(Accumulated(initial, data)) == 0
    ensures CheckValue(Accumulated(initial, data[k := x])) != 0
  {
    WordSumReplace(data, false, k, x);
    MovedSum(initial + WordSum(data, false), WordSum(data[k := x], false) - WordSum(data, false));
  }

  class InternetChecksum {
    var sum: u32
    var parity: bool

    constructor (initial: u32)
      ensures sum == initial && !parity
    {
      sum := initial;
      parity := false;
    }

    method Add(data: seq<byte>)
      modifies this
      ensures sum == (old(sum) + WordSum(data, old(parity))) % TWO32
      ensures parity == (old(parity) != (|data| % 2 == 1))
    {
      ghost var total: nat := sum;
      for i := 0 to |data|
        invariant parity == (old(parity) != (i % 2 == 1))
        invariant sum == total % TWO32
        invariant total + WordSum(data[i..], parity) == old(sum) + WordSum(data, old(parity))
      {
        var val: u16 := data[i];
        if !parity {
          val := val * 0x100;
        }
        assert data[i..][1..] == data[i + 1..];
        WrapAdd(total, val);
        total := total + val;
        sum := (sum + val) % TWO32;
        parity := !parity;
      }
    }

    method Value() returns (r: u16)
      ensures r == CheckValue(sum)
    {
      var ret: u32 := sum;
      while ret > 0xffff
        invariant Fold(ret) == Fold(sum)
        decreases ret
      {
        ret := ret / TWO16 + ret % TWO16;
      }
      r := 0xffff - ret;
    }
  }

  lemma WrapAdd(a: nat, b: nat)
    ensures (a % TWO32 + b) % TWO32 == (a + b) % TWO32
  {
  }

  lemma ModPlus(a: nat, b: nat)
    requires a % TWO32 + b < TWO32
    ensures (a + b) % TWO32 == a % TWO32 + b
  {
  }
}
