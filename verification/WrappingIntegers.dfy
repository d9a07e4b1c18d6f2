/**
 Sequence numbers: absolute 64-bit numbers and their 32-bit form on the wire,
 section 3.3 of RFC 793.
 */
module WrappingIntegers {
  import opened Words

  /** The 32-bit form of absolute number `n`; both additions are modulo 2^32. */
  function Wrap(n: nat, isn: u32): u32 {
    (isn + n % TWO32) % TWO32
  }

  /** The increments from `Wrap(checkpoint)` up to `n`, read as an unsigned 32-bit number. */
  function Offset(n: u32, isn: u32, checkpoint: nat): u32 {
    (n - Wrap(checkpoint, isn)) % TWO32
  }

  /** The choice between the first candidate at or after the checkpoint and the one before it. */
  function Settle(checkpoint: nat, offset: u32): u64 {
    var pos := (checkpoint + offset) % TWO64;
    if offset > TWO31 && pos >= TWO32 then pos - TWO32 else pos
  }

  /** The absolute number for `n`, with the 64-bit addition of the source. */
  function Unwrap(n: u32, isn: u32, checkpoint: nat): u64 {
    Settle(checkpoint, Offset(n, isn, checkpoint))
  }

  /** The absolute number of a wire number when it is known to lie below 2^32. */
  function Absolute(n: u32, isn: u32): u32 {
    (n - isn) % TWO32
  }

  function Distance(a: nat, b: nat): nat {
    if a <= b then b - a else a - b
  }

  /** `r` wraps to `n`, and no other absolute number that does is nearer to the checkpoint; ties go up. */
  ghost predicate IsNearest(r: nat, n: u32, isn: u32, checkpoint: nat) {
    && Wrap(r, isn) == n
    && forall c: u64 :: Wrap(c, isn) == n ==>
         || Distance(r, checkpoint) < Distance(c, checkpoint)
         || (Distance(r, checkpoint) == Distance(c, checkpoint) && c <= r)
  }

  /** Two numbers have the same wire form exactly when they differ by a multiple of 2^32. */
  lemma WrapInjective(a: nat, b: nat, isn: u32)
    ensures Wrap(a, isn) == Wrap(b, isn) <==> a % TWO32 == b % TWO32
  {
  }

  lemma WrapPeriodic(a: nat, b: nat, isn: u32)
    requires Wrap(a, isn) == Wrap(b, isn) && a < b
    ensures a + TWO32 <= b
  {
    WrapInjective(a, b, isn);
  }

  lemma WrapShift(a: nat, isn: u32)
    ensures Wrap(a + TWO32, isn) == Wrap(a, isn)
    ensures Wrap(a + TWO64, isn) == Wrap(a, isn)
  {
    assert (a + TWO64) % TWO32 == a % TWO32 by {
      assert a + TWO64 == a + TWO32 * TWO32;
    }
  }

  lemma OffsetReaches(n: u32, isn: u32, checkpoint: nat)
    ensures Wrap(checkpoint + Offset(n, isn, checkpoint), isn) == n
  {
    var base, offset := Wrap(checkpoint, isn), Offset(n, isn, checkpoint);
    assert n == (base + offset) % TWO32;
    WrapPlus(checkpoint, offset, isn);
  }

  lemma WrapPlus(a: nat, b: u32, isn: u32)
    ensures Wrap(a + b, isn) == (Wrap(a, isn) + b) % TWO32
  {
    var low := a % TWO32;
    assert (a + b) % TWO32 == if low + b < TWO32 then low + b else low + b - TWO32;
  }

  lemma SettleValue(checkpoint: u64, offset: u32)
    ensures var sum := checkpoint + offset;
            Settle(checkpoint, offset) ==
              if sum >= TWO64 then sum - TWO64
              else if offset > TWO31 && sum >= TWO32 then sum - TWO32
              else sum
  {
    var sum := checkpoint + offset;
    if sum >= TWO64 {
      assert sum % TWO64 == sum - TWO64;
    }
  }

  /** What `Settle` returns has the same wire form as the plain sum. */
  lemma SettleWraps(checkpoint: u64, offset: u32, isn: u32)
    ensures Wrap(Settle(checkpoint, offset), isn) == Wrap(checkpoint + offset, isn)
  {
    var sum := checkpoint + offset;
    var r := Settle(checkpoint, offset);
    SettleValue(checkpoint, offset);
    if sum >= TWO64 {
      WrapShift(sum - TWO64, isn);
    } else if offset > TWO31 && sum >= TWO32 {
      WrapShift(sum - TWO32, isn);
    }
  }

  /** Unwrapping always yields some number with the right wire form, whatever the checkpoint. */
  lemma UnwrapWrapsBack(n: u32, isn: u32, checkpoint: u64)
    ensures Wrap(Unwrap(n, isn, checkpoint), isn) == n
  {
    SettleWraps(checkpoint, Offset(n, isn, checkpoint), isn);
    OffsetReaches(n, isn, checkpoint);
  }

  /** A rival candidate differs by whole turns of 2^32, so it is no nearer. */
  lemma SettleBeats(checkpoint: u64, offset: u32, c: u64, isn: u32)
    requires checkpoint + offset < TWO64
    requires Wrap(c, isn) == Wrap(checkpoint + offset, isn)
    ensures var r := Settle(checkpoint, offset);
            || Distance(r, checkpoint) < Distance(c, checkpoint)
            || (Distance(r, checkpoint) == Distance(c, checkpoint) && c <= r)
  {
    var r := Settle(checkpoint, offset);
    SettleWraps(checkpoint, offset, isn);
    assert c < r ==> c + TWO32 <= r by { if c < r { WrapPeriodic(c, r, isn); } }
    assert r < c ==> r + TWO32 <= c by { if r < c { WrapPeriodic(r, c, isn); } }
    SettleValue(checkpoint, offset);
  }

  /** After an overflow the sum less one turn is representable and nearer. */
  lemma SettleLoses(checkpoint: u64, offset: u32, isn: u32)
    requires checkpoint + offset >= TWO64
    ensures var nearer := checkpoint + offset - TWO32;
            && 0 <= nearer < TWO64
            && Wrap(nearer, isn) == Wrap(checkpoint + offset, isn)
            && Distance(nearer, checkpoint) < Distance(Settle(checkpoint, offset), checkpoint)
  {
    WrapShift(checkpoint + offset - TWO32, isn);
    SettleValue(checkpoint, offset);
  }

  /**
   The promise of `unwrap` -- nearest to the checkpoint -- holds exactly when the
   64-bit sum of checkpoint and offset does not overflow.
   */
  lemma UnwrapNearestIff(n: u32, isn: u32, checkpoint: u64)
    ensures IsNearest(Unwrap(n, isn, checkpoint), n, isn, checkpoint)
       <==> checkpoint + Offset(n, isn, checkpoint) < TWO64
  {
    var offset := Offset(n, isn, checkpoint);
    UnwrapWrapsBack(n, isn, checkpoint);
    OffsetReaches(n, isn, checkpoint);
    if checkpoint + offset < TWO64 {
      forall c: u64 | Wrap(c, isn) == n
        ensures var r := Settle(checkpoint, offset);
                || Distance(r, checkpoint) < Distance(c, checkpoint)
                || (Distance(r, checkpoint) == Distance(c, checkpoint) && c <= r)
      {
        SettleBeats(checkpoint, offset, c, isn);
      }
    } else {
      SettleLoses(checkpoint, offset, isn);
    }
  }

  /** Below the overflow margin the promise holds for every wire number. */
  lemma UnwrapNearest(n: u32, isn: u32, checkpoint: u64)
    requires checkpoint + TWO32 <= TWO64
    ensures IsNearest(Unwrap(n, isn, checkpoint), n, isn, checkpoint)
  {
    UnwrapNearestIff(n, isn, checkpoint);
  }

  /**
   The numbers that survive: up to 2^31 above the checkpoint, or fewer than 2^31
   below it; below 2^32 also any number above the checkpoint, there being no lower
   candidate. Near 2^64 the sum overflows: the numbers below the checkpoint that
   need a correction are lost, and the smallest numbers come back in their place.
   */
  predicate Survives(v: u64, checkpoint: u64) {
    || checkpoint <= v <= checkpoint + TWO31
    || checkpoint <= v < TWO32
    || (checkpoint - TWO31 < v < checkpoint && v + TWO32 < TWO64)
    || v + TWO64 < checkpoint + TWO32
  }

  /** Equal, or at least one turn of the 32-bit circle apart. */
  predicate Apart(a: nat, b: nat) {
    a == b || a + TWO32 <= b || b + TWO32 <= a
  }

  lemma SameWireApart(a: nat, b: nat, isn: u32)
    requires Wrap(a, isn) == Wrap(b, isn)
    ensures Apart(a, b)
  {
    if a < b {
      WrapPeriodic(a, b, isn);
    } else if b < a {
      WrapPeriodic(b, a, isn);
    }
  }

  lemma SettledSurvives(checkpoint: u64, offset: u32, v: u64)
    requires var sum := checkpoint + offset;
             Apart(v, sum) && Apart(v + TWO32, sum) && Apart(v + TWO64, sum)
    ensures var sum := checkpoint + offset;
            var r := if sum >= TWO64 then sum - TWO64
                     else if offset > TWO31 && sum >= TWO32 then sum - TWO32 else sum;
            r == v <==> Survives(v, checkpoint)
  {
  }

  lemma SettleRange(checkpoint: u64, offset: u32, v: u64, isn: u32)
    requires Wrap(v, isn) == Wrap(checkpoint + offset, isn)
    ensures Settle(checkpoint, offset) == v <==> Survives(v, checkpoint)
  {
    WrapShift(v, isn);
    SameWireApart(v, checkpoint + offset, isn);
    SameWireApart(v + TWO32, checkpoint + offset, isn);
    SameWireApart(v + TWO64, checkpoint + offset, isn);
    SettledSurvives(checkpoint, offset, v);
    SettleValue(checkpoint, offset);
  }

  /** Exactly which absolute numbers survive the trip through the wire, at any checkpoint. */
  lemma UnwrapOfWrapIff(v: u64, isn: u32, checkpoint: u64)
    ensures Unwrap(Wrap(v, isn), isn, checkpoint) == v <==> Survives(v, checkpoint)
  {
    var offset := Offset(Wrap(v, isn), isn, checkpoint);
    OffsetReaches(Wrap(v, isn), isn, checkpoint);
    SettleRange(checkpoint, offset, v, isn);
  }

  /** The form used by the sender and the receiver: both numbers lie below 2^31. */
  lemma UnwrapOfWrapSmall(v: nat, isn: u32, checkpoint: nat)
    requires v < TWO31 && checkpoint < TWO31
    ensures Unwrap(Wrap(v, isn), isn, checkpoint) == v
  {
    UnwrapOfWrapIff(v, isn, checkpoint);
  }

  lemma AbsoluteOfWrap(v: nat, isn: u32)
    requires v < TWO32
    ensures Absolute(Wrap(v, isn), isn) == v
  {
  }

  lemma WrapOfAbsolute(n: u32, isn: u32)
    ensures Wrap(Absolute(n, isn), isn) == n
  {
  }
}
