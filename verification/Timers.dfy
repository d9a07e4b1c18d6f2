/** The retransmission timer: a countdown, against the elapsed-time rule of section 5 of RFC 6298. */
module Timers {
  import opened Words

  datatype Timer = Timer(remaining: u32, expired: bool, started: bool)

  function Stopped(): Timer {
    Timer(0, false, false)
  }

  function Started(rto: u32): Timer {
    Timer(rto, false, true)
  }

  function Ticked(t: Timer, ms: nat): Timer {
    if !t.started then t
    else if ms >= t.remaining then t.(expired := true)
    else t.(remaining := t.remaining - ms)
  }

  predicate Expired(t: Timer) {
    t.expired && t.started
  }

  function TickedAll(t: Timer, ticks: seq<nat>): Timer
    decreases |ticks|
  {
    if ticks == [] then t else TickedAll(Ticked(t, ticks[0]), ticks[1..])
  }

  function Sum(ticks: seq<nat>): nat {
    if ticks == [] then 0 else ticks[0] + Sum(ticks[1..])
  }

  /**
   The countdown is a sum of elapsed time: after any ticks since the start it has
   expired exactly when some tick brought the elapsed time to the timeout, and
   until then it stands at the timeout less the elapsed time.
   */
  lemma {:induction false} CountdownIsElapsed(rto: u32, ticks: seq<nat>)
    ensures var t := TickedAll(Started(rto), ticks);
            && (Expired(t) <==> exists k :: 0 < k <= |ticks| && Sum(ticks[..k]) >= rto)
            && (!Expired(t) ==> t.remaining == rto - Sum(ticks))
    decreases |ticks|
  {
    if ticks != [] {
      var rest := ticks[1..];
      forall k | 0 <= k <= |rest| ensures Sum(ticks[..k + 1]) == ticks[0] + Sum(rest[..k]) {
        assert ticks[..k + 1][1..] == rest[..k];
      }
      assert ticks[..1] == [ticks[0]];
      if ticks[0] >= rto {
        StaysExpired(Ticked(Started(rto), ticks[0]), rest);
        assert Sum(ticks[..1]) >= rto;
      } else {
        CountdownIsElapsed(rto - ticks[0], rest);
        var t := TickedAll(Started(rto), ticks);
        if Expired(t) {
          var k :| 0 < k <= |rest| && Sum(rest[..k]) >= rto - ticks[0];
          assert Sum(ticks[..k + 1]) >= rto;
        } else {
          forall k | 0 < k <= |ticks| ensures Sum(ticks[..k]) < rto {
            assert Sum(ticks[..(k - 1) + 1]) == ticks[0] + Sum(rest[..k - 1]);
            if k == 1 { assert rest[..0] == []; }
          }
        }
      }
    }
  }

  lemma {:induction false} StaysExpired(t: Timer, ticks: seq<nat>)
    requires Expired(t)
    ensures Expired(TickedAll(t, ticks))
    decreases |ticks|
  {
    if ticks != [] {
      StaysExpired(Ticked(t, ticks[0]), ticks[1..]);
    }
  }

  class RetransmissionTimer {
    var remainingTime: u32
    var isExpired: bool
    var isStarted: bool

    function State(): Timer
      reads this
    {
      Timer(remainingTime, isExpired, isStarted)
    }

    constructor ()
      ensures State() == Stopped()
    {
      remainingTime := 0;
      isExpired := false;
      isStarted := false;
    }

    method Start(rto: u32)
      modifies this
      ensures State() == Started(rto)
    {
      isStarted := true;
      isExpired := false;
      remainingTime := rto;
    }

    method Stop()
      modifies this
      ensures State() == Stopped()
    {
      isStarted := false;
      isExpired := false;
      remainingTime := 0;
    }

    method Tick(ms: nat)
      modifies this
      ensures State() == Ticked(old(State()), ms)
    {
      if !isStarted {
        return;
      }
      if ms >= remainingTime {
        isExpired := true;
      } else {
        remainingTime := remainingTime - ms;
      }
    }
  }
}
