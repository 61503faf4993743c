/** `scheduled_wait`: sleeps in ever shorter steps until the booking time has come.  Times are seconds. */
module ScheduledWait {

  const CHECK_INTERVAL: real := 30.0
  const BURST_WINDOW: real := 10.0
  const BURST_SLEEP: real := 0.5

  /** The booking time as given: empty, unreadable, only white space, a moment, or a moment with an offset from UTC. */
  datatype Booking = Empty | Unreadable | Blank | Aware | At(time: real)

  /** `Raised`: white space passes the emptiness test but parses to no moment at all; a moment with an offset
      parses, but cannot be compared with the clock, which has none. */
  datatype Outcome = Due | StoppedEarly | Raised

  /** The k-th sleep takes `late(k)` longer than asked for. */
  ghost predicate Overshoots(late: nat -> real, most: real) { forall k :: 0.0 <= late(k) <= most }

  /** `stops(k)` is the k-th look at the stop event.  With overshoots of at most one second per sleep, a
      future target is met no earlier than it is and at most half a second plus one overshoot late; the wait
      ends, and only a set stop event makes it end early. */
  method Wait(booking: Booking, start: real, late: nat -> real, ghost most: real, stops: nat -> bool)
    returns (outcome: Outcome, now: real, looks: nat)
    requires Overshoots(late, most) && most <= 1.0
    ensures booking.Empty? || booking.Unreadable? ==> outcome == Due && now == start && looks == 0
    ensures outcome.Raised? <==> booking.Blank? || (booking.Aware? && !stops(0))
    ensures booking.Aware? && stops(0) ==> outcome.StoppedEarly? && now == start
    ensures booking.At? && outcome.Due? ==>
              now >= booking.time && now <= (if start >= booking.time then start else booking.time + 0.5 + most)
    ensures booking.At? && outcome.StoppedEarly? ==> looks > 0 && stops(looks - 1)
    ensures booking.At? && outcome.Due? ==> forall k: nat :: k < looks ==> !stops(k)
  {
    now, looks := start, 0;
    if booking.Empty? || booking.Unreadable? { return Due, now, looks; }
    if booking.Blank? { return Raised, now, looks; }
    if booking.Aware? {
      looks := 1;
      return if stops(0) then StoppedEarly else Raised, now, looks;
    }
    assert 0.0 <= late(0) <= most;
    var target := booking.time;
    var sleeps := 0;
    while true
      invariant start <= now && (start >= target ==> now == start)
      invariant now == start || now <= target + BURST_SLEEP + most
      invariant forall k: nat :: k < looks ==> !stops(k)
      decreases 2.0 * (target - now)
    {
      looks := looks + 1;
      if stops(looks - 1) { return StoppedEarly, now, looks; }
      if now >= target { return Due, now, looks; }
      var remaining := target - now;
      if remaining <= BURST_WINDOW {
        now := now + BURST_SLEEP + late(sleeps);
        sleeps := sleeps + 1;
      } else {
        var gap := if CHECK_INTERVAL < remaining / 2.0 then CHECK_INTERVAL else remaining / 2.0;
        assert 2.0 * gap.Floor as real <= remaining;
        var stopped;
        stopped, now, looks, sleeps := Nap(gap.Floor, now, late, most, stops, looks, sleeps);
        if stopped { return StoppedEarly, now, looks; }
      }
    }
  }

  /** `seconds` sleeps of one second, each behind a look at the stop event. */
  method Nap(seconds: nat, start: real, late: nat -> real, ghost most: real, stops: nat -> bool, looked: nat, slept: nat)
    returns (stopped: bool, now: real, looks: nat, sleeps: nat)
    requires Overshoots(late, most) && most <= 1.0
    ensures looked <= looks
    ensures if stopped then looks > looked && stops(looks - 1)
            else looks == looked + seconds && forall k: nat :: looked <= k < looks ==> !stops(k)
    ensures !stopped ==> start + seconds as real <= now <= start + 2.0 * seconds as real
    ensures stopped ==> start <= now
  {
    stopped, now, looks, sleeps := false, start, looked, slept;
    for i := 0 to seconds
      invariant looks == looked + i && forall k: nat :: looked <= k < looks ==> !stops(k)
      invariant start + i as real <= now <= start + 2.0 * i as real
    {
      looks := looks + 1;
      if stops(looks - 1) {
        stopped := true;
        return;
      }
      now := now + 1.0 + late(sleeps);
      sleeps := sleeps + 1;
    }
  }
}
