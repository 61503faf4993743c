/** The login endpoint's two brakes: at most five attempts per address in 300 seconds, and a global lockout
    of 900 seconds from the thirtieth failed credential check on. */
module LoginLimiter {

  const RATE_LIMIT: nat := 5
  const RATE_WINDOW: real := 300.0
  const LOCKOUT_THRESHOLD: nat := 30
  const LOCKOUT_DURATION: real := 900.0

  /** One login request: the wall clock read by the rate limiter, the monotonic clock when the request comes
      in and again when a failed check is booked, and whether the credentials are right. */
  datatype Request = Request(ip: string, wall: real, arrived: real, booked: real, correct: bool)

  datatype Response = Locked | Limited | Granted | Rejected

  datatype State = State(attempts: map<string, seq<real>>, failures: nat, lockedUntil: real)

  const FRESH := State(map[], 0, 0.0)

  function AttemptsOf(s: State, ip: string): seq<real> { if ip in s.attempts then s.attempts[ip] else [] }

  function Recent(times: seq<real>, now: real): seq<real> {
    if times == [] then []
    else (if now - times[0] < RATE_WINDOW then [times[0]] else []) + Recent(times[1..], now)
  }

  function Respond(s: State, r: Request): Response {
    if r.arrived < s.lockedUntil then Locked
    else if |Recent(AttemptsOf(s, r.ip), r.wall)| >= RATE_LIMIT then Limited
    else if r.correct then Granted
    else Rejected
  }

  function Next(s: State, r: Request): State {
    var recent := Recent(AttemptsOf(s, r.ip), r.wall);
    match Respond(s, r)
    case Locked => s
    case Limited => s.(attempts := s.attempts[r.ip := recent])
    case Granted => s.(attempts := s.attempts[r.ip := recent + [r.wall]], failures := 0)
    case Rejected =>
      State(s.attempts[r.ip := recent + [r.wall]], s.failures + 1,
            if s.failures + 1 >= LOCKOUT_THRESHOLD then r.booked + LOCKOUT_DURATION else s.lockedUntil)
  }

  function Replay(rs: seq<Request>): State {
    if rs == [] then FRESH else Next(Replay(rs[..|rs| - 1]), rs[|rs| - 1])
  }

  /** The response to request number `i` of a history. */
  function ResponseAt(rs: seq<Request>, i: nat): Response
    requires i < |rs|
  {
    Respond(Replay(rs[..i]), rs[i])
  }

  predicate Accepted(a: Response) { a.Granted? || a.Rejected? }

  /** The times of the attempts from `ip` that got as far as the credential check. */
  function AcceptedTimes(rs: seq<Request>, ip: string): seq<real> {
    if rs == [] then []
    else
      var n := |rs| - 1;
      AcceptedTimes(rs[..n], ip) + if rs[n].ip == ip && Accepted(ResponseAt(rs, n)) then [rs[n].wall] else []
  }

  predicate WallClock(rs: seq<Request>) { forall i, j :: 0 <= i < j < |rs| ==> rs[i].wall <= rs[j].wall }

  predicate MonotonicClock(rs: seq<Request>) {
    && (forall i :: 0 <= i < |rs| ==> rs[i].arrived <= rs[i].booked)
    && (forall i, j :: 0 <= i < j < |rs| ==> rs[i].booked <= rs[j].arrived)
  }

  // ---------------------------------------------------------------------------
  // The rate limit.
  // ---------------------------------------------------------------------------

  ghost predicate UpTo(times: seq<real>, now: real) {
    && (forall i, j :: 0 <= i < j < |times| ==> times[i] <= times[j])
    && (forall i :: 0 <= i < |times| ==> times[i] <= now)
  }

  lemma {:induction false} AllRecentKept(times: seq<real>, now: real)
    requires forall i :: 0 <= i < |times| ==> now - times[i] < RATE_WINDOW
    ensures Recent(times, now) == times
  {
    if times == [] {
    } else {
      AllRecentKept(times[1..], now);
    }
  }

  lemma UpToTail(times: seq<real>, now: real)
    requires UpTo(times, now) && times != []
    ensures UpTo(times[1..], now)
  {
  }

  /** Of an ordered list, the filter drops a prefix of expired times. */
  lemma {:induction false} RecentIsSuffix(times: seq<real>, now: real) returns (k: nat)
    requires UpTo(times, now)
    ensures k <= |times| && Recent(times, now) == times[k..]
    ensures k > 0 ==> now - times[k - 1] >= RATE_WINDOW
    ensures k < |times| ==> now - times[k] < RATE_WINDOW
  {
    k := 0;
    if times != [] {
      if now - times[0] < RATE_WINDOW {
        AllRecentKept(times, now);
      } else {
        UpToTail(times, now);
        var rest := times[1..];
        var j := RecentIsSuffix(rest, now);
        assert rest[j..] == times[j + 1..];
        k := j + 1;
      }
    }
  }

  /** What the stored list is, compared with all accepted attempts: their tail, the rest having expired. */
  ghost predicate IsTail(stored: seq<real>, accepted: seq<real>, now: real) {
    && UpTo(accepted, now)
    && |stored| <= |accepted| && stored == accepted[|accepted| - |stored|..]
    && forall i :: 0 <= i < |accepted| - |stored| ==> now - accepted[i] >= RATE_WINDOW
  }

  lemma SuffixUpTo(times: seq<real>, k: nat, now: real)
    requires UpTo(times, now) && k <= |times|
    ensures UpTo(times[k..], now)
  {
  }

  lemma SplitByAge(times: seq<real>, now: real) returns (k: nat)
    requires UpTo(times, now)
    ensures k <= |times| && Recent(times, now) == times[k..]
    ensures forall i :: 0 <= i < k ==> now - times[i] >= RATE_WINDOW
    ensures forall i :: k <= i < |times| ==> now - times[i] < RATE_WINDOW
  {
    k := RecentIsSuffix(times, now);
    forall i | 0 <= i < k
      ensures now - times[i] >= RATE_WINDOW
    {
      assert times[i] <= times[k - 1];
    }
    forall i | k <= i < |times|
      ensures now - times[i] < RATE_WINDOW
    {
      assert times[k] <= times[i];
    }
  }

  lemma TailStep(stored: seq<real>, accepted: seq<real>, now: real) returns (recent: seq<real>)
    requires IsTail(stored, accepted, now)
    ensures recent == Recent(stored, now) && IsTail(recent, accepted, now)
    ensures forall i :: 0 <= i < |recent| ==> now - recent[i] < RATE_WINDOW
  {
    var d := |accepted| - |stored|;
    SuffixUpTo(accepted, d, now);
    var k := SplitByAge(stored, now);
    recent := stored[k..];
    assert recent == accepted[d + k..];
    forall i | d <= i < d + k
      ensures now - accepted[i] >= RATE_WINDOW
    {
      assert stored[i - d] == accepted[i];
    }
  }

  function Taken(s: State, r: Request, ip: string): seq<real> {
    if r.ip == ip && Accepted(Respond(s, r)) then [r.wall] else []
  }

  lemma StoredStep(s: State, r: Request, ip: string, accepted: seq<real>)
    requires IsTail(AttemptsOf(s, ip), accepted, r.wall)
    ensures IsTail(AttemptsOf(Next(s, r), ip), accepted + Taken(s, r, ip), r.wall)
  {
    if r.ip == ip && !Respond(s, r).Locked? {
      var recent := TailStep(AttemptsOf(s, ip), accepted, r.wall);
      if Accepted(Respond(s, r)) {
        AppendTail(recent, accepted, r.wall);
      } else {
        assert accepted + [] == accepted;
      }
    } else {
      assert accepted + [] == accepted;
    }
  }

  lemma {:induction false} StoredIsTail(rs: seq<Request>, ip: string, now: real)
    requires WallClock(rs) && forall i :: 0 <= i < |rs| ==> rs[i].wall <= now
    ensures IsTail(AttemptsOf(Replay(rs), ip), AcceptedTimes(rs, ip), now)
  {
    if rs == [] {
    } else {
      var n := |rs| - 1;
      StoredIsTail(rs[..n], ip, rs[n].wall);
      StoredStep(Replay(rs[..n]), rs[n], ip, AcceptedTimes(rs[..n], ip));
      Later(AttemptsOf(Replay(rs), ip), AcceptedTimes(rs, ip), rs[n].wall, now);
    }
  }

  lemma AppendTail(stored: seq<real>, accepted: seq<real>, now: real)
    requires IsTail(stored, accepted, now)
    ensures IsTail(stored + [now], accepted + [now], now)
  {
  }

  lemma Later(stored: seq<real>, accepted: seq<real>, before: real, now: real)
    requires IsTail(stored, accepted, before) && before <= now
    ensures IsTail(stored, accepted, now)
  {
  }

  /** A request that is not locked out gets past the rate limiter if and only if fewer than five earlier
      attempts from its address that did so lie less than 300 seconds back. */
  lemma AcceptedIff(rs: seq<Request>, r: Request)
    requires WallClock(rs + [r]) && r.arrived >= Replay(rs).lockedUntil
    ensures var a := AcceptedTimes(rs, r.ip);
            Accepted(Respond(Replay(rs), r)) <==> |a| < RATE_LIMIT || r.wall - a[|a| - RATE_LIMIT] >= RATE_WINDOW
  {
    var s, a := Replay(rs), AcceptedTimes(rs, r.ip);
    EarlierWall(rs, r);
    StoredIsTail(rs, r.ip, r.wall);
    var recent := TailStep(AttemptsOf(s, r.ip), a, r.wall);
    if |recent| >= RATE_LIMIT {
      assert recent[|recent| - RATE_LIMIT] == a[|a| - RATE_LIMIT];
    }
  }

  lemma EarlierWall(rs: seq<Request>, r: Request)
    requires WallClock(rs + [r])
    ensures WallClock(rs) && forall i :: 0 <= i < |rs| ==> rs[i].wall <= r.wall
  {
    var all := rs + [r];
    forall i, j | 0 <= i < j < |rs|
      ensures rs[i].wall <= rs[j].wall
    {
      assert all[i].wall <= all[j].wall;
    }
    forall i | 0 <= i < |rs|
      ensures rs[i].wall <= r.wall
    {
      assert all[i].wall <= all[|rs|].wall;
    }
  }

  /** The sixth attempt after any is at least one window later. */
  ghost predicate Spaced(a: seq<real>) {
    forall i, j :: 0 <= i && j == i + RATE_LIMIT && j < |a| ==> a[j] - a[i] >= RATE_WINDOW
  }

  lemma SpacedAppend(a: seq<real>, t: real)
    requires Spaced(a) && (|a| < RATE_LIMIT || t - a[|a| - RATE_LIMIT] >= RATE_WINDOW)
    ensures Spaced(a + [t])
  {
  }

  /** On every history with a nondecreasing clock, a window shorter than 300 seconds holds at most five
      accepted attempts of one address. */
  lemma {:induction false} AtMostFivePerWindow(rs: seq<Request>, ip: string)
    requires WallClock(rs)
    ensures Spaced(AcceptedTimes(rs, ip))
  {
    if rs == [] {
    } else {
      var n := |rs| - 1;
      assert rs == rs[..n] + [rs[n]];
      AtMostFivePerWindow(rs[..n], ip);
      if rs[n].ip == ip && Accepted(ResponseAt(rs, n)) {
        AcceptedIff(rs[..n], rs[n]);
        SpacedAppend(AcceptedTimes(rs[..n], ip), rs[n].wall);
      }
    }
  }

  // ---------------------------------------------------------------------------
  // The lockout.
  // ---------------------------------------------------------------------------

  /** Rejections among `rs[lo..hi]`. */
  function Rejections(rs: seq<Request>, lo: nat, hi: nat): nat
    requires lo <= hi <= |rs|
    decreases hi
  {
    if lo == hi then 0 else Rejections(rs, lo, hi - 1) + if ResponseAt(rs, hi - 1).Rejected? then 1 else 0
  }

  ghost predicate NoGrant(rs: seq<Request>, lo: nat, hi: nat)
    requires hi <= |rs|
  {
    forall k :: lo <= k < hi ==> !ResponseAt(rs, k).Granted?
  }

  lemma {:induction false} FailuresCount(rs: seq<Request>, lo: nat, hi: nat)
    requires lo <= hi <= |rs| && NoGrant(rs, lo, hi)
    ensures Replay(rs[..hi]).failures == Replay(rs[..lo]).failures + Rejections(rs, lo, hi)
    decreases hi
  {
    if lo == hi {
    } else {
      FailuresCount(rs, lo, hi - 1);
      assert rs[..hi][..hi - 1] == rs[..hi - 1];
    }
  }

  /** Between two failed checks without a success the lock set by the first is never shortened. */
  lemma {:induction false} LockHolds(rs: seq<Request>, i: nat, j: nat)
    requires i < j <= |rs| && MonotonicClock(rs) && NoGrant(rs, i + 1, j)
    requires ResponseAt(rs, i).Rejected? && Replay(rs[..i]).failures + 1 >= LOCKOUT_THRESHOLD
    ensures Replay(rs[..j]).failures >= LOCKOUT_THRESHOLD
    ensures Replay(rs[..j]).lockedUntil >= rs[i].booked + LOCKOUT_DURATION
    decreases j
  {
    assert rs[..j][..j - 1] == rs[..j - 1];
    assert Replay(rs[..j]) == Next(Replay(rs[..j - 1]), rs[j - 1]);
    if j > i + 1 {
      LockHolds(rs, i, j - 1);
      assert !ResponseAt(rs, j - 1).Granted?;
      assert rs[i].booked <= rs[j - 1].arrived <= rs[j - 1].booked;
    }
  }

  /** Once 30 failures have accumulated since the last success, any two failed credential checks with no
      success in between are at least 900 seconds apart, whatever the addresses. */
  lemma LockoutSpacing(rs: seq<Request>, lo: nat, i: nat, j: nat)
    requires lo <= i < j < |rs| && MonotonicClock(rs) && NoGrant(rs, lo, j)
    requires ResponseAt(rs, i).Rejected? && ResponseAt(rs, j).Rejected?
    requires Rejections(rs, lo, i + 1) >= LOCKOUT_THRESHOLD
    ensures rs[j].arrived - rs[i].booked >= LOCKOUT_DURATION
  {
    FailuresCount(rs, lo, i);
    LockHolds(rs, i, j);
  }

  /** n lockouts one after the other. */
  ghost function Penalty(n: nat): real {
    if n == 0 then 0.0 else Penalty(n - 1) + LOCKOUT_DURATION
  }

  /** Positions of failed checks, in order, the first of them at least the thirtieth since `start`. */
  ghost predicate Guesses(rs: seq<Request>, start: nat, ps: seq<nat>) {
    && ps != [] && (forall k :: 0 <= k < |ps| ==> start <= ps[k] < |rs| && ResponseAt(rs, ps[k]).Rejected?)
    && (forall k, l :: 0 <= k < l < |ps| ==> ps[k] < ps[l])
    && Rejections(rs, start, ps[0] + 1) >= LOCKOUT_THRESHOLD
    && NoGrant(rs, start, ps[|ps| - 1])
  }

  lemma {:induction false} RejectionsGrow(rs: seq<Request>, start: nat, lo: nat, hi: nat)
    requires start <= lo <= hi <= |rs|
    ensures Rejections(rs, start, lo) <= Rejections(rs, start, hi)
    decreases hi
  {
    if lo == hi {
    } else {
      RejectionsGrow(rs, start, lo, hi - 1);
    }
  }

  lemma LastTwoGuesses(rs: seq<Request>, start: nat, ps: seq<nat>)
    requires MonotonicClock(rs) && Guesses(rs, start, ps) && |ps| > 1
    ensures rs[ps[|ps| - 1]].arrived - rs[ps[|ps| - 2]].arrived >= LOCKOUT_DURATION
  {
    var i, j := ps[|ps| - 2], ps[|ps| - 1];
    RejectionsGrow(rs, start, ps[0] + 1, i + 1);
    LockoutSpacing(rs, start, i, j);
    assert rs[i].arrived <= rs[i].booked;
  }

  lemma EarlierGuesses(rs: seq<Request>, start: nat, ps: seq<nat>)
    requires Guesses(rs, start, ps) && |ps| > 1
    ensures Guesses(rs, start, ps[..|ps| - 1])
  {
  }

  /** So guessing is slow: n + 1 failed checks from the thirtieth on, without a success, take at least n
      lockouts. */
  lemma {:induction false} GuessingRate(rs: seq<Request>, start: nat, ps: seq<nat>)
    requires MonotonicClock(rs) && Guesses(rs, start, ps)
    ensures rs[ps[|ps| - 1]].arrived - rs[ps[0]].arrived >= Penalty(|ps| - 1)
  {
    if |ps| == 1 {
    } else {
      LastTwoGuesses(rs, start, ps);
      EarlierGuesses(rs, start, ps);
      GuessingRate(rs, start, ps[..|ps| - 1]);
    }
  }

  // ---------------------------------------------------------------------------
  // The endpoint judged by its history alone.
  // ---------------------------------------------------------------------------

  /** What a request deserves after the requests `rs`: by looking back over all of them, without any state. */
  function Judge(rs: seq<Request>, r: Request): Response
    decreases |rs|, 2
  {
    if LockedOut(rs, r.arrived) then Locked
    else if RecentTries(rs, r.ip, r.wall) >= 5 then Limited
    else if r.correct then Granted
    else Rejected
  }

  /** A failed check that was at least the thirtieth since the last success lies less than 900 seconds back. */
  predicate LockedOut(rs: seq<Request>, arrived: real)
    decreases |rs|, 1
  {
    exists i :: 0 <= i < |rs| && LocksAt(rs, i) && arrived < rs[i].booked + 900.0
  }

  predicate LocksAt(rs: seq<Request>, i: nat)
    requires i < |rs|
    decreases |rs|, 0
  {
    Judge(rs[..i], rs[i]).Rejected? && FailedSinceGrant(rs[..i]) + 1 >= 30
  }

  /** Failed checks since the last success. */
  function FailedSinceGrant(rs: seq<Request>): nat
    decreases |rs|, 0
  {
    if rs == [] then 0
    else
      var n := |rs| - 1;
      match Judge(rs[..n], rs[n])
      case Granted => 0
      case Rejected => FailedSinceGrant(rs[..n]) + 1
      case _ => FailedSinceGrant(rs[..n])
  }

  /** Attempts from `ip` in the last 300 seconds that got as far as the credential check. */
  function RecentTries(rs: seq<Request>, ip: string, now: real): nat
    decreases |rs|, 0
  {
    if rs == [] then 0
    else
      var n := |rs| - 1;
      RecentTries(rs[..n], ip, now)
      + if rs[n].ip == ip && Accepted(Judge(rs[..n], rs[n])) && now - rs[n].wall < 300.0 then 1 else 0
  }

  function CountRecent(times: seq<real>, now: real): nat {
    if times == [] then 0
    else CountRecent(times[..|times| - 1], now) + if now - times[|times| - 1] < 300.0 then 1 else 0
  }

  lemma {:induction false} RecentLength(times: seq<real>, now: real)
    ensures |Recent(times, now)| == CountRecent(times, now)
  {
    if times == [] {
    } else {
      var n := |times| - 1;
      RecentLength(times[..n], now);
      RecentAppend(times[..n], times[n], now);
      assert times == times[..n] + [times[n]];
    }
  }

  lemma CountRecentAppend(times: seq<real>, t: real, now: real)
    ensures CountRecent(times + [t], now) == CountRecent(times, now) + if now - t < 300.0 then 1 else 0
  {
    assert (times + [t])[..|times|] == times;
  }

  lemma {:induction false} CountExpired(times: seq<real>, now: real)
    requires forall i :: 0 <= i < |times| ==> now - times[i] >= 300.0
    ensures CountRecent(times, now) == 0
  {
    if times == [] {
    } else {
      CountExpired(times[..|times| - 1], now);
    }
  }

  lemma {:induction false} CountConcat(a: seq<real>, b: seq<real>, now: real)
    ensures CountRecent(a + b, now) == CountRecent(a, now) + CountRecent(b, now)
  {
    if b == [] {
      assert a + b == a;
    } else {
      var n := |b| - 1;
      CountConcat(a, b[..n], now);
      assert (a + b)[..|a + b| - 1] == a + b[..n];
    }
  }

  /** The pruned list counts as the whole history does. */
  lemma TailCounts(stored: seq<real>, accepted: seq<real>, now: real)
    requires IsTail(stored, accepted, now)
    ensures CountRecent(stored, now) == CountRecent(accepted, now)
  {
    var d := |accepted| - |stored|;
    CountExpired(accepted[..d], now);
    CountConcat(accepted[..d], stored, now);
    assert accepted == accepted[..d] + stored;
  }

  /** The clocks of a history, and of each of its beginnings. */
  ghost predicate Clocks(rs: seq<Request>) { WallClock(rs) && MonotonicClock(rs) }

  lemma ClocksBefore(rs: seq<Request>, n: nat)
    requires Clocks(rs) && n <= |rs|
    ensures Clocks(rs[..n])
  {
  }

  lemma {:induction false} TriesAreAccepted(rs: seq<Request>, ip: string, now: real)
    requires forall i :: 0 <= i < |rs| ==> ResponseAt(rs, i) == Judge(rs[..i], rs[i])
    ensures RecentTries(rs, ip, now) == CountRecent(AcceptedTimes(rs, ip), now)
  {
    if rs == [] {
    } else {
      var n := |rs| - 1;
      SameResponses(rs, n);
      TriesAreAccepted(rs[..n], ip, now);
      CountRecentAppend(AcceptedTimes(rs[..n], ip), rs[n].wall, now);
      assert AcceptedTimes(rs[..n], ip) + [] == AcceptedTimes(rs[..n], ip);
    }
  }

  lemma SameResponses(rs: seq<Request>, n: nat)
    requires n <= |rs| && forall i :: 0 <= i < |rs| ==> ResponseAt(rs, i) == Judge(rs[..i], rs[i])
    ensures forall i :: 0 <= i < n ==> ResponseAt(rs[..n], i) == Judge(rs[..n][..i], rs[..n][i])
  {
    forall i | 0 <= i < n
      ensures ResponseAt(rs[..n], i) == Judge(rs[..n][..i], rs[..n][i])
    {
      assert rs[..n][..i] == rs[..i];
      assert ResponseAt(rs, i) == Judge(rs[..i], rs[i]);
    }
  }

  lemma {:induction false} FailuresAreSinceGrant(rs: seq<Request>)
    requires forall i :: 0 <= i < |rs| ==> ResponseAt(rs, i) == Judge(rs[..i], rs[i])
    ensures Replay(rs).failures == FailedSinceGrant(rs)
  {
    if rs == [] {
    } else {
      var n := |rs| - 1;
      SameResponses(rs, n);
      FailuresAreSinceGrant(rs[..n]);
      assert ResponseAt(rs, n) == Judge(rs[..n], rs[n]);
    }
  }

  lemma LocksBefore(rs: seq<Request>, n: nat, i: nat)
    requires i < n <= |rs|
    ensures LocksAt(rs[..n], i) <==> LocksAt(rs, i)
  {
    assert rs[..n][..i] == rs[..i];
  }

  lemma LockedOutStep(rs: seq<Request>, arrived: real)
    requires rs != []
    ensures var n := |rs| - 1;
            LockedOut(rs, arrived) <==> LockedOut(rs[..n], arrived) || (LocksAt(rs, n) && arrived < rs[n].booked + 900.0)
  {
    var n := |rs| - 1;
    forall i | 0 <= i < n
      ensures LocksAt(rs[..n], i) <==> LocksAt(rs, i)
    {
      LocksBefore(rs, n, i);
    }
    if i :| 0 <= i < n && LocksAt(rs[..n], i) && arrived < rs[..n][i].booked + 900.0 {
      assert LocksAt(rs, i) && rs[i] == rs[..n][i];
    }
    if i :| 0 <= i < |rs| && LocksAt(rs, i) && arrived < rs[i].booked + 900.0 {
      if i < n {
        assert LocksAt(rs[..n], i) && rs[i] == rs[..n][i];
      }
    }
  }

  /** A lock that is still running was set last: later failed checks would have been locked out, or set a later one. */
  lemma {:induction false} LockIsLast(rs: seq<Request>, arrived: real)
    requires Clocks(rs) && forall i :: 0 <= i < |rs| ==> rs[i].booked <= arrived
    requires forall i :: 0 <= i < |rs| ==> ResponseAt(rs, i) == Judge(rs[..i], rs[i])
    requires arrived >= 0.0
    ensures arrived < Replay(rs).lockedUntil <==> LockedOut(rs, arrived)
  {
    if rs == [] {
    } else {
      var n := |rs| - 1;
      ClocksBefore(rs, n);
      SameResponses(rs, n);
      LockIsLast(rs[..n], arrived);
      LockedOutStep(rs, arrived);
      FailuresAreSinceGrant(rs[..n]);
      assert ResponseAt(rs, n) == Judge(rs[..n], rs[n]);
      if ResponseAt(rs, n).Rejected? {
        NotLockedAgain(rs, arrived);
      }
    }
  }

  lemma NotLockedAgain(rs: seq<Request>, arrived: real)
    requires Clocks(rs) && rs != [] && rs[|rs| - 1].booked <= arrived
    requires Judge(rs[..|rs| - 1], rs[|rs| - 1]).Rejected?
    ensures !LockedOut(rs[..|rs| - 1], arrived)
  {
    var n := |rs| - 1;
    assert !LockedOut(rs[..n], rs[n].arrived);
    assert rs[n].arrived <= rs[n].booked <= arrived;
  }

  /** On every history with nondecreasing clocks the endpoint answers what the history alone deserves: a request is
      locked out exactly while a failed check that was at least the thirtieth since the last success is less than 900
      seconds old, limited exactly if its address has five attempts in the last 300 seconds, and otherwise granted
      exactly if its credentials are right. */
  lemma {:induction false} AnswersAreDeserved(rs: seq<Request>, r: Request)
    requires Clocks(rs + [r]) && forall i :: 0 <= i < |rs + [r]| ==> (rs + [r])[i].arrived >= 0.0
    ensures Respond(Replay(rs), r) == Judge(rs, r)
    decreases |rs|
  {
    var all := rs + [r];
    forall i | 0 <= i < |rs|
      ensures ResponseAt(rs, i) == Judge(rs[..i], rs[i])
    {
      assert rs[..i] + [rs[i]] == all[..i + 1];
      ClocksBefore(all, i + 1);
      assert forall k :: 0 <= k < |all[..i + 1]| ==> all[..i + 1][k] == all[k];
      AnswersAreDeserved(rs[..i], rs[i]);
    }
    EarlierClocks(rs, r);
    LockIsLast(rs, r.arrived);
    TriesAreAccepted(rs, r.ip, r.wall);
    StoredIsTail(rs, r.ip, r.wall);
    TailCounts(AttemptsOf(Replay(rs), r.ip), AcceptedTimes(rs, r.ip), r.wall);
    RecentLength(AttemptsOf(Replay(rs), r.ip), r.wall);
  }

  lemma EarlierClocks(rs: seq<Request>, r: Request)
    requires Clocks(rs + [r]) && forall i :: 0 <= i < |rs + [r]| ==> (rs + [r])[i].arrived >= 0.0
    ensures Clocks(rs) && r.arrived >= 0.0
    ensures forall i :: 0 <= i < |rs| ==> rs[i].booked <= r.arrived && rs[i].wall <= r.wall
  {
    var all := rs + [r];
    assert all[..|rs|] == rs;
    ClocksBefore(all, |rs|);
    forall i | 0 <= i < |rs|
      ensures rs[i].booked <= r.arrived && rs[i].wall <= r.wall
    {
      assert all[i] == rs[i] && all[|rs|] == r;
    }
    assert all[|rs|] == r;
  }

  /** No lock before the thirtieth failed check since the last success. */
  lemma NoLockBeforeThirty(rs: seq<Request>, arrived: real)
    requires forall i :: 0 <= i <= |rs| ==> FailedSinceGrant(rs[..i]) < 30
    ensures !LockedOut(rs, arrived)
  {
    forall i | 0 <= i < |rs|
      ensures !LocksAt(rs, i)
    {
      assert rs[..i + 1][..i] == rs[..i];
      assert FailedSinceGrant(rs[..i + 1]) < 30;
    }
  }

  // ---------------------------------------------------------------------------
  // The endpoint.
  // ---------------------------------------------------------------------------

  lemma {:induction false} RecentAppend(times: seq<real>, t: real, now: real)
    ensures Recent(times + [t], now) == Recent(times, now) + if now - t < RATE_WINDOW then [t] else []
  {
    if times == [] {
      assert times + [t] == [t];
    } else {
      RecentAppend(times[1..], t, now);
      assert (times + [t])[1..] == times[1..] + [t];
    }
  }

  class LoginGate {
    var attempts: map<string, seq<real>>
    var failures: nat
    var lockedUntil: real

    function View(): State
      reads this
    {
      State(attempts, failures, lockedUntil)
    }

    constructor ()
      ensures View() == FRESH
    {
      attempts, failures, lockedUntil := map[], 0, 0.0;
    }

    method CheckRateLimit(ip: string, now: real) returns (ok: bool)
      modifies this`attempts
      ensures var recent := Recent(AttemptsOf(old(View()), ip), now);
              && ok == (|recent| < RATE_LIMIT)
              && attempts == old(attempts)[ip := if ok then recent + [now] else recent]
    {
      var mine := if ip in attempts then attempts[ip] else [];
      var kept := [];
      for i := 0 to |mine|
        invariant kept == Recent(mine[..i], now) && attempts == old(attempts)
      {
        RecentAppend(mine[..i], mine[i], now);
        assert mine[..i + 1] == mine[..i] + [mine[i]];
        if now - mine[i] < RATE_WINDOW {
          kept := kept + [mine[i]];
        }
      }
      assert mine[..|mine|] == mine;
      attempts := attempts[ip := kept];
      if |kept| >= RATE_LIMIT { return false; }
      attempts := attempts[ip := kept + [now]];
      assert attempts == old(attempts)[ip := kept + [now]];
      return true;
    }

    method Login(r: Request) returns (response: Response)
      modifies this
      ensures response == Respond(old(View()), r)
      ensures View() == Next(old(View()), r)
      ensures response.Granted? ==> r.correct && failures == 0 && lockedUntil == old(lockedUntil)
      ensures response.Rejected? ==>
                && !r.correct && failures == old(failures) + 1
                && lockedUntil == if failures >= 30 then r.booked + 900.0 else old(lockedUntil)
      ensures response.Locked? || response.Limited? ==> failures == old(failures) && lockedUntil == old(lockedUntil)
      ensures response.Locked? <==> r.arrived < old(lockedUntil)
    {
      if r.arrived < lockedUntil { return Locked; }
      var ok := CheckRateLimit(r.ip, r.wall);
      if !ok { return Limited; }
      if r.correct {
        failures := 0;
        return Granted;
      }
      failures := failures + 1;
      if failures >= LOCKOUT_THRESHOLD {
        lockedUntil := r.booked + LOCKOUT_DURATION;
      }
      return Rejected;
    }
  }
}
