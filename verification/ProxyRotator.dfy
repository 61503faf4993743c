/** The proxy pool: failed proxies are blacklisted for 300 seconds, and `get` tests one proxy after the
    other by recursion until one is healthy or none is left.  Times are monotonic clock readings. */
module ProxyRotator {

  const BLACKLIST_DURATION: real := 300.0

  datatype Pool = Pool(proxies: seq<string>, blacklist: map<string, real>, now: real)

  /** What the k-th check of a call meets: the proxy the shuffle puts first (any member of the pool), the
      answer of the health check, how long it takes, and the time until the next round reads the clock. */
  datatype World = World(choice: nat -> string, healthy: nat -> bool, check: nat -> real, lag: nat -> real)

  ghost predicate Clock(w: World) { forall k :: w.check(k) >= 0.0 && w.lag(k) >= 0.0 }

  /** `OutOfDepth` is Python's recursion limit. */
  datatype GetResult = Proxy(proxy: string) | NoProxy | OutOfDepth

  /** A call's result, the pool it leaves, and the proxies it tested, in order. */
  datatype Got = Got(result: GetResult, pool: Pool, tested: seq<string>)

  predicate IsAvailable(s: Pool, p: string) { p !in s.blacklist || s.blacklist[p] < s.now }

  predicate AnyAvailable(s: Pool) { exists p :: p in s.proxies && IsAvailable(s, p) }

  function FirstAvailable(s: Pool, ps: seq<string>): (r: string)
    requires exists p :: p in ps && IsAvailable(s, p)
    ensures r in ps && IsAvailable(s, r)
  {
    if IsAvailable(s, ps[0]) then ps[0] else FirstAvailable(s, ps[1..])
  }

  /** The proxy at the front of the shuffled pool of available ones. */
  function Pick(s: Pool, choice: string): (p: string)
    requires AnyAvailable(s)
    ensures p in s.proxies && IsAvailable(s, p)
  {
    if choice in s.proxies && IsAvailable(s, choice) then choice else FirstAvailable(s, s.proxies)
  }

  function Cleared(s: Pool): Pool { if AnyAvailable(s) then s else s.(blacklist := map[]) }

  function Marked(s: Pool, p: string): Pool { s.(blacklist := s.blacklist[p := s.now + BLACKLIST_DURATION]) }

  /** The pool after check `k` of `p` failed. */
  function AfterFailure(s: Pool, w: World, k: nat, p: string): Pool { Marked(s.(now := s.now + w.check(k)), p) }

  /** Does the call recurse after check `k`, and into which pool? */
  predicate Recurses(s: Pool, w: World, k: nat) {
    var s0 := Cleared(s);
    AnyAvailable(s0) && !w.healthy(k) && AnyAvailable(AfterFailure(s0, w, k, Pick(s0, w.choice(k))))
  }

  function Tested(s: Pool, w: World, k: nat): (p: string)
    requires Recurses(s, w, k)
    ensures p in s.proxies && IsAvailable(Cleared(s), p)
  {
    Pick(Cleared(s), w.choice(k))
  }

  function NextPool(s: Pool, w: World, k: nat): (t: Pool)
    requires Recurses(s, w, k)
    ensures t.proxies == s.proxies && t.now == s.now + w.check(k) + w.lag(k)
    ensures t.blacklist == Cleared(s).blacklist[Tested(s, w, k) := s.now + w.check(k) + BLACKLIST_DURATION]
  {
    var s2 := AfterFailure(Cleared(s), w, k, Tested(s, w, k));
    s2.(now := s2.now + w.lag(k))
  }

  /** The last round of a call. */
  function LastRound(s: Pool, w: World, k: nat): Got
    requires !Recurses(s, w, k)
  {
    var s0 := Cleared(s);
    if !AnyAvailable(s0) then Got(NoProxy, s0, [])
    else
      var p := Pick(s0, w.choice(k));
      if w.healthy(k) then Got(Proxy(p), s0.(now := s0.now + w.check(k)), [p])
      else Got(NoProxy, AfterFailure(s0, w, k, p), [p])
  }

  /** `get` with `depth` stack frames left, about to make check number `k`. */
  function Get(s: Pool, w: World, k: nat, depth: nat): Got
    decreases depth
  {
    if depth == 0 then Got(OutOfDepth, s, [])
    else if !Recurses(s, w, k) then LastRound(s, w, k)
    else
      var rest := Get(NextPool(s, w, k), w, k + 1, depth - 1);
      rest.(tested := [Tested(s, w, k)] + rest.tested)
  }

  // ---------------------------------------------------------------------------
  // What a call returns and leaves.
  // ---------------------------------------------------------------------------

  /** A call tests members of the pool and changes nothing but the blacklist and the clock.  A returned
      proxy is the last one tested; `None` means that every proxy is blacklisted at that moment, or there
      are none. */
  lemma {:induction false} ResultIsRight(s: Pool, w: World, k: nat, depth: nat)
    ensures var g := Get(s, w, k, depth);
            && g.pool.proxies == s.proxies
            && (forall p :: p in g.tested ==> p in s.proxies)
            && (g.result.Proxy? ==> g.tested != [] && g.tested[|g.tested| - 1] == g.result.proxy)
            && (g.result.NoProxy? ==> !AnyAvailable(g.pool))
    decreases depth
  {
    if depth == 0 || !Recurses(s, w, k) {
    } else {
      ResultIsRight(NextPool(s, w, k), w, k + 1, depth - 1);
    }
  }

  lemma OneMoreRound(s: Pool, w: World, k: nat, depth: nat)
    requires depth > 0 && Recurses(s, w, k)
    ensures var rest := Get(NextPool(s, w, k), w, k + 1, depth - 1);
            Get(s, w, k, depth) == rest.(tested := [Tested(s, w, k)] + rest.tested)
  {
  }

  lemma LastRoundIsHealthy(s: Pool, w: World, k: nat)
    requires !Recurses(s, w, k)
    ensures LastWasHealthy(LastRound(s, w, k), w, k)
  {
  }

  /** A returned proxy comes with a check that succeeded, the last one; the checks count from `k`. */
  predicate LastWasHealthy(g: Got, w: World, k: nat) {
    g.result.Proxy? ==> g.tested != [] && w.healthy(k + |g.tested| - 1)
  }

  lemma OneMoreTested(g: Got, p: string, w: World, k: nat)
    requires LastWasHealthy(g, w, k + 1)
    ensures LastWasHealthy(g.(tested := [p] + g.tested), w, k)
  {
  }

  /** What a call returns passed its check, the last one of the call. */
  lemma {:induction false} ReturnedIsHealthy(s: Pool, w: World, k: nat, depth: nat)
    ensures LastWasHealthy(Get(s, w, k, depth), w, k)
    decreases depth
  {
    if depth == 0 {
    } else {
      if Recurses(s, w, k) {
        ReturnedIsHealthy(NextPool(s, w, k), w, k + 1, depth - 1);
        OneMoreRound(s, w, k, depth);
        OneMoreTested(Get(NextPool(s, w, k), w, k + 1, depth - 1), Tested(s, w, k), w, k);
      } else {
        LastRoundIsHealthy(s, w, k);
      }
    }
  }

  lemma {:induction false} OthersFailed(s: Pool, w: World, k: nat, depth: nat, j: nat)
    ensures var g := Get(s, w, k, depth);
            k <= j < k + |g.tested| && !(g.result.Proxy? && j == k + |g.tested| - 1) ==> !w.healthy(j)
    decreases depth
  {
    if depth == 0 || !Recurses(s, w, k) {
    } else {
      OthersFailed(NextPool(s, w, k), w, k + 1, depth - 1, j);
    }
  }

  lemma {:induction false} DepthIsUsedUp(s: Pool, w: World, k: nat, depth: nat)
    ensures Get(s, w, k, depth).result.OutOfDepth? ==> |Get(s, w, k, depth).tested| == depth
    decreases depth
  {
    if depth == 0 || !Recurses(s, w, k) {
    } else {
      DepthIsUsedUp(NextPool(s, w, k), w, k + 1, depth - 1);
    }
  }

  /** Being available lasts: time only brings blacklist entries to their end. */
  lemma NextPoolAvailable(s: Pool, w: World, k: nat)
    requires Clock(w) && Recurses(s, w, k)
    ensures AnyAvailable(NextPool(s, w, k))
  {
  }

  /** The blacklist is cleared by a call only if nothing is available at its start: otherwise, in all the
      rounds of the recursion, entries of untested proxies stay as they are. */
  lemma {:induction false} OnlyTheFirstRoundClears(s: Pool, w: World, k: nat, depth: nat)
    requires Clock(w) && AnyAvailable(s)
    ensures var g := Get(s, w, k, depth);
            && s.blacklist.Keys <= g.pool.blacklist.Keys
            && forall p :: p in s.blacklist && p !in g.tested ==> g.pool.blacklist[p] == s.blacklist[p]
    decreases depth
  {
    if depth == 0 || !Recurses(s, w, k) {
    } else {
      NextPoolAvailable(s, w, k);
      OnlyTheFirstRoundClears(NextPool(s, w, k), w, k + 1, depth - 1);
    }
  }

  /** Every entry of the blacklist still runs, for every member of the pool. */
  predicate Exhausted(s: Pool) { forall p :: p in s.proxies ==> p in s.blacklist && s.blacklist[p] >= s.now }

  lemma ExhaustedIff(s: Pool)
    ensures Exhausted(s) <==> !AnyAvailable(s)
  {
    forall p | p in s.proxies
      ensures IsAvailable(s, p) <==> !(p in s.blacklist && s.blacklist[p] >= s.now)
    {
    }
  }

  /** A call tests nothing exactly when there is nothing to test; then it returns no proxy. */
  lemma TestsSomethingIff(s: Pool, w: World, k: nat, depth: nat)
    requires depth >= 1
    ensures Get(s, w, k, depth).tested == [] <==> s.proxies == []
    ensures s.proxies == [] ==> Get(s, w, k, depth).result.NoProxy?
  {
    if s.proxies != [] {
      assert s.proxies[0] in s.proxies;
    }
  }

  /** If the first check succeeds the call returns the proxy it tested, and the blacklist stays as it is, or is empty
      if the pool was exhausted. */
  lemma FirstCheckSucceeds(s: Pool, w: World, k: nat, depth: nat)
    requires depth >= 1 && s.proxies != [] && w.healthy(k)
    ensures var g := Get(s, w, k, depth);
            && g.result.Proxy? && g.tested == [g.result.proxy] && g.result.proxy in s.proxies
            && g.pool.blacklist == if Exhausted(s) then map[] else s.blacklist
  {
    ExhaustedIff(s);
    assert s.proxies[0] in s.proxies;
  }

  /** If the first check fails, the next round starts with the tested proxy blacklisted for 300 seconds from then, and
      the others as they were; if the pool was exhausted, all of them are available again. */
  lemma FirstCheckFails(s: Pool, w: World, k: nat)
    requires s.proxies != [] && !w.healthy(k)
    ensures var g := Get(s, w, k, 1);
            && |g.tested| == 1 && g.tested[0] in s.proxies
            && g.pool.blacklist
               == (if Exhausted(s) then map[] else s.blacklist)[g.tested[0] := s.now + w.check(k) + 300.0]
    ensures Exhausted(s) ==> forall p :: p in s.proxies && p != Get(s, w, k, 1).tested[0] ==>
                                           IsAvailable(Get(s, w, k, 1).pool, p)
  {
    ExhaustedIff(s);
    assert s.proxies[0] in s.proxies;
  }

  /** The call goes on after a failed first check exactly when another member can be tested, and the rest of it is a
      call from there. */
  lemma GoesOnIff(s: Pool, w: World, k: nat, depth: nat)
    requires Clock(w) && depth >= 1 && s.proxies != [] && !w.healthy(k)
    ensures var one, g := Get(s, w, k, 1), Get(s, w, k, depth);
            && one.tested <= g.tested
            && (one.result.OutOfDepth? ==> g.result == Get(one.pool, w, k + 1, depth - 1).result
                                           && g.pool == Get(one.pool, w, k + 1, depth - 1).pool)
            && (one.result.NoProxy? ==> g == one && Exhausted(g.pool))
            && !one.result.Proxy?
  {
    if Recurses(s, w, k) {
      OneMoreRound(s, w, k, depth);
      OneMoreRound(s, w, k, 1);
      assert Get(NextPool(s, w, k), w, k + 1, 0) == Got(OutOfDepth, NextPool(s, w, k), []);
    } else {
      ResultIsRight(s, w, k, 1);
      ExhaustedIff(Get(s, w, k, 1).pool);
    }
  }

  // ---------------------------------------------------------------------------
  // Termination.
  // ---------------------------------------------------------------------------

  function Members(ps: seq<string>): set<string> { set p | p in ps }

  ghost predicate Distinct(ps: seq<string>) { forall i, j :: 0 <= i < j < |ps| ==> ps[i] != ps[j] }

  /** The proxies in `hot` stay blacklisted until `horizon`. */
  ghost predicate Hot(s: Pool, hot: set<string>, horizon: real) {
    forall p :: p in hot ==> p in s.blacklist && s.blacklist[p] >= horizon
  }

  lemma {:induction false} TimePasses(s: Pool, w: World, k: nat, depth: nat)
    requires Clock(w)
    ensures Get(s, w, k, depth).pool.now >= s.now
    ensures Get(s, w, k, depth).tested != [] ==> Get(s, w, k, depth).pool.now >= s.now + w.check(k)
    decreases depth
  {
    if depth == 0 || !Recurses(s, w, k) {
    } else {
      TimePasses(NextPool(s, w, k), w, k + 1, depth - 1);
    }
  }

  /** While everything marked stays marked, no proxy is tested twice. */
  lemma {:induction false} NoRepeats(s: Pool, w: World, k: nat, depth: nat, hot: set<string>, horizon: real)
    requires Clock(w) && Hot(s, hot, horizon) && (hot == {} || AnyAvailable(s))
    requires Get(s, w, k, depth).pool.now <= horizon <= s.now + w.check(k) + BLACKLIST_DURATION
    ensures Distinct(Get(s, w, k, depth).tested)
    ensures forall p :: p in Get(s, w, k, depth).tested ==> p !in hot
    decreases depth
  {
    TimePasses(s, w, k, depth);
    if depth == 0 || !Recurses(s, w, k) {
    } else {
      NextPoolAvailable(s, w, k);
      NoRepeats(NextPool(s, w, k), w, k + 1, depth - 1, hot + {Tested(s, w, k)}, horizon);
    }
  }

  /** If the recursion is still going when the stack ends, something is left to test ... */
  lemma {:induction false} DepthEndsWithProxiesLeft(s: Pool, w: World, k: nat, depth: nat)
    requires Clock(w) && Get(s, w, k, depth).result.OutOfDepth? && (AnyAvailable(s) || depth > 0)
    ensures AnyAvailable(Get(s, w, k, depth).pool)
    decreases depth
  {
    if depth == 0 {
    } else {
      NextPoolAvailable(s, w, k);
      DepthEndsWithProxiesLeft(NextPool(s, w, k), w, k + 1, depth - 1);
    }
  }

  /** ... although everything that was tested is still blacklisted. */
  lemma {:induction false} TestedStayHot(s: Pool, w: World, k: nat, depth: nat, p: string, horizon: real)
    requires Clock(w) && horizon <= s.now + w.check(k) + BLACKLIST_DURATION
    requires Get(s, w, k, depth).result.OutOfDepth?
    requires p in Get(s, w, k, depth).tested || (AnyAvailable(s) && p in s.blacklist && s.blacklist[p] >= horizon)
    ensures var t := Get(s, w, k, depth).pool; p in t.blacklist && t.blacklist[p] >= horizon
    decreases depth
  {
    if depth == 0 {
    } else {
      NextPoolAvailable(s, w, k);
      TestedStayHot(NextPool(s, w, k), w, k + 1, depth - 1, p, horizon);
    }
  }

  lemma {:induction false} DistinctIsShort(ps: seq<string>, all: set<string>)
    requires Distinct(ps) && forall p :: p in ps ==> p in all
    ensures |ps| <= |all|
    ensures |ps| == |all| ==> forall p :: p in all ==> p in ps
  {
    if ps == [] {
    } else {
      var n := |ps| - 1;
      assert forall p :: p in ps[..n] ==> p in ps && p != ps[n];
      assert ps[n] in ps;
      DistinctIsShort(ps[..n], all - {ps[n]});
    }
  }

  /** `get` comes back whenever its checks are over within 300 seconds of its first blacklisting: it tests
      no proxy twice, so at most n of the n different proxies, and n stack frames are enough. */
  lemma TimelyGetReturns(s: Pool, w: World, depth: nat)
    requires Clock(w)
    requires Get(s, w, 0, depth).pool.now <= s.now + w.check(0) + BLACKLIST_DURATION
    ensures var g, all := Get(s, w, 0, depth), Members(s.proxies);
            && Distinct(g.tested) && |g.tested| <= |all|
            && (depth >= 1 && depth >= |all| ==> !g.result.OutOfDepth?)
  {
    var g, all := Get(s, w, 0, depth), Members(s.proxies);
    var horizon := s.now + w.check(0) + BLACKLIST_DURATION;
    NoRepeats(s, w, 0, depth, {}, horizon);
    ResultIsRight(s, w, 0, depth);
    DepthIsUsedUp(s, w, 0, depth);
    DistinctIsShort(g.tested, all);
    if g.result.OutOfDepth? {
      forall p | p in g.tested
        ensures !IsAvailable(g.pool, p)
      {
        TestedStayHot(s, w, 0, depth, p, horizon);
      }
      if depth == 0 {
    } else {
        DepthEndsWithProxiesLeft(s, w, 0, depth);
      }
    }
  }

  // When every check fails and takes the same time, exactly when does `get` come back?

  /** Every check fails after `d` seconds; `choice` is the shuffle. */
  function Failing(choice: nat -> string, d: real): World {
    World(choice, _ => false, _ => d, _ => 0.0)
  }

  ghost predicate AlwaysReturns(s: Pool, d: real) {
    forall choice: nat -> string :: ReturnsFor(s, choice, d)
  }

  ghost predicate ReturnsFor(s: Pool, choice: nat -> string, d: real) {
    exists depth: nat :: Returns(s, choice, d, depth)
  }

  ghost predicate Returns(s: Pool, choice: nat -> string, d: real, depth: nat) {
    !Get(s, Failing(choice, d), 0, depth).result.OutOfDepth?
  }

  /** k times d. */
  ghost function Ticks(k: int, d: real): real { k as real * d }

  lemma TicksAdd(k: int, n: int, d: real)
    ensures Ticks(k + n, d) == Ticks(k, d) + Ticks(n, d) && Ticks(1, d) == d && Ticks(0, d) == 0.0
    ensures d >= 0.0 && n >= 0 ==> Ticks(n, d) >= 0.0
  {
  }

  lemma {:induction false} FailingTime(s: Pool, choice: nat -> string, d: real, k: nat, depth: nat)
    ensures var g := Get(s, Failing(choice, d), k, depth);
            g.pool.now == s.now + Ticks(|g.tested|, d) && |g.tested| <= depth
    decreases depth
  {
    var w := Failing(choice, d);
    TicksAdd(0, 1, d);
    if depth == 0 || !Recurses(s, w, k) {
    } else {
      FailingTime(NextPool(s, w, k), choice, d, k + 1, depth - 1);
      TicksAdd(|Get(NextPool(s, w, k), w, k + 1, depth - 1).tested|, 1, d);
    }
  }

  lemma FewProxiesReturn(s: Pool, choice: nat -> string, d: real)
    requires d > 0.0 && Ticks(|Members(s.proxies)| - 1, d) <= BLACKLIST_DURATION
    ensures Returns(s, choice, d, |Members(s.proxies)| + 1)
  {
    var w, n := Failing(choice, d), |Members(s.proxies)|;
    if s.proxies == [] {
      assert !AnyAvailable(Cleared(s));
    } else {
      NoMoreThanMembers(s, choice, d);
    }
  }

  /** The (n + 1)-st check would come too late to be made. */
  lemma NoMoreThanMembers(s: Pool, choice: nat -> string, d: real)
    requires d > 0.0 && s.proxies != [] && Ticks(|Members(s.proxies)| - 1, d) <= BLACKLIST_DURATION
    ensures Returns(s, choice, d, |Members(s.proxies)| + 1)
  {
    var w, n := Failing(choice, d), |Members(s.proxies)|;
    assert s.proxies[0] in Members(s.proxies);
    FailingTime(s, choice, d, 0, n);
    var m := |Get(s, w, 0, n).tested|;
    TicksAdd(m - 1, 1, d);
    TicksAdd(m - 1, n - m, d);
    TimelyGetReturns(s, w, n);
    DeeperIsSame(s, w, 0, n, n + 1);
  }

  /** More stack changes nothing for a call that comes back. */
  lemma {:induction false} DeeperIsSame(s: Pool, w: World, k: nat, depth: nat, more: nat)
    requires depth <= more && !Get(s, w, k, depth).result.OutOfDepth?
    ensures Get(s, w, k, more) == Get(s, w, k, depth)
    decreases depth
  {
    if depth == 0 || !Recurses(s, w, k) {
    } else {
      DeeperIsSame(NextPool(s, w, k), w, k + 1, depth - 1, more - 1);
    }
  }

  // The shuffle that keeps `get` going: always the proxy that was tested longest ago.

  function Slot(k: nat, n: nat): (i: nat)
    requires n > 0
    ensures i < n && i <= k && (k - i == 0 || k - i >= n)
  {
    if k == 0 then 0
    else if Slot(k - 1, n) + 1 == n then 0 else Slot(k - 1, n) + 1
  }

  /** The number of the last check of slot `i` before check `k`; negative if there was none. */
  function LastCheck(k: nat, n: nat, i: nat): int
    requires i < n
  {
    if i < Slot(k, n) then k - Slot(k, n) + i else k - Slot(k, n) - n + i
  }

  /** `ps` lists the members of the pool once each. */
  ghost predicate InTurn(s: Pool, ps: seq<string>, start: real, d: real, k: nat) {
    && ps != [] && Distinct(ps) && Members(ps) == Members(s.proxies) && s.now == start + Ticks(k, d)
    && forall i: nat :: i < |ps| ==> SlotState(s, ps, start, d, k, i)
  }

  ghost predicate SlotState(s: Pool, ps: seq<string>, start: real, d: real, k: nat, i: nat)
    requires i < |ps|
  {
    var m := LastCheck(k, |ps|, i);
    if m < 0 then ps[i] !in s.blacklist
    else ps[i] in s.blacklist && s.blacklist[ps[i]] == start + Ticks(m + 1, d) + BLACKLIST_DURATION
  }

  lemma NextIsAvailable(s: Pool, ps: seq<string>, start: real, d: real, k: nat)
    requires InTurn(s, ps, start, d, k) && d > 0.0 && Ticks(|ps| - 1, d) > BLACKLIST_DURATION
    ensures ps[Slot(k, |ps|)] in s.proxies && IsAvailable(s, ps[Slot(k, |ps|)]) && AnyAvailable(s)
  {
    var n, i := |ps|, Slot(k, |ps|);
    assert SlotState(s, ps, start, d, k, i);
    TicksAdd(k - n + 1, n - 1, d);
    assert ps[i] in Members(s.proxies);
  }

  lemma TurnGoesOn(s: Pool, ps: seq<string>, start: real, d: real, k: nat)
    requires InTurn(s, ps, start, d, k) && |ps| >= 2
    ensures InTurn(Marked(s.(now := s.now + d), ps[Slot(k, |ps|)]), ps, start, d, k + 1)
  {
    var n, c := |ps|, Slot(k, |ps|);
    var t := Marked(s.(now := s.now + d), ps[c]);
    var next := k + 1;
    TicksAdd(k, 1, d);
    forall i: nat | i < |ps|
      ensures SlotState(t, ps, start, d, next, i)
    {
      assert SlotState(s, ps, start, d, k, i);
      if i != c {
        assert ps[i] != ps[c];
      }
    }
  }

  function RoundRobin(ps: seq<string>): nat -> string
    requires ps != []
  {
    (k: nat) => ps[Slot(k, |ps|)]
  }

  function RoundRobinWorld(ps: seq<string>, d: real): World
    requires ps != []
  {
    Failing(RoundRobin(ps), d)
  }

  lemma TurnRecurses(s: Pool, ps: seq<string>, start: real, d: real, k: nat)
    requires InTurn(s, ps, start, d, k) && d > 0.0 && Ticks(|ps| - 1, d) > BLACKLIST_DURATION
    ensures var w := RoundRobinWorld(ps, d);
            Recurses(s, w, k) && InTurn(NextPool(s, w, k), ps, start, d, k + 1)
  {
    var choice := RoundRobin(ps);
    TicksAdd(0, 0, d);
    NextIsAvailable(s, ps, start, d, k);
    TurnGoesOn(s, ps, start, d, k);
    var t := Marked(s.(now := s.now + d), choice(k));
    NextIsAvailable(t, ps, start, d, k + 1);
    assert AfterFailure(s, Failing(choice, d), k, choice(k)) == t;
  }

  /** The pool is in turn, and the round robin never meets an expired entry too early. */
  ghost predicate Endless(s: Pool, ps: seq<string>, start: real, d: real, w: World, k: nat) {
    && InTurn(s, ps, start, d, k) && d > 0.0 && Ticks(|ps| - 1, d) > BLACKLIST_DURATION
    && w == RoundRobinWorld(ps, d)
  }

  /** Every pool that `inv` describes leads to another round and to such a pool again. */
  ghost predicate GoesOn(w: World, inv: (Pool, nat) -> bool) {
    forall t: Pool, j: nat :: inv(t, j) ==> Recurses(t, w, j) && inv(NextPool(t, w, j), j + 1)
  }

  lemma {:induction false} NeverEnds(s: Pool, w: World, k: nat, depth: nat, inv: (Pool, nat) -> bool)
    requires GoesOn(w, inv) && inv(s, k)
    ensures Get(s, w, k, depth).result.OutOfDepth?
    decreases depth
  {
    if depth == 0 {
    } else {
      OneMoreRound(s, w, k, depth);
      NeverEnds(NextPool(s, w, k), w, k + 1, depth - 1, inv);
    }
  }

  lemma EndlessStep(s: Pool, ps: seq<string>, start: real, d: real, w: World, k: nat)
    requires Endless(s, ps, start, d, w, k)
    ensures Recurses(s, w, k) && Endless(NextPool(s, w, k), ps, start, d, w, k + 1)
  {
    TurnRecurses(s, ps, start, d, k);
  }

  ghost function EndlessPools(ps: seq<string>, start: real, d: real, w: World): (Pool, nat) -> bool {
    (t: Pool, j: nat) => Endless(t, ps, start, d, w, j)
  }

  lemma EndlessGoesOn(ps: seq<string>, start: real, d: real, w: World)
    ensures GoesOn(w, EndlessPools(ps, start, d, w))
  {
    forall t: Pool, j: nat | EndlessPools(ps, start, d, w)(t, j)
      ensures Recurses(t, w, j) && EndlessPools(ps, start, d, w)(NextPool(t, w, j), j + 1)
    {
      EndlessStep(t, ps, start, d, w, j);
    }
  }

  lemma TurnNeverEnds(s: Pool, ps: seq<string>, start: real, d: real, w: World, k: nat, depth: nat)
    requires Endless(s, ps, start, d, w, k)
    ensures Get(s, w, k, depth).result.OutOfDepth?
  {
    EndlessGoesOn(ps, start, d, w);
    NeverEnds(s, w, k, depth, EndlessPools(ps, start, d, w));
  }

  lemma MembersAppend(ps: seq<string>, p: string)
    ensures Members(ps + [p]) == Members(ps) + {p}
  {
  }

  /** The members of a list, each once. */
  function Dedup(ps: seq<string>): (r: seq<string>)
    ensures Members(r) == Members(ps)
  {
    if ps == [] then []
    else
      var n := |ps| - 1;
      assert ps == ps[..n] + [ps[n]];
      MembersAppend(ps[..n], ps[n]);
      MembersAppend(Dedup(ps[..n]), ps[n]);
      if ps[n] in ps[..n] then Dedup(ps[..n]) else Dedup(ps[..n]) + [ps[n]]
  }

  lemma {:induction false} DedupDistinct(ps: seq<string>)
    ensures Distinct(Dedup(ps)) && |Dedup(ps)| == |Members(ps)|
  {
    if ps == [] {
    } else {
      var n := |ps| - 1;
      DedupDistinct(ps[..n]);
      assert ps == ps[..n] + [ps[n]];
      MembersAppend(ps[..n], ps[n]);
      assert forall p :: p in Dedup(ps[..n]) ==> p in Members(Dedup(ps[..n]));
    }
  }

  lemma ManyProxiesDoNot(s: Pool, d: real)
    requires d > 0.0 && s.proxies != [] && s.blacklist == map[]
    requires Ticks(|Members(s.proxies)| - 1, d) > BLACKLIST_DURATION
    ensures !AlwaysReturns(s, d)
  {
    var ps := Dedup(s.proxies);
    DedupDistinct(s.proxies);
    assert s.proxies[0] in Members(ps);
    var choice := RoundRobin(ps);
    TicksAdd(0, 0, d);
    forall i: nat | i < |ps|
      ensures SlotState(s, ps, s.now, d, 0, i)
    {
    }
    forall depth: nat
      ensures !Returns(s, choice, d, depth)
    {
      TurnNeverEnds(s, ps, s.now, d, Failing(choice, d), 0, depth);
    }
    assert !ReturnsFor(s, choice, d);
  }

  /** With n different proxies, however often each is listed, nothing blacklisted, and checks that all fail after d
      seconds, `get` comes back for every shuffle if and only if (n - 1) * d <= 300.  Ten-second timeouts and 32 dead
      proxies are enough for a call that recurses for ever. */
  lemma ReturnsIffFewEnough(s: Pool, d: real)
    requires d > 0.0 && s.blacklist == map[]
    ensures AlwaysReturns(s, d) <==> (|Members(s.proxies)| - 1) as real * d <= 300.0
  {
    if Ticks(|Members(s.proxies)| - 1, d) <= BLACKLIST_DURATION {
      forall choice: nat -> string
        ensures ReturnsFor(s, choice, d)
      {
        FewProxiesReturn(s, choice, d);
      }
    } else {
      assert s.proxies != [] by { TicksAdd(-1, 1, d); }
      ManyProxiesDoNot(s, d);
    }
  }

  // ---------------------------------------------------------------------------
  // The object.
  // ---------------------------------------------------------------------------

  function AvailableIn(s: Pool, ps: seq<string>): seq<string> {
    if ps == [] then []
    else if IsAvailable(s, ps[0]) then [ps[0]] + AvailableIn(s, ps[1..])
    else AvailableIn(s, ps[1..])
  }

  /** The list comprehension of `available`. */
  lemma {:induction false} PoolMembers(s: Pool, ps: seq<string>)
    ensures forall p :: p in AvailableIn(s, ps) <==> p in ps && IsAvailable(s, p)
  {
    if ps == [] {
    } else {
      PoolMembers(s, ps[1..]);
      assert ps == [ps[0]] + ps[1..];
    }
  }

  lemma {:induction false} PoolFirst(s: Pool, ps: seq<string>)
    requires exists p :: p in ps && IsAvailable(s, p)
    ensures AvailableIn(s, ps) != [] && AvailableIn(s, ps)[0] == FirstAvailable(s, ps)
  {
    if IsAvailable(s, ps[0]) {
    } else {
      PoolFirst(s, ps[1..]);
    }
  }

  lemma {:induction false} PoolOfCleared(s: Pool, ps: seq<string>)
    requires s.blacklist == map[]
    ensures AvailableIn(s, ps) == ps
  {
    if ps == [] {
    } else {
      PoolOfCleared(s, ps[1..]);
    }
  }

  lemma PoolList(s: Pool)
    ensures AvailableIn(s, s.proxies) == [] <==> !AnyAvailable(s)
    ensures forall p :: p in AvailableIn(s, s.proxies) <==> p in s.proxies && IsAvailable(s, p)
    ensures AnyAvailable(s) ==> AvailableIn(s, s.proxies)[0] == FirstAvailable(s, s.proxies)
    ensures s.blacklist == map[] ==> AvailableIn(s, s.proxies) == s.proxies
  {
    PoolMembers(s, s.proxies);
    if AnyAvailable(s) {
      PoolFirst(s, s.proxies);
    } else if AvailableIn(s, s.proxies) != [] {
      assert AvailableIn(s, s.proxies)[0] in AvailableIn(s, s.proxies);
    }
    if s.blacklist == map[] {
      PoolOfCleared(s, s.proxies);
    }
  }

  function RemoveFirst(ps: seq<string>, p: string): (r: seq<string>)
    ensures multiset(r) == multiset(ps) - multiset{p}
  {
    if ps == [] then []
    else if ps[0] == p then assert ps == [ps[0]] + ps[1..]; ps[1..]
    else assert ps == [ps[0]] + ps[1..]; [ps[0]] + RemoveFirst(ps[1..], p)
  }

  class Rotator {
    var proxies: seq<string>
    var blacklist: map<string, real>
    var now: real

    function View(): Pool
      reads this
    {
      Pool(proxies, blacklist, now)
    }

    method Add(proxy: string)
      modifies this`proxies
      ensures proxies == if proxy in old(proxies) then old(proxies) else old(proxies) + [proxy]
    {
      if proxy !in proxies {
        proxies := proxies + [proxy];
      }
    }

    method Remove(proxy: string)
      modifies this`proxies, this`blacklist
      ensures multiset(proxies) == multiset(old(proxies)) - multiset{proxy}
      ensures blacklist == old(blacklist) - {proxy}
    {
      proxies := RemoveFirst(proxies, proxy);
      blacklist := blacklist - {proxy};
    }

    method MarkFailed(proxy: string)
      modifies this`blacklist
      ensures View() == Marked(old(View()), proxy)
      ensures blacklist == old(blacklist)[proxy := now + 300.0]
    {
      blacklist := blacklist[proxy := now + BLACKLIST_DURATION];
    }

    /** The first lines of `get`: the pool, after clearing the blacklist if nothing is available, and the
        proxy that the shuffle puts first. */
    method Candidate(choice: string) returns (found: bool, candidate: string)
      modifies this`blacklist
      ensures View() == Cleared(old(View()))
      ensures found <==> AnyAvailable(View())
      ensures found ==> candidate == Pick(View(), choice)
      ensures blacklist == if Exhausted(old(View())) then map[] else old(blacklist)
      ensures found <==> proxies != []
      ensures found ==> candidate in proxies && (candidate !in blacklist || blacklist[candidate] < now)
    {
      ExhaustedIff(View());
      var pool := AvailableIn(View(), proxies);
      PoolList(View());
      if pool == [] {
        blacklist := map[];
        pool := proxies;
        PoolList(View());
      }
      found := pool != [];
      candidate := if choice in pool || !found then choice else pool[0];
    }

    /** `get` up to its recursive call, if it makes one. */
    method Round(w: World, k: nat) returns (again: bool, result: GetResult)
      modifies this
      ensures again <==> Recurses(old(View()), w, k)
      ensures again ==> View() == NextPool(old(View()), w, k)
      ensures !again ==> result == Get(old(View()), w, k, 1).result && View() == Get(old(View()), w, k, 1).pool
    {
      var found, candidate := Candidate(w.choice(k));
      if !found { return false, NoProxy; }
      now := now + w.check(k);
      if w.healthy(k) { return false, Proxy(candidate); }
      MarkFailed(candidate);
      if !AnyAvailable(View()) { return false, NoProxy; }
      now := now + w.lag(k);
      return true, NoProxy;
    }

    /** `get`, at check `k` of the call, with `depth` stack frames left. */
    method GetProxy(w: World, k: nat, depth: nat) returns (result: GetResult)
      modifies this
      ensures result == Get(old(View()), w, k, depth).result
      ensures View() == Get(old(View()), w, k, depth).pool
      ensures proxies == old(proxies)
      ensures depth >= 1 && proxies == [] ==> result.NoProxy?
      ensures depth >= 1 && proxies != [] && w.healthy(k) ==>
                && result.Proxy? && result.proxy in proxies
                && blacklist == if Exhausted(old(View())) then map[] else old(blacklist)
      ensures result.NoProxy? ==> Exhausted(View())
      decreases depth
    {
      ResultIsRight(View(), w, k, depth);
      ExhaustedIff(Get(View(), w, k, depth).pool);
      if depth >= 1 {
        TestsSomethingIff(View(), w, k, depth);
        if proxies != [] && w.healthy(k) { FirstCheckSucceeds(View(), w, k, depth); }
      }
      if depth == 0 { return OutOfDepth; }
      var again;
      again, result := Round(w, k);
      if again {
        result := GetProxy(w, k + 1, depth - 1);
      }
    }
  }
}
