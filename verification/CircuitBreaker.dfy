/** The circuit breaker: per-type failure counters, one total compared with the threshold of the type that
    failed last, and a timed open state.  Times are readings of a monotonic clock, in seconds. */
module CircuitBreaker {

  datatype Mode = Closed | Open | HalfOpen

  /** The failure dictionary in insertion order. */
  datatype Entry = Entry(kind: string, count: nat)

  datatype Rule = Rule(threshold: int, cooldown: real)

  datatype Config = Config(block: Rule, timeout: Rule, generic: Rule)

  const DEFAULTS := Config(Rule(5, 900.0), Rule(10, 300.0), Rule(10, 900.0))

  datatype Snapshot = Snapshot(mode: Mode, failures: seq<Entry>, openUntil: real)

  datatype Event = Request(at: real) | Failure(kind: string, at: real) | Success | Reset

  const NO_FAILURES := [Entry("block", 0), Entry("timeout", 0), Entry("generic", 0)]
  const FRESH := Snapshot(Closed, NO_FAILURES, 0.0)

  /** Unknown error types fall back to the generic rule, but are counted under their own name. */
  function RuleFor(c: Config, kind: string): Rule {
    if kind == "block" then c.block else if kind == "timeout" then c.timeout else c.generic
  }

  function Bump(failures: seq<Entry>, kind: string): seq<Entry> {
    if failures == [] then [Entry(kind, 1)]
    else if failures[0].kind == kind then [failures[0].(count := failures[0].count + 1)] + failures[1..]
    else [failures[0]] + Bump(failures[1..], kind)
  }

  function Total(failures: seq<Entry>): nat {
    if failures == [] then 0 else failures[0].count + Total(failures[1..])
  }

  function CountFor(failures: seq<Entry>, kind: string): nat {
    if failures == [] then 0
    else if failures[0].kind == kind then failures[0].count
    else CountFor(failures[1..], kind)
  }

  predicate Admits(f: Snapshot, at: real) { f.mode.Open? ==> at >= f.openUntil }

  function Next(c: Config, f: Snapshot, e: Event): Snapshot {
    match e
    case Request(at) => if f.mode.Open? && at >= f.openUntil then f.(mode := HalfOpen) else f
    case Failure(kind, at) =>
      var failures := Bump(f.failures, kind);
      var rule := RuleFor(c, kind);
      if Total(failures) >= rule.threshold then Snapshot(Open, failures, at + rule.cooldown)
      else f.(failures := failures)
    case Success => FRESH
    case Reset => FRESH
  }

  function Replay(c: Config, evs: seq<Event>): Snapshot {
    if evs == [] then FRESH else Next(c, Replay(c, evs[..|evs| - 1]), evs[|evs| - 1])
  }

  // ---------------------------------------------------------------------------
  // The fields as a function of the history.
  // ---------------------------------------------------------------------------

  predicate Clears(e: Event) { e.Success? || e.Reset? }

  /** `t` is what happened after the last success or reset of `evs`. */
  ghost predicate SinceClear(evs: seq<Event>, t: seq<Event>) {
    && |t| <= |evs| && evs[|evs| - |t|..] == t
    && (forall e :: e in t ==> !Clears(e))
    && (|t| < |evs| ==> Clears(evs[|evs| - |t| - 1]))
  }

  function Failures(t: seq<Event>): nat {
    if t == [] then 0 else Failures(t[..|t| - 1]) + if t[|t| - 1].Failure? then 1 else 0
  }

  function FailuresOf(t: seq<Event>, kind: string): nat {
    if t == [] then 0
    else FailuresOf(t[..|t| - 1], kind) + if t[|t| - 1].Failure? && t[|t| - 1].kind == kind then 1 else 0
  }

  /** The i-th event is a failure that meets the threshold of its own type. */
  predicate Trips(c: Config, t: seq<Event>, i: nat)
    requires i < |t|
  {
    t[i].Failure? && Failures(t[..i + 1]) >= RuleFor(c, t[i].kind).threshold
  }

  predicate LastTrip(c: Config, t: seq<Event>, i: nat) {
    i < |t| && Trips(c, t, i) && forall j :: i < j < |t| ==> !Trips(c, t, j)
  }

  function Deadline(c: Config, e: Event): real
    requires e.Failure?
  {
    e.at + RuleFor(c, e.kind).cooldown
  }

  predicate ProbedAfter(c: Config, t: seq<Event>, i: nat)
    requires i < |t| && t[i].Failure?
  {
    exists j :: i < j < |t| && t[j].Request? && t[j].at >= Deadline(c, t[i])
  }

  lemma {:induction false} BumpCounts(failures: seq<Entry>, kind: string, other: string)
    ensures Total(Bump(failures, kind)) == Total(failures) + 1
    ensures CountFor(Bump(failures, kind), other) == CountFor(failures, other) + if other == kind then 1 else 0
  {
    if failures == [] || failures[0].kind == kind {
    } else {
      BumpCounts(failures[1..], kind, other);
    }
  }

  lemma FreshIsZero(kind: string)
    ensures CountFor(NO_FAILURES, kind) == 0 && Total(NO_FAILURES) == 0
  {
    var one, two := [Entry("generic", 0)], [Entry("timeout", 0), Entry("generic", 0)];
    assert CountFor(one, kind) == 0 && Total(one) == 0;
    assert two[1..] == one;
    assert CountFor(two, kind) == 0 && Total(two) == 0;
    assert NO_FAILURES[1..] == two;
  }

  /** Counters and total after a stretch without success or reset. */
  lemma {:induction false} CountersAreCounts(c: Config, t: seq<Event>, kind: string)
    requires forall e :: e in t ==> !Clears(e)
    ensures CountFor(Replay(c, t).failures, kind) == FailuresOf(t, kind)
    ensures Total(Replay(c, t).failures) == Failures(t)
  {
    if t == [] {
      FreshIsZero(kind);
    } else {
      var front, e := t[..|t| - 1], t[|t| - 1];
      assert e in t;
      CountersAreCounts(c, front, kind);
      if e.Failure? {
        BumpCounts(Replay(c, front).failures, e.kind, kind);
      }
    }
  }

  /** The last tripping event, found from the end; -1 if there is none. */
  function LastTripAt(c: Config, t: seq<Event>): (i: int)
    ensures -1 <= i < |t| && (i >= 0 ==> t[i].Failure?)
  {
    if t == [] then -1
    else
      var e := t[|t| - 1];
      if e.Failure? && Failures(t) >= RuleFor(c, e.kind).threshold then |t| - 1 else LastTripAt(c, t[..|t| - 1])
  }

  lemma {:induction false} LastTripFound(c: Config, t: seq<Event>)
    ensures forall i :: LastTripAt(c, t) < i < |t| ==> !Trips(c, t, i)
    ensures LastTripAt(c, t) >= 0 ==> Trips(c, t, LastTripAt(c, t))
  {
    if t == [] {
    } else {
      var n, l := |t| - 1, LastTripAt(c, t);
      assert t[..n + 1] == t;
      if l != n {
        LastTripFound(c, t[..n]);
        forall i | 0 <= i < n
          ensures Trips(c, t[..n], i) <==> Trips(c, t, i)
        {
          assert t[..n][..i + 1] == t[..i + 1];
        }
      }
    }
  }

  ghost predicate ModeIs(c: Config, t: seq<Event>, f: Snapshot) {
    var l := LastTripAt(c, t);
    if l < 0 then f.mode.Closed? && f.openUntil == 0.0
    else !f.mode.Closed? && f.openUntil == Deadline(c, t[l]) && (f.mode.HalfOpen? <==> ProbedAfter(c, t, l))
  }

  lemma {:induction false} ModeFromStretch(c: Config, t: seq<Event>)
    requires forall e :: e in t ==> !Clears(e)
    ensures ModeIs(c, t, Replay(c, t))
  {
    if t == [] {
    } else {
      var n := |t| - 1;
      assert t[n] in t;
      ModeFromStretch(c, t[..n]);
      CountersAreCounts(c, t, "");
      if 0 <= LastTripAt(c, t) < n {
        ProbedStep(c, t, LastTripAt(c, t));
      }
    }
  }

  lemma ProbedStep(c: Config, t: seq<Event>, i: nat)
    requires i < |t| - 1 && t[i].Failure?
    ensures ProbedAfter(c, t, i) <==>
            ProbedAfter(c, t[..|t| - 1], i) || (t[|t| - 1].Request? && t[|t| - 1].at >= Deadline(c, t[i]))
  {
  }

  lemma {:induction false} OnlyTheStretchMatters(c: Config, evs: seq<Event>, t: seq<Event>)
    requires SinceClear(evs, t)
    ensures Replay(c, evs) == Replay(c, t)
  {
    if t == [] {
      assert evs == [] || Clears(evs[|evs| - 1]);
    } else {
      var front := t[..|t| - 1];
      assert evs[..|evs| - 1][|evs| - |t|..] == front;
      assert forall e :: e in front ==> e in t;
      OnlyTheStretchMatters(c, evs[..|evs| - 1], front);
    }
  }

  lemma LastTripIsAt(c: Config, t: seq<Event>, i: nat)
    requires LastTrip(c, t, i)
    ensures LastTripAt(c, t) == i
  {
    LastTripFound(c, t);
  }

  lemma ModeFromHistory(c: Config, evs: seq<Event>, t: seq<Event>)
    requires SinceClear(evs, t)
    ensures Replay(c, evs).mode.Closed? <==> forall i :: 0 <= i < |t| ==> !Trips(c, t, i)
  {
    OnlyTheStretchMatters(c, evs, t);
    ModeFromStretch(c, t);
    LastTripFound(c, t);
  }

  lemma DeadlineFromHistory(c: Config, evs: seq<Event>, t: seq<Event>, i: nat)
    requires SinceClear(evs, t) && LastTrip(c, t, i)
    ensures var f := Replay(c, evs);
            f.openUntil == Deadline(c, t[i]) && (f.mode.HalfOpen? <==> ProbedAfter(c, t, i)) && !f.mode.Closed?
  {
    OnlyTheStretchMatters(c, evs, t);
    ModeFromStretch(c, t);
    LastTripIsAt(c, t, i);
  }

  /** After any history the fields are determined by the events since the last success or reset: each
      counter is the number of failures of its type, the breaker is closed exactly when no failure met its
      own type's threshold, the deadline is the last tripping failure's time plus that type's cooldown, and
      it is half-open exactly when a request was made at or after that deadline. */
  lemma FieldsFromHistory(c: Config, evs: seq<Event>, t: seq<Event>)
    requires SinceClear(evs, t)
    ensures var f := Replay(c, evs);
            && (forall kind :: CountFor(f.failures, kind) == FailuresOf(t, kind))
            && Total(f.failures) == Failures(t)
            && (f.mode.Closed? <==> forall i :: 0 <= i < |t| ==> !Trips(c, t, i))
            && (forall i: nat :: LastTrip(c, t, i) ==> f.openUntil == Deadline(c, t[i]))
            && (forall i: nat :: LastTrip(c, t, i) ==> (f.mode.HalfOpen? <==> ProbedAfter(c, t, i)))
  {
    OnlyTheStretchMatters(c, evs, t);
    ModeFromHistory(c, evs, t);
    CountersAreCounts(c, t, "");
    forall i: nat | LastTrip(c, t, i)
      ensures Replay(c, evs).openUntil == Deadline(c, t[i])
      ensures Replay(c, evs).mode.HalfOpen? <==> ProbedAfter(c, t, i)
    {
      DeadlineFromHistory(c, evs, t, i);
    }
    forall kind
      ensures CountFor(Replay(c, evs).failures, kind) == FailuresOf(t, kind)
    {
      CountersAreCounts(c, t, kind);
    }
  }

  // ---------------------------------------------------------------------------
  // Which rule belongs to which type.
  // ---------------------------------------------------------------------------

  /** After `n` failures since the last clear, `f` becomes `g` by one more at time `at` that is judged by this threshold
      and this cooldown. */
  predicate JudgedBy(f: Snapshot, g: Snapshot, n: nat, at: real, threshold: int, cooldown: real) {
    if n + 1 >= threshold then g.mode.Open? && g.openUntil == at + cooldown
    else g.mode == f.mode && g.openUntil == f.openUntil
  }

  /** Blocks are judged by the block rule, timeouts by the timeout rule, and everything else, known or not, by the
      generic one. */
  lemma RuleOfEachType(c: Config, evs: seq<Event>, t: seq<Event>, kind: string, at: real)
    requires SinceClear(evs, t)
    ensures var f, g := Replay(c, evs), Replay(c, evs + [Failure(kind, at)]);
            && (kind == "block" ==> JudgedBy(f, g, Failures(t), at, c.block.threshold, c.block.cooldown))
            && (kind == "timeout" ==> JudgedBy(f, g, Failures(t), at, c.timeout.threshold, c.timeout.cooldown))
            && (kind != "block" && kind != "timeout" ==>
                  JudgedBy(f, g, Failures(t), at, c.generic.threshold, c.generic.cooldown))
  {
    assert (evs + [Failure(kind, at)])[..|evs|] == evs;
    OnlyTheStretchMatters(c, evs, t);
    CountersAreCounts(c, t, kind);
    BumpCounts(Replay(c, evs).failures, kind, kind);
  }

  /** With the default block rule, four blocks leave a fresh breaker closed and the fifth opens it for 900 seconds. */
  lemma {:induction false} FiveBlocksOpen(c: Config, evs: seq<Event>)
    requires c.block == Rule(5, 900.0) && forall i :: 0 <= i < |evs| ==> evs[i].Failure? && evs[i].kind == "block"
    ensures Failures(evs) == |evs|
    ensures var f := Replay(c, evs);
            if |evs| < 5 then f.mode.Closed? else f.mode.Open? && f.openUntil == evs[|evs| - 1].at + 900.0
  {
    if evs == [] {
    } else {
      var n := |evs| - 1;
      FiveBlocksOpen(c, evs[..n]);
      assert evs == evs[..n] + [Failure("block", evs[n].at)];
      assert SinceClear(evs[..n], evs[..n]);
      RuleOfEachType(c, evs[..n], evs[..n], "block", evs[n].at);
    }
  }

  // ---------------------------------------------------------------------------
  // Safety of the open state.
  // ---------------------------------------------------------------------------

  /** Requests carry nondecreasing clock readings. */
  predicate RequestsInOrder(evs: seq<Event>) {
    forall i, j :: 0 <= i < j < |evs| && evs[i].Request? && evs[j].Request? ==> evs[i].at <= evs[j].at
  }

  /** No request is admitted before the deadline of the failure that tripped last, unless a success or
      reset came in between. */
  lemma NothingAdmittedBeforeDeadline(c: Config, evs: seq<Event>, t: seq<Event>, i: nat, at: real)
    requires SinceClear(evs, t) && LastTrip(c, t, i)
    requires RequestsInOrder(evs + [Request(at)])
    requires at < Deadline(c, t[i])
    ensures !Admits(Replay(c, evs), at)
  {
    DeadlineFromHistory(c, evs, t, i);
    var all := evs + [Request(at)];
    forall j | i < j < |t| && t[j].Request?
      ensures t[j].at <= at
    {
      assert all[|evs| - |t| + j] == t[j] && all[|evs|] == Request(at);
    }
  }

  /** A request is admitted exactly when nothing has tripped since the last clear, or the deadline of the last trip has
      come. */
  lemma AdmittedIff(c: Config, evs: seq<Event>, t: seq<Event>, at: real)
    requires SinceClear(evs, t) && RequestsInOrder(evs + [Request(at)])
    ensures Admits(Replay(c, evs), at) <==> forall i: nat :: LastTrip(c, t, i) ==> at >= Deadline(c, t[i])
  {
    ModeFromHistory(c, evs, t);
    LastTripFound(c, t);
    if i: nat :| LastTrip(c, t, i) {
      DeadlineFromHistory(c, evs, t, i);
      LastTripIsAt(c, t, i);
      if at < Deadline(c, t[i]) {
        NothingAdmittedBeforeDeadline(c, evs, t, i, at);
      }
      forall j: nat | LastTrip(c, t, j)
        ensures j == i
      {
        LastTripIsAt(c, t, j);
      }
    } else if LastTripAt(c, t) >= 0 {
      assert LastTrip(c, t, LastTripAt(c, t));
    }
  }

  /** A failure moves the breaker to open exactly when the running total reaches the threshold of its
      type. */
  lemma ReopensIff(c: Config, evs: seq<Event>, t: seq<Event>, kind: string, at: real)
    requires SinceClear(evs, t) && Replay(c, evs).mode.HalfOpen?
    ensures Next(c, Replay(c, evs), Failure(kind, at)).mode.Open? <==> Failures(t) + 1 >= RuleFor(c, kind).threshold
  {
    OnlyTheStretchMatters(c, evs, t);
    CountersAreCounts(c, t, kind);
    BumpCounts(Replay(c, evs).failures, kind, kind);
  }

  /** A further failure of the type that tripped the half-open breaker re-opens it. */
  lemma SameTypeReopens(c: Config, evs: seq<Event>, t: seq<Event>, i: nat, at: real)
    requires SinceClear(evs, t) && Replay(c, evs).mode.HalfOpen? && LastTrip(c, t, i)
    ensures Next(c, Replay(c, evs), Failure(t[i].kind, at)).mode.Open?
  {
    ReopensIff(c, evs, t, t[i].kind, at);
    FailuresGrow(t, i + 1);
  }

  lemma {:induction false} FailuresGrow(t: seq<Event>, n: nat)
    requires n <= |t|
    ensures Failures(t[..n]) <= Failures(t)
  {
    if n == |t| {
      assert t[..n] == t;
    } else {
      FailuresGrow(t[..|t| - 1], n);
      assert t[..|t| - 1][..n] == t[..n];
    }
  }

  /** A failure brings the deadline forward exactly when it trips and its own deadline is the earlier one. */
  lemma ShortensIff(c: Config, evs: seq<Event>, t: seq<Event>, i: nat, kind: string, at: real)
    requires SinceClear(evs, t) && LastTrip(c, t, i)
    ensures Next(c, Replay(c, evs), Failure(kind, at)).openUntil < Replay(c, evs).openUntil
            <==> Failures(t) + 1 >= RuleFor(c, kind).threshold && at + RuleFor(c, kind).cooldown < Deadline(c, t[i])
  {
    DeadlineFromHistory(c, evs, t, i);
    OnlyTheStretchMatters(c, evs, t);
    CountersAreCounts(c, t, kind);
    BumpCounts(Replay(c, evs).failures, kind, kind);
  }

  /** With equal cooldowns and an ordered clock no failure ever brings the deadline forward. */
  lemma EqualCooldownsNeverShorten(c: Config, evs: seq<Event>, t: seq<Event>, i: nat, kind: string, at: real)
    requires SinceClear(evs, t) && LastTrip(c, t, i) && t[i].at <= at
    requires c.block.cooldown == c.timeout.cooldown == c.generic.cooldown
    ensures Next(c, Replay(c, evs), Failure(kind, at)).openUntil >= Replay(c, evs).openUntil
  {
    ShortensIff(c, evs, t, i, kind, at);
    SameCooldown(c, kind, t[i].kind);
  }

  lemma SameCooldown(c: Config, a: string, b: string)
    requires c.block.cooldown == c.timeout.cooldown == c.generic.cooldown
    ensures RuleFor(c, a).cooldown == RuleFor(c, b).cooldown
  {
  }

  /** The documented "one probe" does not hold: once the cooldown is over, every request is admitted, in
      any number, until the next tripping failure. */
  lemma {:induction false} HalfOpenAdmitsEveryone(c: Config, f: Snapshot, times: seq<real>)
    requires f.mode.HalfOpen?
    ensures ReplayFrom(c, f, seq(|times|, i requires 0 <= i < |times| => Request(times[i]))) == f
    ensures forall at :: Admits(f, at)
  {
    var evs := seq(|times|, i requires 0 <= i < |times| => Request(times[i]));
    if times != [] {
      HalfOpenAdmitsEveryone(c, f, times[..|times| - 1]);
      assert evs[..|evs| - 1] == seq(|times| - 1, i requires 0 <= i < |times| - 1 => Request(times[..|times| - 1][i]));
    }
  }

  function ReplayFrom(c: Config, f: Snapshot, evs: seq<Event>): Snapshot {
    if evs == [] then f else Next(c, ReplayFrom(c, f, evs[..|evs| - 1]), evs[|evs| - 1])
  }

  /** Two surprises with the default rules, from a breaker tripped by blocks.  After five blocks and the
      cooldown, a timeout leaves the breaker half-open: six failures are not ten.  After nine blocks, a
      timeout one second later moves the deadline from 900 to 301. */
  lemma MixedTypesSurprise(five: seq<Entry>, nine: seq<Entry>)
    requires five == [Entry("block", 5), Entry("timeout", 0), Entry("generic", 0)]
    requires nine == [Entry("block", 9), Entry("timeout", 0), Entry("generic", 0)]
    ensures var half := Next(DEFAULTS, Snapshot(Open, five, 900.0), Request(900.0));
            half.mode.HalfOpen? && Next(DEFAULTS, half, Failure("timeout", 901.0)).mode.HalfOpen?
    ensures Next(DEFAULTS, Snapshot(Open, nine, 900.0), Failure("timeout", 1.0)) ==
            Snapshot(Open, [Entry("block", 9), Entry("timeout", 1), Entry("generic", 0)], 301.0)
  {
    var rest := [Entry("timeout", 0), Entry("generic", 0)];
    assert Bump(rest, "timeout") == [Entry("timeout", 1), Entry("generic", 0)];
    assert five[1..] == rest && nine[1..] == rest;
    BumpCounts(five, "timeout", "timeout");
    BumpCounts(nine, "timeout", "timeout");
    assert rest[1..] == [Entry("generic", 0)];
    assert Total(rest) == 0;
  }

  // ---------------------------------------------------------------------------
  // The object.
  // ---------------------------------------------------------------------------

  /** The time `n` full waits take. */
  ghost function Span(n: nat, poll: real): real {
    if n == 0 then 0.0 else Span(n - 1, poll) + poll
  }

  lemma {:induction false} SpanIsProduct(n: nat, poll: real)
    ensures Span(n, poll) == n as real * poll
  {
    if n == 0 {
    } else {
      SpanIsProduct(n - 1, poll);
    }
  }

  lemma {:induction false} SpanGrows(m: nat, n: nat, poll: real)
    requires m <= n && poll > 0.0
    ensures Span(m, poll) <= Span(n, poll)
  {
    if m == n {
    } else {
      SpanGrows(m, n - 1, poll);
    }
  }

  /** Enough waits to cover `length`. */
  lemma CoveringWaits(length: real, poll: real) returns (n: nat)
    requires poll > 0.0
    ensures length <= Span(n, poll)
  {
    var q := length / poll;
    n := if q < 0.0 then 0 else q.Floor + 1;
    SpanIsProduct(n, poll);
    assert length == q * poll && q <= n as real;
    ScaleUp(q, n as real, poll);
  }

  lemma ScaleUp(a: real, b: real, poll: real)
    requires a <= b && poll > 0.0
    ensures a * poll <= b * poll
  {
  }

  class Breaker {
    const config: Config
    var mode: Mode
    var failures: seq<Entry>
    var openUntil: real
    /** The monotonic clock, as this breaker's only user sees it. */
    var now: real

    function Fields(): Snapshot
      reads this
    {
      Snapshot(mode, failures, openUntil)
    }

    constructor (threshold: int, cooldown: real, now: real)
      ensures Fields() == FRESH && this.now == now
      ensures config == Config(Rule(5, 900.0), Rule(10, 300.0), Rule(threshold, cooldown))
    {
      config := DEFAULTS.(generic := Rule(threshold, cooldown));
      mode, failures, openUntil := Closed, NO_FAILURES, 0.0;
      this.now := now;
    }

    method AllowRequest() returns (allowed: bool)
      modifies this`mode
      ensures allowed == Admits(old(Fields()), now)
      ensures Fields() == Next(config, old(Fields()), Request(now))
      ensures allowed <==> old(mode).Closed? || old(mode).HalfOpen? || now >= openUntil
      ensures mode == if old(mode).Open? && allowed then HalfOpen else old(mode)
    {
      if mode.Closed? { return true; }
      if mode.Open? {
        if now >= openUntil {
          mode := HalfOpen;
          return true;
        }
        return false;
      }
      return true;
    }

    method RecordFailure(kind: string)
      modifies this`mode, this`failures, this`openUntil
      ensures Fields() == Next(config, old(Fields()), Failure(kind, now))
      ensures Total(failures) == Total(old(failures)) + 1 && CountFor(failures, kind) == CountFor(old(failures), kind) + 1
      ensures var n := Total(old(failures));
              && (kind == "block" ==>
                    JudgedBy(old(Fields()), Fields(), n, now, config.block.threshold, config.block.cooldown))
              && (kind == "timeout" ==>
                    JudgedBy(old(Fields()), Fields(), n, now, config.timeout.threshold, config.timeout.cooldown))
              && (kind != "block" && kind != "timeout" ==>
                    JudgedBy(old(Fields()), Fields(), n, now, config.generic.threshold, config.generic.cooldown))
    {
      BumpCounts(failures, kind, kind);
      var rule := RuleFor(config, kind);
      failures := Bump(failures, kind);
      if Total(failures) >= rule.threshold {
        mode := Open;
        openUntil := now + rule.cooldown;
      }
    }

    method RecordSuccess()
      modifies this`mode, this`failures, this`openUntil
      ensures Fields() == Next(config, old(Fields()), Success)
      ensures mode.Closed? && Total(failures) == 0 && openUntil == 0.0
    {
      mode, failures, openUntil := Closed, NO_FAILURES, 0.0;
      FreshIsZero("");
    }

    method ResetBreaker()
      modifies this`mode, this`failures, this`openUntil
      ensures Fields() == Next(config, old(Fields()), Reset)
      ensures mode.Closed? && Total(failures) == 0 && openUntil == 0.0
    {
      mode, failures, openUntil := Closed, NO_FAILURES, 0.0;
      FreshIsZero("");
    }

    /** Waits with exact sleeps while nobody else uses the breaker; `stops(k)` says that the stop event cuts
        the k-th wait.  It returns exactly at the deadline, after ceil(remaining / poll) waits. */
    method WaitUntilAllowed(poll: real, stops: nat -> bool) returns (allowed: bool, waits: nat)
      requires poll > 0.0
      modifies this`mode, this`now
      ensures waits == 0 <==> Admits(old(Fields()), old(now))
      ensures waits > 0 ==> Span(waits - 1, poll) < openUntil - old(now)
      ensures allowed ==> Fields() == Next(config, old(Fields()), Request(now))
      ensures allowed ==> now == if waits == 0 then old(now) else openUntil
      ensures allowed && waits > 0 ==> openUntil - old(now) <= Span(waits, poll)
      ensures allowed <==> forall k: nat :: k < waits ==> !stops(k)
      ensures !allowed ==> Fields() == old(Fields()) && stops(waits - 1) && forall k: nat :: k < waits - 1 ==> !stops(k)
    {
      ghost var length := openUntil - now;
      ghost var bound: nat := CoveringWaits(length, poll);
      waits := 0;
      allowed := AllowRequest();
      while !allowed
        invariant allowed <==> Admits(old(Fields()), now)
        invariant Fields() == Next(config, old(Fields()), Request(now))
        invariant waits == 0 ==> now == old(now)
        invariant waits > 0 ==> !Admits(old(Fields()), old(now)) && Span(waits - 1, poll) < length && now <= openUntil
        invariant waits > 0 ==> now == openUntil || now - old(now) == Span(waits, poll)
        invariant waits > 0 && now == openUntil ==> length <= Span(waits, poll)
        invariant forall k: nat :: k < waits ==> !stops(k)
        decreases !allowed, bound - waits
      {
        if waits >= bound { SpanGrows(bound, waits, poll); }
        var remaining := openUntil - now;
        var gap := if poll < remaining then poll else remaining;
        now := now + gap;
        waits := waits + 1;
        if stops(waits - 1) { return; }
        allowed := AllowRequest();
      }
    }
  }
}
