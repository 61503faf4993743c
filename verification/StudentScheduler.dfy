/** `run_students_web`: one thread per student, a semaphore of MAX_CONCURRENT permits around each, and a
    requeue counter shared by all threads whose students have the same key.

    The threads are interleaved one atomic step at a time.  A thread's code is its program counter `Pc`;
    `smart_retry` is one step that returns with any of its three kinds of status. */
module StudentScheduler {
  import opened Common

  datatype RetryResult = RetryStopped | RetryFailed | RetrySettled

  datatype Outcome = Stopped | Settled | GaveUp

  datatype Pc =
    | Waiting                       // at the semaphore
    | Looping                       // at the top of the loop, about to look at the stop event
    | Retrying                      // inside smart_retry
    | Delaying                      // requeued, sleeping with the permit held
    | Leaving(outcome: Outcome)     // on the way to the release in the finally block
    | Done(result: Outcome)

  /** `fails` counts this thread's failed `smart_retry` calls; it is history, the program has no such field. */
  datatype Thread = Thread(key: string, pc: Pc, fails: nat)

  /** `results` holds the thread numbers in the order their results were appended. */
  datatype State = State(permits: nat, threads: seq<Thread>, counts: map<string, nat>, results: seq<nat>, stop: bool)

  datatype Event =
    | Acquire(id: nat)
    | Check(id: nat)
    | Return(id: nat, r: RetryResult)
    | EndDelay(id: nat)
    | StopInDelay(id: nat)
    | Release(id: nat)
    | SetStop(stop: bool)

  function Initial(keys: seq<string>, maxConcurrent: nat): State {
    State(maxConcurrent, seq(|keys|, i requires 0 <= i < |keys| => Thread(keys[i], Waiting, 0)), map[], [], false)
  }

  predicate Enabled(s: State, e: Event) {
    e.SetStop? || (
      e.id < |s.threads| &&
      var pc := s.threads[e.id].pc;
      match e
      case Acquire(_) => pc.Waiting? && s.permits > 0
      case Check(_) => pc.Looping?
      case Return(_, _) => pc.Retrying?
      case EndDelay(_) => pc.Delaying?
      case StopInDelay(_) => pc.Delaying? && s.stop
      case Release(_) => pc.Leaving?
    )
  }

  function Count(counts: map<string, nat>, key: string): nat { if key in counts then counts[key] else 0 }

  function Move(s: State, id: nat, pc: Pc): State
    requires id < |s.threads|
  {
    s.(threads := s.threads[id := s.threads[id].(pc := pc)])
  }

  /** A failed `smart_retry`: the increment and the test are one step. */
  function Requeue(s: State, id: nat, maxRetries: nat): State
    requires id < |s.threads|
  {
    var t := s.threads[id];
    var n := Count(s.counts, t.key) + 1;
    var s' := s.(counts := s.counts[t.key := n]);
    if n > maxRetries
    then s'.(threads := s.threads[id := t.(pc := Leaving(GaveUp), fails := t.fails + 1)], results := s.results + [id])
    else s'.(threads := s.threads[id := t.(pc := Delaying, fails := t.fails + 1)])
  }

  function Next(s: State, e: Event, maxRetries: nat): State
    requires Enabled(s, e)
  {
    match e
    case Acquire(i) => Move(s, i, Looping).(permits := s.permits - 1)
    case Check(i) => Move(s, i, if s.stop then Leaving(Stopped) else Retrying)
    case Return(i, RetryStopped) => Move(s, i, Leaving(Stopped))
    case Return(i, RetrySettled) => Move(s, i, Leaving(Settled)).(results := s.results + [i])
    case Return(i, RetryFailed) => Requeue(s, i, maxRetries)
    case EndDelay(i) => Move(s, i, Looping)
    case StopInDelay(i) => Move(s, i, Leaving(Stopped))
    case Release(i) => Move(s, i, Done(s.threads[i].pc.outcome)).(permits := s.permits + 1)
    case SetStop(b) => s.(stop := b)
  }

  /** A schedule: every event happens where it is enabled. */
  ghost predicate Run(s: State, evs: seq<Event>, maxRetries: nat, t: State)
    decreases |evs|
  {
    if evs == [] then s == t
    else Enabled(s, evs[0]) && Run(Next(s, evs[0], maxRetries), evs[1..], maxRetries, t)
  }

  // ---------------------------------------------------------------------------
  // Sums over the threads.
  // ---------------------------------------------------------------------------

  function Sum(ts: seq<Thread>, f: Thread -> nat): nat {
    if ts == [] then 0 else Sum(ts[..|ts| - 1], f) + f(ts[|ts| - 1])
  }

  function Holder(t: Thread): nat { if t.pc.Waiting? || t.pc.Done? then 0 else 1 }

  predicate HasResult(t: Thread) { (t.pc.Leaving? && !t.pc.outcome.Stopped?) || (t.pc.Done? && !t.pc.result.Stopped?) }

  function Recorded(t: Thread): nat { if HasResult(t) then 1 else 0 }

  predicate HasGivenUp(t: Thread) { (t.pc.Leaving? && t.pc.outcome.GaveUp?) || (t.pc.Done? && t.pc.result.GaveUp?) }

  function GivenUpOn(key: string): Thread -> nat { (t: Thread) => if t.key == key && HasGivenUp(t) then 1 else 0 }

  function SharersOf(key: string): Thread -> nat { (t: Thread) => if t.key == key then 1 else 0 }

  function FailsOn(key: string): Thread -> nat { (t: Thread) => if t.key == key then t.fails else 0 }

  lemma {:induction false} SumUpdate(ts: seq<Thread>, i: nat, t: Thread, f: Thread -> nat)
    requires i < |ts|
    ensures Sum(ts[i := t], f) == Sum(ts, f) - f(ts[i]) + f(t)
    ensures Sum(ts, f) >= f(ts[i])
  {
    var n := |ts| - 1;
    if i == n {
      assert ts[i := t][..n] == ts[..n];
    } else {
      assert ts[i := t][..n] == ts[..n][i := t];
      SumUpdate(ts[..n], i, t, f);
    }
  }

  lemma {:induction false} SumAtMost(ts: seq<Thread>, f: Thread -> nat, g: Thread -> nat)
    requires forall t :: t in ts ==> f(t) <= g(t)
    ensures Sum(ts, f) <= Sum(ts, g)
  {
    if ts == [] {
    } else {
      assert forall t :: t in ts[..|ts| - 1] ==> t in ts;
      SumAtMost(ts[..|ts| - 1], f, g);
    }
  }

  lemma {:induction false} SumConstant(ts: seq<Thread>, f: Thread -> nat, c: nat)
    requires forall t :: t in ts ==> f(t) == c
    ensures Sum(ts, f) == |ts| * c
  {
    if ts == [] {
    } else {
      assert forall t :: t in ts[..|ts| - 1] ==> t in ts;
      SumConstant(ts[..|ts| - 1], f, c);
      assert |ts| * c == (|ts| - 1) * c + c;
    }
  }

  // ---------------------------------------------------------------------------
  // What every step keeps.
  // ---------------------------------------------------------------------------

  ghost predicate ThreadOk(s: State, i: nat, maxConcurrent: nat, maxRetries: nat)
    requires i < |s.threads|
  {
    var t := s.threads[i];
    && multiset(s.results)[i] == Recorded(t)
    && (t.pc.Waiting? ==> t.fails == 0)
    && (t.pc.Looping? || t.pc.Retrying? || t.pc.Delaying? ==> t.fails <= maxRetries)
    && t.fails <= Count(s.counts, t.key)
    && (maxConcurrent == 0 ==> t.pc.Waiting?)
  }

  ghost predicate Budget(s: State, key: string, maxRetries: nat) {
    && Count(s.counts, key) == Sum(s.threads, FailsOn(key))
    && Count(s.counts, key) <= maxRetries + Sum(s.threads, GivenUpOn(key))
  }

  ghost predicate Inv(s: State, maxConcurrent: nat, maxRetries: nat) {
    && s.permits + Sum(s.threads, Holder) == maxConcurrent
    && |s.results| == Sum(s.threads, Recorded)
    && (forall i: nat :: i < |s.threads| ==> ThreadOk(s, i, maxConcurrent, maxRetries))
    && (forall key :: Budget(s, key, maxRetries))
  }

  /** How many more steps a thread can take at most. */
  function Rank(maxRetries: nat): Thread -> nat {
    (t: Thread) =>
      var left := if t.fails <= maxRetries then maxRetries - t.fails else 0;
      match t.pc
      case Waiting => 3 * left + 7
      case Looping => 3 * left + 5
      case Retrying => 3 * left + 4
      case Delaying => 3 * left + 6
      case Leaving(_) => 1
      case Done(_) => 0
  }

  lemma InitialInv(keys: seq<string>, maxConcurrent: nat, maxRetries: nat)
    ensures Inv(Initial(keys, maxConcurrent), maxConcurrent, maxRetries)
  {
    var s := Initial(keys, maxConcurrent);
    SumConstant(s.threads, Holder, 0);
    SumConstant(s.threads, Recorded, 0);
    forall key
      ensures Budget(s, key, maxRetries)
    {
      SumConstant(s.threads, FailsOn(key), 0);
    }
  }

  /** Only the thread that steps changes, and its key stays. */
  lemma OneThreadMoves(s: State, e: Event, maxRetries: nat)
    requires Enabled(s, e) && !e.SetStop?
    ensures var t := Next(s, e, maxRetries);
            |t.threads| == |s.threads| && t.threads == s.threads[e.id := t.threads[e.id]]
            && t.threads[e.id].key == s.threads[e.id].key
  {
  }

  lemma HoldersKept(s: State, e: Event, maxRetries: nat)
    requires Enabled(s, e)
    ensures Next(s, e, maxRetries).permits + Sum(Next(s, e, maxRetries).threads, Holder)
            == s.permits + Sum(s.threads, Holder)
  {
    if !e.SetStop? {
      var t := Next(s, e, maxRetries);
      OneThreadMoves(s, e, maxRetries);
      SumUpdate(s.threads, e.id, t.threads[e.id], Holder);
    }
  }

  lemma RecordedKept(s: State, e: Event, maxRetries: nat)
    requires Enabled(s, e) && |s.results| == Sum(s.threads, Recorded)
    ensures |Next(s, e, maxRetries).results| == Sum(Next(s, e, maxRetries).threads, Recorded)
  {
    if !e.SetStop? {
      var t := Next(s, e, maxRetries);
      OneThreadMoves(s, e, maxRetries);
      SumUpdate(s.threads, e.id, t.threads[e.id], Recorded);
    }
  }

  lemma MovedThreadOk(s: State, e: Event, maxConcurrent: nat, maxRetries: nat)
    requires Enabled(s, e) && !e.SetStop? && ThreadOk(s, e.id, maxConcurrent, maxRetries)
    requires s.permits <= maxConcurrent
    ensures ThreadOk(Next(s, e, maxRetries), e.id, maxConcurrent, maxRetries)
  {
  }

  lemma OtherThreadOk(s: State, e: Event, j: nat, maxConcurrent: nat, maxRetries: nat)
    requires Enabled(s, e) && j < |s.threads| && (e.SetStop? || e.id != j)
    requires ThreadOk(s, j, maxConcurrent, maxRetries)
    ensures ThreadOk(Next(s, e, maxRetries), j, maxConcurrent, maxRetries)
  {
  }

  lemma BudgetAfterRequeue(s: State, i: nat, key: string, maxRetries: nat)
    requires i < |s.threads| && s.threads[i].pc.Retrying? && Budget(s, key, maxRetries)
    ensures Budget(Requeue(s, i, maxRetries), key, maxRetries)
  {
    var t := Requeue(s, i, maxRetries).threads[i];
    SumUpdate(s.threads, i, t, GivenUpOn(key));
    SumUpdate(s.threads, i, t, FailsOn(key));
  }

  lemma BudgetAfterMove(s: State, i: nat, pc: Pc, key: string, maxRetries: nat)
    requires i < |s.threads| && Budget(s, key, maxRetries)
    requires HasGivenUp(s.threads[i].(pc := pc)) <==> HasGivenUp(s.threads[i])
    ensures Budget(Move(s, i, pc), key, maxRetries)
  {
    SumUpdate(s.threads, i, s.threads[i].(pc := pc), GivenUpOn(key));
    SumUpdate(s.threads, i, s.threads[i].(pc := pc), FailsOn(key));
  }

  lemma BudgetKept(s: State, e: Event, key: string, maxRetries: nat)
    requires Enabled(s, e) && Budget(s, key, maxRetries)
    ensures Budget(Next(s, e, maxRetries), key, maxRetries)
  {
    if e.Return? && e.r.RetryFailed? {
      BudgetAfterRequeue(s, e.id, key, maxRetries);
    } else if !e.SetStop? {
      BudgetAfterMove(s, e.id, Next(s, e, maxRetries).threads[e.id].pc, key, maxRetries);
    }
  }

  lemma NextKeepsInv(s: State, e: Event, maxConcurrent: nat, maxRetries: nat)
    requires Inv(s, maxConcurrent, maxRetries) && Enabled(s, e)
    ensures Inv(Next(s, e, maxRetries), maxConcurrent, maxRetries)
  {
    var t := Next(s, e, maxRetries);
    HoldersKept(s, e, maxRetries);
    RecordedKept(s, e, maxRetries);
    forall j: nat | j < |t.threads|
      ensures ThreadOk(t, j, maxConcurrent, maxRetries)
    {
      if !e.SetStop? && e.id == j {
        MovedThreadOk(s, e, maxConcurrent, maxRetries);
      } else {
        OtherThreadOk(s, e, j, maxConcurrent, maxRetries);
      }
    }
    forall key
      ensures Budget(t, key, maxRetries)
    {
      BudgetKept(s, e, key, maxRetries);
    }
  }

  lemma {:induction false} RunKeepsInv(s: State, evs: seq<Event>, t: State, maxConcurrent: nat, maxRetries: nat)
    requires Inv(s, maxConcurrent, maxRetries) && Run(s, evs, maxRetries, t)
    ensures Inv(t, maxConcurrent, maxRetries)
    ensures |t.threads| == |s.threads| && forall i :: 0 <= i < |s.threads| ==> t.threads[i].key == s.threads[i].key
    decreases |evs|
  {
    if evs == [] {
    } else {
      NextKeepsInv(s, evs[0], maxConcurrent, maxRetries);
      RunKeepsInv(Next(s, evs[0], maxRetries), evs[1..], t, maxConcurrent, maxRetries);
    }
  }

  // ---------------------------------------------------------------------------
  // Main results.
  // ---------------------------------------------------------------------------

  ghost predicate Reachable(keys: seq<string>, maxConcurrent: nat, maxRetries: nat, s: State) {
    exists evs: seq<Event> :: Run(Initial(keys, maxConcurrent), evs, maxRetries, s)
  }

  lemma ReachableInv(keys: seq<string>, maxConcurrent: nat, maxRetries: nat, s: State)
    requires Reachable(keys, maxConcurrent, maxRetries, s)
    ensures Inv(s, maxConcurrent, maxRetries)
    ensures |s.threads| == |keys| && forall i :: 0 <= i < |keys| ==> s.threads[i].key == keys[i]
  {
    var evs: seq<Event> :| Run(Initial(keys, maxConcurrent), evs, maxRetries, s);
    InitialInv(keys, maxConcurrent, maxRetries);
    RunKeepsInv(Initial(keys, maxConcurrent), evs, s, maxConcurrent, maxRetries);
  }

  predicate AllDone(s: State) { forall i :: 0 <= i < |s.threads| ==> s.threads[i].pc.Done? }

  /** Permits and the threads inside the guarded region always add up to MAX_CONCURRENT; when all
      threads have been joined every permit is back, and there is exactly one result for each thread
      that did not end as stopped. */
  lemma SemaphoreConserved(keys: seq<string>, maxConcurrent: nat, maxRetries: nat, s: State)
    requires Reachable(keys, maxConcurrent, maxRetries, s)
    ensures s.permits + Sum(s.threads, Holder) == maxConcurrent
    ensures |s.threads| == |keys|
    ensures forall i: nat :: i < |keys| ==> multiset(s.results)[i] == Recorded(s.threads[i])
    ensures |s.results| == Sum(s.threads, Recorded)
    ensures AllDone(s) ==> s.permits == maxConcurrent
  {
    ReachableInv(keys, maxConcurrent, maxRetries, s);
    forall i: nat | i < |keys|
      ensures multiset(s.results)[i] == Recorded(s.threads[i])
    {
      assert ThreadOk(s, i, maxConcurrent, maxRetries);
    }
    if AllDone(s) {
      SumConstant(s.threads, Holder, 0);
    }
  }

  ghost predicate CanStep(s: State) {
    exists e: Event :: !e.SetStop? && Enabled(s, e)
  }

  /** No deadlock: as long as a thread is unfinished some thread can take a step, if and only if there is
      at least one permit to begin with. */
  lemma NoDeadlockIff(keys: seq<string>, maxConcurrent: nat, maxRetries: nat, s: State)
    requires Reachable(keys, maxConcurrent, maxRetries, s) && !AllDone(s)
    ensures CanStep(s) <==> maxConcurrent >= 1
  {
    ReachableInv(keys, maxConcurrent, maxRetries, s);
    if maxConcurrent == 0 {
      forall e: Event | !e.SetStop?
        ensures !Enabled(s, e)
      {
        if e.id < |s.threads| {
          assert ThreadOk(s, e.id, maxConcurrent, maxRetries);
        }
      }
    } else if i: nat :| i < |s.threads| && Holder(s.threads[i]) == 1 {
      var e := match s.threads[i].pc
        case Looping => Check(i)
        case Retrying => Return(i, RetryStopped)
        case Delaying => EndDelay(i)
        case _ => Release(i);
      assert Enabled(s, e);
    } else {
      SumConstant(s.threads, Holder, 0);
      var i :| 0 <= i < |s.threads| && !s.threads[i].pc.Done?;
      assert Enabled(s, Acquire(i));
    }
  }

  function ThreadSteps(evs: seq<Event>): nat {
    if evs == [] then 0 else (if evs[0].SetStop? then 0 else 1) + ThreadSteps(evs[1..])
  }

  lemma StepLowersRank(s: State, e: Event, maxConcurrent: nat, maxRetries: nat)
    requires Inv(s, maxConcurrent, maxRetries) && Enabled(s, e) && !e.SetStop?
    ensures Sum(Next(s, e, maxRetries).threads, Rank(maxRetries)) < Sum(s.threads, Rank(maxRetries))
  {
    assert ThreadOk(s, e.id, maxConcurrent, maxRetries);
    MovedThreadOk(s, e, maxConcurrent, maxRetries);
    OneThreadMoves(s, e, maxRetries);
    SumUpdate(s.threads, e.id, Next(s, e, maxRetries).threads[e.id], Rank(maxRetries));
  }

  lemma {:induction false} StepsWithinRank(s: State, evs: seq<Event>, t: State, maxConcurrent: nat, maxRetries: nat)
    requires Inv(s, maxConcurrent, maxRetries) && Run(s, evs, maxRetries, t)
    ensures ThreadSteps(evs) + Sum(t.threads, Rank(maxRetries)) <= Sum(s.threads, Rank(maxRetries))
    decreases |evs|
  {
    if evs == [] {
    } else {
      NextKeepsInv(s, evs[0], maxConcurrent, maxRetries);
      StepsWithinRank(Next(s, evs[0], maxRetries), evs[1..], t, maxConcurrent, maxRetries);
      if !evs[0].SetStop? {
        StepLowersRank(s, evs[0], maxConcurrent, maxRetries);
      }
    }
  }

  /** The join terminates: n threads take at most n * (3 * REQUEUE_MAX_RETRIES + 7) steps in any schedule,
      whatever the stop event does.  With `NoDeadlockIff`, every schedule that keeps going ends with all
      threads done. */
  lemma EveryScheduleEnds(keys: seq<string>, evs: seq<Event>, t: State, maxConcurrent: nat, maxRetries: nat)
    requires Run(Initial(keys, maxConcurrent), evs, maxRetries, t)
    ensures ThreadSteps(evs) <= |keys| * (3 * maxRetries + 7)
  {
    InitialInv(keys, maxConcurrent, maxRetries);
    StepsWithinRank(Initial(keys, maxConcurrent), evs, t, maxConcurrent, maxRetries);
    SumConstant(Initial(keys, maxConcurrent).threads, Rank(maxRetries), 3 * maxRetries + 7);
  }

  /** The failing `smart_retry` returns of the threads with this key. */
  function FailuresOn(key: string, keys: seq<string>, evs: seq<Event>): nat {
    if evs == [] then 0
    else (if evs[0].Return? && evs[0].r.RetryFailed? && evs[0].id < |keys| && keys[evs[0].id] == key then 1 else 0)
         + FailuresOn(key, keys, evs[1..])
  }

  lemma {:induction false} FailuresAreCounted(key: string, keys: seq<string>, s: State, evs: seq<Event>, t: State, maxRetries: nat)
    requires |s.threads| == |keys| && forall i :: 0 <= i < |keys| ==> s.threads[i].key == keys[i]
    requires Run(s, evs, maxRetries, t)
    ensures Count(t.counts, key) == Count(s.counts, key) + FailuresOn(key, keys, evs)
    decreases |evs|
  {
    if evs == [] {
    } else {
      FailuresAreCounted(key, keys, Next(s, evs[0], maxRetries), evs[1..], t, maxRetries);
    }
  }

  /** d threads whose students share a key make at most REQUEUE_MAX_RETRIES + d failing `smart_retry`
      calls between them: the budget is shared, except that each thread may use up one call to find out. */
  lemma SharedBudget(key: string, keys: seq<string>, evs: seq<Event>, t: State, maxConcurrent: nat, maxRetries: nat)
    requires Run(Initial(keys, maxConcurrent), evs, maxRetries, t)
    ensures FailuresOn(key, keys, evs) <= maxRetries + Sum(t.threads, GivenUpOn(key))
    ensures Sum(t.threads, GivenUpOn(key)) <= Sum(t.threads, SharersOf(key))
    ensures Sum(t.threads, SharersOf(key)) == multiset(keys)[key]
  {
    InitialInv(keys, maxConcurrent, maxRetries);
    RunKeepsInv(Initial(keys, maxConcurrent), evs, t, maxConcurrent, maxRetries);
    FailuresAreCounted(key, keys, Initial(keys, maxConcurrent), evs, t, maxRetries);
    assert Budget(t, key, maxRetries);
    SumAtMost(t.threads, GivenUpOn(key), SharersOf(key));
    SharersCounted(key, keys, t.threads);
  }

  lemma {:induction false} SharersCounted(key: string, keys: seq<string>, ts: seq<Thread>)
    requires |ts| == |keys| && forall i :: 0 <= i < |keys| ==> ts[i].key == keys[i]
    ensures Sum(ts, SharersOf(key)) == multiset(keys)[key]
  {
    if ts == [] {
    } else {
      var n := |ts| - 1;
      SharersCounted(key, keys[..n], ts[..n]);
      assert keys == keys[..n] + [keys[n]];
    }
  }

  // ---------------------------------------------------------------------------
  // What becomes of each thread, read off the schedule.
  // ---------------------------------------------------------------------------

  /** The stop event after this schedule. */
  function StopSet(evs: seq<Event>): bool {
    if evs == [] then false
    else match evs[|evs| - 1]
      case SetStop(b) => b
      case _ => StopSet(evs[..|evs| - 1])
  }

  /** The failing return at `evs[j]` is thread `i`'s and one too many for its key. */
  predicate OneTooMany(keys: seq<string>, evs: seq<Event>, maxRetries: nat, i: nat, j: nat)
    requires i < |keys| && j < |evs|
  {
    evs[j] == Return(i, RetryFailed) && FailuresOn(keys[i], keys, evs[..j + 1]) > maxRetries
  }

  /** How thread `i` ends, decided by its own events: its last one before the release. */
  function Verdict(keys: seq<string>, evs: seq<Event>, maxRetries: nat, i: nat): Option<Outcome>
    requires i < |keys|
  {
    if evs == [] then None
    else
      var n := |evs| - 1;
      var before := Verdict(keys, evs[..n], maxRetries, i);
      match evs[n]
      case SetStop(_) => before
      case Acquire(id) => if id == i then None else before
      case Check(id) => if id != i then before else if StopSet(evs[..n]) then Some(Stopped) else None
      case Return(id, r) => (
        if id != i then before
        else match r
          case RetryStopped => Some(Stopped)
          case RetrySettled => Some(Settled)
          case RetryFailed => if FailuresOn(keys[i], keys, evs) > maxRetries then Some(GaveUp) else None
      )
      case EndDelay(id) => if id == i then None else before
      case StopInDelay(id) => if id == i then Some(Stopped) else before
      case Release(id) => before
  }

  function Ends(pc: Pc): Option<Outcome> {
    match pc
    case Leaving(o) => Some(o)
    case Done(o) => Some(o)
    case _ => None
  }

  lemma {:induction false} RunSplit(s: State, evs: seq<Event>, maxRetries: nat, t: State) returns (m: State)
    requires evs != [] && Run(s, evs, maxRetries, t)
    ensures var n := |evs| - 1;
            Run(s, evs[..n], maxRetries, m) && Enabled(m, evs[n]) && t == Next(m, evs[n], maxRetries)
    decreases |evs|
  {
    var n := |evs| - 1;
    if n == 0 {
      m := s;
      assert evs[1..] == [] && evs[..0] == [];
    } else {
      m := RunSplit(Next(s, evs[0], maxRetries), evs[1..], maxRetries, t);
      assert evs[1..][..n - 1] == evs[..n][1..];
    }
  }

  lemma {:induction false} FailuresSnoc(key: string, keys: seq<string>, evs: seq<Event>, e: Event)
    ensures FailuresOn(key, keys, evs + [e]) == FailuresOn(key, keys, evs) + FailuresOn(key, keys, [e])
  {
    if evs == [] {
      assert evs + [e] == [e];
    } else {
      FailuresSnoc(key, keys, evs[1..], e);
      assert (evs + [e])[1..] == evs[1..] + [e];
    }
  }

  lemma {:induction false} StopIsSet(keys: seq<string>, maxConcurrent: nat, evs: seq<Event>, maxRetries: nat, t: State)
    requires Run(Initial(keys, maxConcurrent), evs, maxRetries, t)
    ensures t.stop == StopSet(evs)
  {
    if evs == [] {
    } else {
      var m := RunSplit(Initial(keys, maxConcurrent), evs, maxRetries, t);
      StopIsSet(keys, maxConcurrent, evs[..|evs| - 1], maxRetries, m);
    }
  }

  lemma CountIsFailures(keys: seq<string>, maxConcurrent: nat, evs: seq<Event>, maxRetries: nat, t: State, key: string)
    requires Run(Initial(keys, maxConcurrent), evs, maxRetries, t)
    ensures Count(t.counts, key) == FailuresOn(key, keys, evs)
    ensures |t.threads| == |keys| && forall i :: 0 <= i < |keys| ==> t.threads[i].key == keys[i]
  {
    FailuresAreCounted(key, keys, Initial(keys, maxConcurrent), evs, t, maxRetries);
    InitialInv(keys, maxConcurrent, maxRetries);
    RunKeepsInv(Initial(keys, maxConcurrent), evs, t, maxConcurrent, maxRetries);
  }

  lemma FailureStep(keys: seq<string>, maxConcurrent: nat, evs: seq<Event>, maxRetries: nat, m: State, i: nat)
    requires evs != [] && i < |keys| && evs[|evs| - 1] == Return(i, RetryFailed)
    requires Run(Initial(keys, maxConcurrent), evs[..|evs| - 1], maxRetries, m)
    ensures |m.threads| == |keys| && m.threads[i].key == keys[i]
    ensures Count(m.counts, keys[i]) + 1 == FailuresOn(keys[i], keys, evs)
  {
    var n := |evs| - 1;
    CountIsFailures(keys, maxConcurrent, evs[..n], maxRetries, m, keys[i]);
    FailuresSnoc(keys[i], keys, evs[..n], evs[n]);
    assert evs == evs[..n] + [evs[n]];
    assert FailuresOn(keys[i], keys, [evs[n]]) == 1 by { assert [evs[n]][1..] == []; }
  }

  /** A thread is on its way out, or gone, exactly when its own events say so, and with exactly that outcome: stopped by
      a stopped return, a check with stop set or a stop in the delay; settled by a settled return; given up by a failure
      too many. */
  lemma {:induction false} OutcomeFromEvents(
    keys: seq<string>, maxConcurrent: nat, evs: seq<Event>, maxRetries: nat, t: State, i: nat)
    requires Run(Initial(keys, maxConcurrent), evs, maxRetries, t) && i < |keys|
    ensures |t.threads| == |keys| && Ends(t.threads[i].pc) == Verdict(keys, evs, maxRetries, i)
  {
    CountIsFailures(keys, maxConcurrent, evs, maxRetries, t, "");
    if evs == [] {
    } else {
      var n := |evs| - 1;
      var m := RunSplit(Initial(keys, maxConcurrent), evs, maxRetries, t);
      OutcomeFromEvents(keys, maxConcurrent, evs[..n], maxRetries, m, i);
      StopIsSet(keys, maxConcurrent, evs[..n], maxRetries, m);
      if evs[n] == Return(i, RetryFailed) {
        FailureStep(keys, maxConcurrent, evs, maxRetries, m, i);
      }
    }
  }

  /** `smart_retry` settled for this thread, or failed for it once too often. */
  ghost predicate HasReason(keys: seq<string>, evs: seq<Event>, maxRetries: nat, i: nat)
    requires i < |keys|
  {
    exists j :: 0 <= j < |evs| && (evs[j] == Return(i, RetrySettled) || OneTooMany(keys, evs, maxRetries, i, j))
  }

  lemma ReasonSnoc(keys: seq<string>, evs: seq<Event>, maxRetries: nat, i: nat)
    requires i < |keys| && evs != []
    ensures var n := |evs| - 1;
            HasReason(keys, evs, maxRetries, i) <==>
            HasReason(keys, evs[..n], maxRetries, i) || evs[n] == Return(i, RetrySettled)
            || (evs[n] == Return(i, RetryFailed) && FailuresOn(keys[i], keys, evs) > maxRetries)
  {
    var n := |evs| - 1;
    assert evs[..n + 1] == evs;
    forall j | 0 <= j < n
      ensures OneTooMany(keys, evs[..n], maxRetries, i, j) <==> OneTooMany(keys, evs, maxRetries, i, j)
    {
      assert evs[..n][..j + 1] == evs[..j + 1];
    }
    if j :| 0 <= j < n && (evs[..n][j] == Return(i, RetrySettled) || OneTooMany(keys, evs[..n], maxRetries, i, j)) {
      assert evs[j] == evs[..n][j];
    }
    if j :| 0 <= j < |evs| && (evs[j] == Return(i, RetrySettled) || OneTooMany(keys, evs, maxRetries, i, j)) {
      if j < n {
        assert evs[j] == evs[..n][j];
      }
    }
    if evs[n] == Return(i, RetrySettled) || OneTooMany(keys, evs, maxRetries, i, n) {
      assert HasReason(keys, evs, maxRetries, i);
    }
  }

  /** A thread's result is recorded exactly when the schedule holds a settled return for it, or a failing one too
      many. */
  lemma {:induction false} ResultFromEvents(
    keys: seq<string>, maxConcurrent: nat, evs: seq<Event>, maxRetries: nat, t: State, i: nat)
    requires Run(Initial(keys, maxConcurrent), evs, maxRetries, t) && i < |keys|
    ensures i in t.results <==> HasReason(keys, evs, maxRetries, i)
  {
    if evs == [] {
    } else {
      var n := |evs| - 1;
      var m := RunSplit(Initial(keys, maxConcurrent), evs, maxRetries, t);
      ResultFromEvents(keys, maxConcurrent, evs[..n], maxRetries, m, i);
      ReasonSnoc(keys, evs, maxRetries, i);
      if evs[n] == Return(i, RetryFailed) {
        FailureStep(keys, maxConcurrent, evs, maxRetries, m, i);
      }
    }
  }

  // ---------------------------------------------------------------------------
  // The thread's own code.
  // ---------------------------------------------------------------------------

  /** Every event of the schedule can happen when its turn comes. */
  ghost predicate Valid(s: State, evs: seq<Event>, maxRetries: nat)
    decreases |evs|
  {
    evs == [] || (Enabled(s, evs[0]) && Valid(Next(s, evs[0], maxRetries), evs[1..], maxRetries))
  }

  lemma {:induction false} RunAppend(s: State, evs: seq<Event>, e: Event, maxRetries: nat, t: State)
    requires Run(s, evs, maxRetries, t) && Enabled(t, e)
    ensures Run(s, evs + [e], maxRetries, Next(t, e, maxRetries))
    decreases |evs|
  {
    if evs == [] {
      assert [] + [e] == [e] && [e][1..] == [];
    } else {
      RunAppend(Next(s, evs[0], maxRetries), evs[1..], e, maxRetries, t);
      assert (evs + [e])[1..] == evs[1..] + [e];
    }
  }

  /** After `used` events of the schedule the state is `s`, and the rest can go on from there. */
  ghost predicate OnSchedule(origin: State, tape: seq<Event>, used: nat, maxRetries: nat, s: State) {
    used <= |tape| && Run(origin, tape[..used], maxRetries, s) && Valid(s, tape[used..], maxRetries)
  }

  lemma Advance(origin: State, tape: seq<Event>, used: nat, maxRetries: nat, s: State)
    requires OnSchedule(origin, tape, used, maxRetries, s) && used < |tape|
    ensures Enabled(s, tape[used]) && OnSchedule(origin, tape, used + 1, maxRetries, Next(s, tape[used], maxRetries))
  {
    assert tape[used..][1..] == tape[used + 1..];
    RunAppend(origin, tape[..used], tape[used], maxRetries, s);
    assert tape[..used + 1] == tape[..used] + [tape[used]];
  }

  /** The state shared by the threads: the semaphore, the counters, the results, the stop event, and where
      each thread is. */
  class WebRun {
    var permits: nat
    var threads: seq<Thread>
    var counts: map<string, nat>
    var results: seq<nat>
    var stop: bool

    function View(): State
      reads this
    {
      State(permits, threads, counts, results, stop)
    }

    method GoTo(id: nat, pc: Pc)
      requires id < |threads|
      modifies this`threads
      ensures View() == Move(old(View()), id, pc)
    {
      threads := threads[id := threads[id].(pc := pc)];
    }

    /** A step of another thread, or of whoever sets the stop event. */
    method Elsewhere(id: nat, e: Event, maxRetries: nat)
      requires Enabled(View(), e) && id < |threads| && (e.SetStop? || e.id != id)
      modifies this
      ensures View() == Next(old(View()), e, maxRetries)
      ensures |threads| == |old(threads)| && threads[id] == old(threads[id])
    {
      var t := Next(View(), e, maxRetries);
      permits, threads, counts, results, stop := t.permits, t.threads, t.counts, t.results, t.stop;
    }

    /** The other threads, and whoever sets the stop event, go on until it is this thread's turn. */
    method Yield(id: nat, tape: seq<Event>, start: nat, maxRetries: nat, ghost origin: State)
      returns (turn: bool, used: nat)
      requires id < |threads| && OnSchedule(origin, tape, start, maxRetries, View())
      modifies this
      ensures start <= used && OnSchedule(origin, tape, used, maxRetries, View())
      ensures |threads| == |old(threads)| && threads[id] == old(threads[id])
      ensures if turn then used < |tape| && !tape[used].SetStop? && tape[used].id == id && Enabled(View(), tape[used])
              else used == |tape|
    {
      used := start;
      while used < |tape| && (tape[used].SetStop? || tape[used].id != id)
        invariant start <= used && OnSchedule(origin, tape, used, maxRetries, View())
        invariant |threads| == |old(threads)| && threads[id] == old(threads[id])
        decreases |tape| - used
      {
        Advance(origin, tape, used, maxRetries, View());
        Elsewhere(id, tape[used], maxRetries);
        used := used + 1;
      }
      turn := used < |tape|;
      if turn {
        Advance(origin, tape, used, maxRetries, View());
      }
    }

    /** A failed `smart_retry`: count it, then give up or go to sleep. */
    method CountFailure(id: nat, maxRetries: nat) returns (givenUp: bool)
      requires id < |threads|
      modifies this
      ensures View() == Requeue(old(View()), id, maxRetries)
      ensures threads[id].pc == if givenUp then Leaving(GaveUp) else Delaying
    {
      var key := threads[id].key;
      threads := threads[id := threads[id].(fails := threads[id].fails + 1)];
      counts := counts[key := Count(counts, key) + 1];
      givenUp := counts[key] > maxRetries;
      if givenUp {
        results := results + [id];
      }
      GoTo(id, if givenUp then Leaving(GaveUp) else Delaying);
    }

    /** One round of the loop in `run_one`, from the stop check to the end of the requeue delay. */
    method Attempt(id: nat, tape: seq<Event>, start: nat, maxRetries: nat, ghost origin: State)
      returns (alive: bool, used: nat)
      requires id < |threads| && threads[id].pc.Looping?
      requires OnSchedule(origin, tape, start, maxRetries, View())
      modifies this
      ensures OnSchedule(origin, tape, used, maxRetries, View()) && |threads| == |old(threads)|
      ensures if alive then start < used && (threads[id].pc.Looping? || threads[id].pc.Leaving?) else used == |tape|
    {
      alive, used := Yield(id, tape, start, maxRetries, origin);
      if !alive { return; }
      Advance(origin, tape, used, maxRetries, View());
      used := used + 1;
      if stop {
        GoTo(id, Leaving(Stopped));
        return;
      }
      GoTo(id, Retrying);
      alive, used := FinishRetry(id, tape, used, maxRetries, origin);
    }

    /** `smart_retry` comes back: leave with or without a result, or count the failure and wait. */
    method FinishRetry(id: nat, tape: seq<Event>, start: nat, maxRetries: nat, ghost origin: State)
      returns (alive: bool, used: nat)
      requires id < |threads| && threads[id].pc.Retrying?
      requires OnSchedule(origin, tape, start, maxRetries, View())
      modifies this
      ensures start <= used && OnSchedule(origin, tape, used, maxRetries, View()) && |threads| == |old(threads)|
      ensures if alive then threads[id].pc.Looping? || threads[id].pc.Leaving? else used == |tape|
    {
      alive, used := Yield(id, tape, start, maxRetries, origin);
      if !alive { return; }
      Advance(origin, tape, used, maxRetries, View());
      var r := tape[used].r;
      used := used + 1;
      match r {
        case RetryStopped =>
          GoTo(id, Leaving(Stopped));
        case RetrySettled =>
          results := results + [id];
          GoTo(id, Leaving(Settled));
        case RetryFailed =>
          var givenUp := CountFailure(id, maxRetries);
          if !givenUp {
            alive, used := Delay(id, tape, used, maxRetries, origin);
          }
      }
    }

    method Delay(id: nat, tape: seq<Event>, start: nat, maxRetries: nat, ghost origin: State)
      returns (alive: bool, used: nat)
      requires id < |threads| && threads[id].pc.Delaying?
      requires OnSchedule(origin, tape, start, maxRetries, View())
      modifies this
      ensures start <= used && OnSchedule(origin, tape, used, maxRetries, View()) && |threads| == |old(threads)|
      ensures if alive then threads[id].pc.Looping? || threads[id].pc.Leaving? else used == |tape|
    {
      alive, used := Yield(id, tape, start, maxRetries, origin);
      if !alive { return; }
      Advance(origin, tape, used, maxRetries, View());
      GoTo(id, if tape[used].StopInDelay? then Leaving(Stopped) else Looping);
      used := used + 1;
    }

    method Acquire(id: nat, tape: seq<Event>, maxRetries: nat, ghost origin: State)
      returns (alive: bool, used: nat)
      requires id < |threads| && threads[id].pc.Waiting?
      requires OnSchedule(origin, tape, 0, maxRetries, View())
      modifies this
      ensures OnSchedule(origin, tape, used, maxRetries, View()) && |threads| == |old(threads)|
      ensures if alive then threads[id].pc.Looping? else used == |tape|
    {
      alive, used := Yield(id, tape, 0, maxRetries, origin);
      if !alive { return; }
      Advance(origin, tape, used, maxRetries, View());
      permits := permits - 1;
      GoTo(id, Looping);
      used := used + 1;
    }

    method Release(id: nat, tape: seq<Event>, start: nat, maxRetries: nat, ghost origin: State)
      returns (alive: bool, used: nat)
      requires id < |threads| && threads[id].pc.Leaving?
      requires OnSchedule(origin, tape, start, maxRetries, View())
      modifies this
      ensures OnSchedule(origin, tape, used, maxRetries, View()) && |threads| == |old(threads)|
      ensures if alive then threads[id].pc.Done? else used == |tape|
    {
      alive, used := Yield(id, tape, start, maxRetries, origin);
      if !alive { return; }
      Advance(origin, tape, used, maxRetries, View());
      permits := permits + 1;
      GoTo(id, Done(threads[id].pc.outcome));
      used := used + 1;
    }

    /** `run_one` of thread `id` under a schedule of all threads: it does its steps of the schedule, gives its
        permit back in the end, and is cut short only by the end of the schedule. */
    method RunOne(id: nat, tape: seq<Event>, maxRetries: nat) returns (finished: bool, used: nat)
      requires id < |threads| && threads[id].pc.Waiting? && Valid(View(), tape, maxRetries)
      modifies this
      ensures used <= |tape| && Run(old(View()), tape[..used], maxRetries, View())
      ensures |threads| == |old(threads)| && if finished then threads[id].pc.Done? else used == |tape|
    {
      ghost var origin := View();
      assert tape[0..] == tape && tape[..0] == [];
      finished, used := Acquire(id, tape, maxRetries, origin);
      if !finished { return; }
      while threads[id].pc.Looping?
        invariant |threads| == |old(threads)| && (threads[id].pc.Looping? || threads[id].pc.Leaving?)
        invariant OnSchedule(origin, tape, used, maxRetries, View())
        decreases |tape| - used
      {
        finished, used := Attempt(id, tape, used, maxRetries, origin);
        if !finished { return; }
      }
      finished, used := Release(id, tape, used, maxRetries, origin);
    }
  }
}
