/** The requeue counter of one key, shared by d threads, as the program handles it: read, write and test are three
    steps, with no lock around them but the semaphore around the whole thread.  Updates can be lost; what becomes of
    the shared budget?

    `StudentScheduler` takes the three as one step. */
module RequeueRace {

  /** `Loaded(n)`: `smart_retry` has failed and n has been read from the counter; `Testing`: n + 1 has been written;
      `Working`: everything else a thread does with its permit; `Left`: stopped, or done with a result. */
  datatype Pc = Waiting | Working | Loaded(n: nat) | Testing | GaveUp | Left

  /** `fails` counts the failed `smart_retry` calls of all threads; it is history. */
  datatype State = State(counter: nat, permits: nat, pcs: seq<Pc>, fails: nat)

  datatype Event = Acquire(id: nat) | Load(id: nat) | Store(id: nat) | Test(id: nat) | Leave(id: nat)

  function Initial(d: nat, maxConcurrent: nat): State { State(0, maxConcurrent, seq(d, _ => Waiting), 0) }

  predicate Enabled(s: State, e: Event) {
    e.id < |s.pcs| &&
    match e
    case Acquire(i) => s.pcs[i].Waiting? && s.permits > 0
    case Load(i) => s.pcs[i].Working?
    case Store(i) => s.pcs[i].Loaded?
    case Test(i) => s.pcs[i].Testing?
    case Leave(i) => s.pcs[i].Working?
  }

  function Next(s: State, e: Event, maxRetries: nat): State
    requires Enabled(s, e)
  {
    match e
    case Acquire(i) => s.(pcs := s.pcs[i := Working], permits := s.permits - 1)
    case Load(i) => s.(pcs := s.pcs[i := Loaded(s.counter)], fails := s.fails + 1)
    case Store(i) => s.(pcs := s.pcs[i := Testing], counter := s.pcs[i].n + 1)
    case Test(i) =>
      if s.counter > maxRetries then s.(pcs := s.pcs[i := GaveUp], permits := s.permits + 1)
      else s.(pcs := s.pcs[i := Working])
    case Leave(i) => s.(pcs := s.pcs[i := Left], permits := s.permits + 1)
  }

  ghost predicate Run(s: State, evs: seq<Event>, maxRetries: nat, t: State)
    decreases |evs|
  {
    if evs == [] then s == t
    else Enabled(s, evs[0]) && Run(Next(s, evs[0], maxRetries), evs[1..], maxRetries, t)
  }

  lemma {:induction false} RunConcat(s: State, a: seq<Event>, b: seq<Event>, maxRetries: nat, t: State, u: State)
    requires Run(s, a, maxRetries, t) && Run(t, b, maxRetries, u)
    ensures Run(s, a + b, maxRetries, u)
    decreases |a|
  {
    if a == [] {
      assert a + b == b;
    } else {
      RunConcat(Next(s, a[0], maxRetries), a[1..], b, maxRetries, t, u);
      assert (a + b)[1..] == a[1..] + b;
    }
  }

  // ---------------------------------------------------------------------------
  // Sums over the threads.
  // ---------------------------------------------------------------------------

  function Sum(pcs: seq<Pc>, f: Pc -> nat): nat {
    if pcs == [] then 0 else Sum(pcs[..|pcs| - 1], f) + f(pcs[|pcs| - 1])
  }

  lemma {:induction false} SumUpdate(pcs: seq<Pc>, i: nat, pc: Pc, f: Pc -> nat)
    requires i < |pcs|
    ensures Sum(pcs[i := pc], f) == Sum(pcs, f) - f(pcs[i]) + f(pc)
  {
    var n := |pcs| - 1;
    if i == n {
      assert pcs[i := pc][..n] == pcs[..n];
    } else {
      assert pcs[i := pc][..n] == pcs[..n][i := pc];
      SumUpdate(pcs[..n], i, pc, f);
    }
  }

  lemma {:induction false} SumAtMost(pcs: seq<Pc>, f: Pc -> nat, g: Pc -> nat)
    requires forall pc :: f(pc) <= g(pc)
    ensures Sum(pcs, f) <= Sum(pcs, g)
  {
    if pcs == [] {
    } else {
      SumAtMost(pcs[..|pcs| - 1], f, g);
    }
  }

  lemma {:induction false} SumAdd(pcs: seq<Pc>, f: Pc -> nat, g: Pc -> nat, h: Pc -> nat)
    requires forall pc :: f(pc) + g(pc) <= h(pc)
    ensures Sum(pcs, f) + Sum(pcs, g) <= Sum(pcs, h)
  {
    if pcs == [] {
    } else {
      SumAdd(pcs[..|pcs| - 1], f, g, h);
    }
  }

  lemma {:induction false} SumConstant(pcs: seq<Pc>, f: Pc -> nat, c: nat)
    requires forall pc :: pc in pcs ==> f(pc) == c
    ensures Sum(pcs, f) == |pcs| * c
  {
    if pcs == [] {
    } else {
      assert forall pc :: pc in pcs[..|pcs| - 1] ==> pc in pcs;
      SumConstant(pcs[..|pcs| - 1], f, c);
      assert |pcs| * c == (|pcs| - 1) * c + c;
    }
  }

  function One(pc: Pc): nat { 1 }

  function Waits(pc: Pc): nat { if pc.Waiting? then 1 else 0 }

  function Holds(pc: Pc): nat { if pc.Loaded? then 1 else 0 }

  function Counted(pc: Pc): nat { if pc.Testing? || pc.GaveUp? then 1 else 0 }

  function Active(pc: Pc): nat { if pc.Working? || pc.Loaded? || pc.Testing? then 1 else 0 }

  // ---------------------------------------------------------------------------
  // Without lost updates.
  // ---------------------------------------------------------------------------

  /** No update is lost: whoever writes, writes one more than the counter holds at that moment. */
  ghost predicate NothingLost(s: State, evs: seq<Event>, maxRetries: nat)
    decreases |evs|
  {
    evs == [] || (
      Enabled(s, evs[0]) && (evs[0].Store? ==> s.pcs[evs[0].id].n == s.counter) &&
      NothingLost(Next(s, evs[0], maxRetries), evs[1..], maxRetries))
  }

  ghost predicate CleanInv(s: State, maxRetries: nat) {
    s.fails == s.counter + Sum(s.pcs, Holds) && s.counter <= maxRetries + Sum(s.pcs, Counted)
  }

  lemma CleanStep(s: State, e: Event, maxRetries: nat)
    requires CleanInv(s, maxRetries) && Enabled(s, e) && (e.Store? ==> s.pcs[e.id].n == s.counter)
    ensures CleanInv(Next(s, e, maxRetries), maxRetries)
  {
    SumUpdate(s.pcs, e.id, Next(s, e, maxRetries).pcs[e.id], Holds);
    SumUpdate(s.pcs, e.id, Next(s, e, maxRetries).pcs[e.id], Counted);
  }

  lemma {:induction false} CleanRun(s: State, evs: seq<Event>, maxRetries: nat, t: State)
    requires CleanInv(s, maxRetries) && Run(s, evs, maxRetries, t) && NothingLost(s, evs, maxRetries)
    ensures CleanInv(t, maxRetries) && |t.pcs| == |s.pcs|
    decreases |evs|
  {
    if evs == [] {
    } else {
      CleanStep(s, evs[0], maxRetries);
      CleanRun(Next(s, evs[0], maxRetries), evs[1..], maxRetries, t);
    }
  }

  /** As long as no update is lost, d threads fail at most REQUEUE_MAX_RETRIES + d times between them. */
  lemma BudgetWithoutLoss(d: nat, maxConcurrent: nat, evs: seq<Event>, maxRetries: nat, t: State)
    requires Run(Initial(d, maxConcurrent), evs, maxRetries, t)
    requires NothingLost(Initial(d, maxConcurrent), evs, maxRetries)
    ensures t.fails <= maxRetries + d
  {
    SumConstant(Initial(d, maxConcurrent).pcs, Holds, 0);
    SumConstant(Initial(d, maxConcurrent).pcs, Counted, 0);
    CleanRun(Initial(d, maxConcurrent), evs, maxRetries, t);
    SumAdd(t.pcs, Holds, Counted, One);
    SumConstant(t.pcs, One, 1);
  }

  // ---------------------------------------------------------------------------
  // Pascal's triangle.
  // ---------------------------------------------------------------------------

  /** The binomial coefficient "v + k over k". */
  function Choose(k: nat, v: nat): (n: nat)
    ensures n >= 1
  {
    if k == 0 || v == 0 then 1 else Choose(k - 1, v) + Choose(k, v - 1)
  }

  lemma {:induction false} ChooseGrows(j: nat, k: nat, v: nat)
    requires j <= k
    ensures Choose(j, v) <= Choose(k, v)
    decreases k - j
  {
    if j == k {
    } else {
      ChooseGrows(j, k - 1, v);
    }
  }

  /** The sum of Choose(0, v), ..., Choose(k - 1, v). */
  function Row(k: nat, v: nat): nat { if k == 0 then 0 else Choose(k - 1, v + 1) }

  lemma RowStep(k: nat, v: nat)
    ensures Row(k + 1, v) == Row(k, v) + Choose(k, v)
  {
  }

  lemma {:induction false} RowGrows(j: nat, k: nat, v: nat)
    requires j <= k
    ensures Row(j, v) <= Row(k, v)
    decreases k - j
  {
    if j == k {
    } else {
      RowGrows(j, k - 1, v);
      RowStep(k - 1, v);
    }
  }

  /** The sum of Row(k, 0), ..., Row(k, v - 1). */
  function Rows(k: nat, v: nat): nat { if v == 0 then 0 else Rows(k, v - 1) + Row(k, v - 1) }

  lemma {:induction false} RowsAreChoose(k: nat, v: nat)
    ensures Rows(k, v) == Choose(k, v) - 1
  {
    if v == 0 {
    } else {
      RowsAreChoose(k, v - 1);
    }
  }

  // ---------------------------------------------------------------------------
  // How many failures a state still allows.
  // ---------------------------------------------------------------------------

  /** How far the counter is below giving up. */
  function Level(counter: nat, maxRetries: nat): nat { if counter > maxRetries then 0 else maxRetries + 1 - counter }

  /** The level the counter falls to at the latest when the thread has written once more; a thread about to be turned
      away has none. */
  function Value(pc: Pc, level: nat, maxRetries: nat): int {
    match pc
    case Working => if level == 0 then 0 else level - 1
    case Testing => level - 1
    case Loaded(n) => Level(n + 1, maxRetries)
    case _ => -1
  }

  function BelowAt(v: nat, level: nat, maxRetries: nat): Pc -> nat {
    (pc: Pc) => if Active(pc) == 1 && Value(pc, level, maxRetries) < v then 1 else 0
  }

  /** Waiting threads that have a permit for the taking count as working ones. */
  function Entering(s: State): nat {
    var q := Sum(s.pcs, Waits);
    if q < s.permits then q else s.permits
  }

  function InPlay(s: State): nat { Sum(s.pcs, Active) + Entering(s) }

  function Below(s: State, v: nat, maxRetries: nat): nat {
    var level := Level(s.counter, maxRetries);
    Sum(s.pcs, BelowAt(v, level, maxRetries)) + if Value(Working, level, maxRetries) < v then Entering(s) else 0
  }

  /** What the threads whose place is not below `v` contribute at that place. */
  function Term(s: State, v: nat, maxRetries: nat): int { Row(InPlay(s), v) - Row(Below(s, v, maxRetries), v) }

  function Weight(s: State, v: nat, maxRetries: nat): int {
    if v == 0 then 0 else Weight(s, v - 1, maxRetries) + Term(s, v - 1, maxRetries)
  }

  /** An upper bound on the failures to come: it drops by one with each, and never rises. */
  function Potential(s: State, maxRetries: nat): int {
    Sum(s.pcs, Waits) - Entering(s) - Sum(s.pcs, Holds) + Weight(s, maxRetries + 1, maxRetries)
  }

  lemma BelowInPlay(s: State, v: nat, maxRetries: nat)
    ensures Below(s, v, maxRetries) <= InPlay(s)
  {
    SumAtMost(s.pcs, BelowAt(v, Level(s.counter, maxRetries), maxRetries), Active);
  }

  lemma {:induction false} WeightPositive(s: State, v: nat, maxRetries: nat)
    ensures Weight(s, v, maxRetries) >= if v == 0 then 0 else InPlay(s) - Below(s, 0, maxRetries)
  {
    if v == 0 {
    } else {
      WeightPositive(s, v - 1, maxRetries);
      BelowInPlay(s, v - 1, maxRetries);
      RowGrows(Below(s, v - 1, maxRetries), InPlay(s), v - 1);
      if v == 1 {
        RowIsLength(InPlay(s));
        RowIsLength(Below(s, 0, maxRetries));
      } else {
        BelowInPlay(s, 0, maxRetries);
      }
    }
  }

  lemma {:induction false} RowIsLength(k: nat)
    ensures Row(k, 0) == k
  {
    if k == 0 {
    } else {
      RowIsLength(k - 1);
      RowStep(k - 1, 0);
    }
  }

  lemma PotentialPositive(s: State, maxRetries: nat)
    ensures Potential(s, maxRetries) >= 0
  {
    WeightPositive(s, maxRetries + 1, maxRetries);
    SumAdd(s.pcs, BelowAt(0, Level(s.counter, maxRetries), maxRetries), Holds, Active);
  }

  lemma {:induction false} WeightFalls(s: State, t: State, v: nat, maxRetries: nat)
    requires forall w: nat :: w < v ==> Term(t, w, maxRetries) <= Term(s, w, maxRetries)
    ensures Weight(t, v, maxRetries) <= Weight(s, v, maxRetries)
  {
    if v == 0 {
    } else {
      WeightFalls(s, t, v - 1, maxRetries);
    }
  }

  /** The place of the stepping thread in the sums. */
  lemma SumsAfter(s: State, e: Event, maxRetries: nat)
    requires Enabled(s, e)
    ensures var t, i := Next(s, e, maxRetries), e.id;
            && Sum(t.pcs, Waits) == Sum(s.pcs, Waits) - Waits(s.pcs[i]) + Waits(t.pcs[i])
            && Sum(t.pcs, Active) == Sum(s.pcs, Active) - Active(s.pcs[i]) + Active(t.pcs[i])
            && Sum(t.pcs, Holds) == Sum(s.pcs, Holds) - Holds(s.pcs[i]) + Holds(t.pcs[i])
            && t.pcs == s.pcs[i := t.pcs[i]]
  {
    var t := Next(s, e, maxRetries);
    SumUpdate(s.pcs, e.id, t.pcs[e.id], Waits);
    SumUpdate(s.pcs, e.id, t.pcs[e.id], Active);
    SumUpdate(s.pcs, e.id, t.pcs[e.id], Holds);
  }

  lemma BelowAfter(s: State, e: Event, w: nat, maxRetries: nat)
    requires Enabled(s, e) && !e.Store?
    ensures var t, f := Next(s, e, maxRetries), BelowAt(w, Level(s.counter, maxRetries), maxRetries);
            && t.counter == s.counter
            && Sum(t.pcs, f) == Sum(s.pcs, f) - f(s.pcs[e.id]) + f(t.pcs[e.id])
  {
    SumUpdate(s.pcs, e.id, Next(s, e, maxRetries).pcs[e.id], BelowAt(w, Level(s.counter, maxRetries), maxRetries));
  }

  /** Steps that leave every value in its place. */
  lemma QuietStep(s: State, e: Event, maxRetries: nat)
    requires Enabled(s, e) && (e.Acquire? || e.Load? || (e.Test? && s.counter <= maxRetries))
    ensures Potential(Next(s, e, maxRetries), maxRetries) + (if e.Load? then 1 else 0) <= Potential(s, maxRetries)
  {
    var t := Next(s, e, maxRetries);
    SumsAfter(s, e, maxRetries);
    forall w: nat
      ensures Term(t, w, maxRetries) == Term(s, w, maxRetries)
    {
      QuietTerm(s, e, w, maxRetries);
    }
    WeightFalls(s, t, maxRetries + 1, maxRetries);
  }

  lemma QuietTerm(s: State, e: Event, w: nat, maxRetries: nat)
    requires Enabled(s, e) && (e.Acquire? || e.Load? || (e.Test? && s.counter <= maxRetries))
    ensures Term(Next(s, e, maxRetries), w, maxRetries) == Term(s, w, maxRetries)
  {
    SumsAfter(s, e, maxRetries);
    BelowAfter(s, e, w, maxRetries);
  }

  /** One out of n goes: what it had in a row was no more than the last entry. */
  lemma OneLess(n: nat, g: nat, v: nat)
    requires g <= n && n > 0
    ensures Row(n - 1, v) - Row(if g == 0 then 0 else g - 1, v) <= Row(n, v) - Row(g, v)
  {
    RowStep(n - 1, v);
    if g > 0 {
      RowStep(g - 1, v);
      ChooseGrows(g - 1, n - 1, v);
    }
  }

  lemma TermGone(s: State, e: Event, w: nat, maxRetries: nat)
    requires Enabled(s, e) && (e.Leave? || (e.Test? && s.counter > maxRetries)) && Sum(s.pcs, Waits) <= s.permits
    ensures Term(Next(s, e, maxRetries), w, maxRetries) <= Term(s, w, maxRetries)
  {
    SumsAfter(s, e, maxRetries);
    BelowAfter(s, e, w, maxRetries);
    BelowInPlay(s, w, maxRetries);
    OneLess(InPlay(s), Below(s, w, maxRetries), w);
    RowGrows(InPlay(s) - 1, InPlay(s), w);
  }

  /** A thread goes and no waiting one takes its place. */
  lemma GoneForGood(s: State, e: Event, maxRetries: nat)
    requires Enabled(s, e) && (e.Leave? || (e.Test? && s.counter > maxRetries)) && Sum(s.pcs, Waits) <= s.permits
    ensures Potential(Next(s, e, maxRetries), maxRetries) <= Potential(s, maxRetries)
  {
    var t := Next(s, e, maxRetries);
    SumsAfter(s, e, maxRetries);
    forall w: nat
      ensures Term(t, w, maxRetries) <= Term(s, w, maxRetries)
    {
      TermGone(s, e, w, maxRetries);
    }
    WeightFalls(s, t, maxRetries + 1, maxRetries);
  }

  /** A thread leaves and a waiting one takes its place. */
  lemma LeftAndReplaced(s: State, e: Event, maxRetries: nat)
    requires Enabled(s, e) && e.Leave? && Sum(s.pcs, Waits) > s.permits
    ensures Potential(Next(s, e, maxRetries), maxRetries) <= Potential(s, maxRetries)
  {
    var t := Next(s, e, maxRetries);
    SumsAfter(s, e, maxRetries);
    forall w: nat
      ensures Term(t, w, maxRetries) == Term(s, w, maxRetries)
    {
      BelowAfter(s, e, w, maxRetries);
    }
    WeightFalls(s, t, maxRetries + 1, maxRetries);
  }

  lemma {:induction false} WeightRises(s: State, t: State, v: nat, maxRetries: nat)
    requires InPlay(t) == InPlay(s) && v >= 1 && Below(t, 0, maxRetries) + 1 == Below(s, 0, maxRetries)
    requires forall w: nat :: w >= 1 ==> Below(t, w, maxRetries) == Below(s, w, maxRetries)
    ensures Weight(t, v, maxRetries) == Weight(s, v, maxRetries) + 1
  {
    if v == 1 {
      RowStep(Below(t, 0, maxRetries), 0);
      assert Weight(t, 0, maxRetries) == 0 && Weight(s, 0, maxRetries) == 0;
    } else {
      WeightRises(s, t, v - 1, maxRetries);
    }
  }

  /** A thread gives up and a waiting one takes its place: that one may fail once. */
  lemma GaveUpAndReplaced(s: State, e: Event, maxRetries: nat)
    requires Enabled(s, e) && e.Test? && s.counter > maxRetries && Sum(s.pcs, Waits) > s.permits
    ensures Potential(Next(s, e, maxRetries), maxRetries) <= Potential(s, maxRetries)
  {
    var t := Next(s, e, maxRetries);
    SumsAfter(s, e, maxRetries);
    BelowAfter(s, e, 0, maxRetries);
    forall w: nat | w >= 1
      ensures Below(t, w, maxRetries) == Below(s, w, maxRetries)
    {
      BelowAfter(s, e, w, maxRetries);
    }
    WeightRises(s, t, maxRetries + 1, maxRetries);
  }

  // The counter is written.

  lemma BelowWritten(s: State, i: nat, w: nat, maxRetries: nat)
    requires Enabled(s, Store(i))
    ensures var t := Next(s, Store(i), maxRetries);
            var f := BelowAt(w, Level(t.counter, maxRetries), maxRetries);
            Sum(t.pcs, f) == Sum(s.pcs, f) - f(s.pcs[i]) + f(Testing)
  {
    var t := Next(s, Store(i), maxRetries);
    SumUpdate(s.pcs, i, Testing, BelowAt(w, Level(t.counter, maxRetries), maxRetries));
  }

  lemma BelowMoved(s: State, a: nat, b: nat, w: nat, maxRetries: nat)
    ensures a <= b ==> Sum(s.pcs, BelowAt(w, b, maxRetries)) <= Sum(s.pcs, BelowAt(w, a, maxRetries))
    ensures a < b && w >= b ==> Sum(s.pcs, BelowAt(w, a, maxRetries)) <= Sum(s.pcs, BelowAt(w, b, maxRetries))
  {
    if a <= b {
      SumAtMost(s.pcs, BelowAt(w, b, maxRetries), BelowAt(w, a, maxRetries));
    }
    if a < b && w >= b {
      SumAtMost(s.pcs, BelowAt(w, a, maxRetries), BelowAt(w, b, maxRetries));
    }
  }

  /** Every place stays or falls, and the writing thread's own place falls by one. */
  lemma WrittenDown(s: State, i: nat, w: nat, maxRetries: nat)
    requires Enabled(s, Store(i)) && Level(s.pcs[i].n + 1, maxRetries) <= Level(s.counter, maxRetries)
    ensures var t, own := Next(s, Store(i), maxRetries), Level(s.pcs[i].n + 1, maxRetries);
            Below(t, w, maxRetries) >= Below(s, w, maxRetries) + if w == own then 1 else 0
  {
    var t, own := Next(s, Store(i), maxRetries), Level(s.pcs[i].n + 1, maxRetries);
    SumsAfter(s, Store(i), maxRetries);
    BelowWritten(s, i, w, maxRetries);
    BelowMoved(s, own, Level(s.counter, maxRetries), w, maxRetries);
  }

  lemma TermWrittenDown(s: State, i: nat, w: nat, maxRetries: nat)
    requires Enabled(s, Store(i)) && Level(s.pcs[i].n + 1, maxRetries) <= Level(s.counter, maxRetries)
    ensures var t, own := Next(s, Store(i), maxRetries), Level(s.pcs[i].n + 1, maxRetries);
            Term(t, w, maxRetries) + (if w == own then 1 else 0) <= Term(s, w, maxRetries)
  {
    var t, own := Next(s, Store(i), maxRetries), Level(s.pcs[i].n + 1, maxRetries);
    SumsAfter(s, Store(i), maxRetries);
    WrittenDown(s, i, w, maxRetries);
    RowGrows(Below(s, w, maxRetries) + if w == own then 1 else 0, Below(t, w, maxRetries), w);
    RowStep(Below(s, w, maxRetries), w);
  }

  lemma {:induction false} WeightWrittenDown(s: State, t: State, own: nat, v: nat, maxRetries: nat)
    requires forall w: nat :: Term(t, w, maxRetries) + (if w == own then 1 else 0) <= Term(s, w, maxRetries)
    ensures Weight(t, v, maxRetries) + (if own < v then 1 else 0) <= Weight(s, v, maxRetries)
  {
    if v == 0 {
    } else {
      WeightWrittenDown(s, t, own, v - 1, maxRetries);
    }
  }

  /** The counter is thrown back.  Nothing that was below the writer's place was above it. */
  lemma BelowGrows(s: State, v: nat, w: nat, maxRetries: nat)
    requires v <= w
    ensures Below(s, v, maxRetries) <= Below(s, w, maxRetries)
  {
    var l := Level(s.counter, maxRetries);
    SumAtMost(s.pcs, BelowAt(v, l, maxRetries), BelowAt(w, l, maxRetries));
  }

  lemma TermBelowWriter(s: State, i: nat, w: nat, maxRetries: nat)
    requires Enabled(s, Store(i)) && w < Level(s.pcs[i].n + 1, maxRetries)
    ensures var own := Level(s.pcs[i].n + 1, maxRetries);
            Term(Next(s, Store(i), maxRetries), w, maxRetries) <= Term(s, w, maxRetries) + Row(Below(s, own, maxRetries), w)
  {
    var own := Level(s.pcs[i].n + 1, maxRetries);
    SumsAfter(s, Store(i), maxRetries);
    BelowGrows(s, w, own, maxRetries);
    RowGrows(Below(s, w, maxRetries), Below(s, own, maxRetries), w);
  }

  lemma {:induction false} WeightBelowWriter(s: State, i: nat, v: nat, maxRetries: nat)
    requires Enabled(s, Store(i)) && v <= Level(s.pcs[i].n + 1, maxRetries)
    ensures var t, own := Next(s, Store(i), maxRetries), Level(s.pcs[i].n + 1, maxRetries);
            Weight(t, v, maxRetries) <= Weight(s, v, maxRetries) + Rows(Below(s, own, maxRetries), v)
  {
    if v == 0 {
    } else {
      WeightBelowWriter(s, i, v - 1, maxRetries);
      TermBelowWriter(s, i, v - 1, maxRetries);
    }
  }

  /** From the writer's place on. */
  lemma ThrownBack(s: State, i: nat, w: nat, maxRetries: nat)
    requires Enabled(s, Store(i)) && Level(s.pcs[i].n + 1, maxRetries) > Level(s.counter, maxRetries)
    requires w >= Level(s.pcs[i].n + 1, maxRetries)
    ensures var t, own := Next(s, Store(i), maxRetries), Level(s.pcs[i].n + 1, maxRetries);
            Below(t, w, maxRetries) == Below(s, w, maxRetries) + if w == own then 1 else 0
  {
    var own := Level(s.pcs[i].n + 1, maxRetries);
    SumsAfter(s, Store(i), maxRetries);
    BelowWritten(s, i, w, maxRetries);
    BelowMoved(s, Level(s.counter, maxRetries), own, w, maxRetries);
  }

  lemma TermThrownBack(s: State, i: nat, w: nat, maxRetries: nat)
    requires Enabled(s, Store(i)) && Level(s.pcs[i].n + 1, maxRetries) > Level(s.counter, maxRetries)
    requires w >= Level(s.pcs[i].n + 1, maxRetries)
    ensures var own := Level(s.pcs[i].n + 1, maxRetries);
            Term(Next(s, Store(i), maxRetries), w, maxRetries)
            == Term(s, w, maxRetries) - if w == own then Choose(Below(s, own, maxRetries), own) else 0
  {
    SumsAfter(s, Store(i), maxRetries);
    ThrownBack(s, i, w, maxRetries);
    RowStep(Below(s, w, maxRetries), w);
  }

  lemma {:induction false} WeightThrownBack(s: State, i: nat, v: nat, maxRetries: nat)
    requires Enabled(s, Store(i)) && Level(s.pcs[i].n + 1, maxRetries) > Level(s.counter, maxRetries)
    requires v > Level(s.pcs[i].n + 1, maxRetries)
    ensures Weight(Next(s, Store(i), maxRetries), v, maxRetries) + 1 <= Weight(s, v, maxRetries)
  {
    var own := Level(s.pcs[i].n + 1, maxRetries);
    TermThrownBack(s, i, v - 1, maxRetries);
    if v == own + 1 {
      WeightBelowWriter(s, i, own, maxRetries);
      RowsAreChoose(Below(s, own, maxRetries), own);
    } else {
      WeightThrownBack(s, i, v - 1, maxRetries);
    }
  }

  lemma StoreStep(s: State, i: nat, maxRetries: nat)
    requires Enabled(s, Store(i))
    ensures Potential(Next(s, Store(i), maxRetries), maxRetries) <= Potential(s, maxRetries)
  {
    SumsAfter(s, Store(i), maxRetries);
    if Level(s.pcs[i].n + 1, maxRetries) <= Level(s.counter, maxRetries) {
      var t, own := Next(s, Store(i), maxRetries), Level(s.pcs[i].n + 1, maxRetries);
      forall w: nat
        ensures Term(t, w, maxRetries) + (if w == own then 1 else 0) <= Term(s, w, maxRetries)
      {
        TermWrittenDown(s, i, w, maxRetries);
      }
      WeightWrittenDown(s, t, own, maxRetries + 1, maxRetries);
    } else {
      WeightThrownBack(s, i, maxRetries + 1, maxRetries);
    }
  }

  lemma PotentialStep(s: State, e: Event, maxRetries: nat)
    requires Enabled(s, e)
    ensures var t := Next(s, e, maxRetries);
            Potential(t, maxRetries) + t.fails <= Potential(s, maxRetries) + s.fails
  {
    if e.Store? {
      StoreStep(s, e.id, maxRetries);
    } else if e.Acquire? || e.Load? || (e.Test? && s.counter <= maxRetries) {
      QuietStep(s, e, maxRetries);
    } else if Sum(s.pcs, Waits) <= s.permits {
      GoneForGood(s, e, maxRetries);
    } else if e.Leave? {
      LeftAndReplaced(s, e, maxRetries);
    } else {
      GaveUpAndReplaced(s, e, maxRetries);
    }
  }

  lemma {:induction false} PotentialOverRun(s: State, evs: seq<Event>, maxRetries: nat, t: State)
    requires Run(s, evs, maxRetries, t)
    ensures Potential(t, maxRetries) + t.fails <= Potential(s, maxRetries) + s.fails
    decreases |evs|
  {
    if evs == [] {
    } else {
      PotentialStep(s, evs[0], maxRetries);
      PotentialOverRun(Next(s, evs[0], maxRetries), evs[1..], maxRetries, t);
    }
  }

  // ---------------------------------------------------------------------------
  // The worst case.
  // ---------------------------------------------------------------------------

  function AtOnce(d: nat, maxConcurrent: nat): nat { if d < maxConcurrent then d else maxConcurrent }

  /** With k threads at once: "R + 1 + k over k", less one, and one failure for each of the other threads. */
  function WorstCase(d: nat, maxConcurrent: nat, maxRetries: nat): nat {
    var k := AtOnce(d, maxConcurrent);
    Choose(k, maxRetries + 1) - 1 + (d - k)
  }

  lemma {:induction false} InitialWeight(s: State, v: nat, maxRetries: nat)
    requires v <= maxRetries + 1 && forall w: nat :: w <= maxRetries ==> Below(s, w, maxRetries) == 0
    ensures Weight(s, v, maxRetries) == Rows(InPlay(s), v)
  {
    if v == 0 {
    } else {
      InitialWeight(s, v - 1, maxRetries);
    }
  }

  lemma InitialPotential(d: nat, maxConcurrent: nat, maxRetries: nat)
    ensures Potential(Initial(d, maxConcurrent), maxRetries) == WorstCase(d, maxConcurrent, maxRetries)
  {
    var s := Initial(d, maxConcurrent);
    SumConstant(s.pcs, Waits, 1);
    SumConstant(s.pcs, Active, 0);
    SumConstant(s.pcs, Holds, 0);
    forall w: nat | w <= maxRetries
      ensures Below(s, w, maxRetries) == 0
    {
      SumConstant(s.pcs, BelowAt(w, Level(s.counter, maxRetries), maxRetries), 0);
    }
    InitialWeight(s, maxRetries + 1, maxRetries);
    RowsAreChoose(InPlay(s), maxRetries + 1);
  }

  /** No schedule has more failures than that. */
  lemma AtMostWorstCase(d: nat, maxConcurrent: nat, evs: seq<Event>, maxRetries: nat, t: State)
    requires Run(Initial(d, maxConcurrent), evs, maxRetries, t)
    ensures t.fails <= WorstCase(d, maxConcurrent, maxRetries)
  {
    InitialPotential(d, maxConcurrent, maxRetries);
    PotentialOverRun(Initial(d, maxConcurrent), evs, maxRetries, t);
    PotentialPositive(t, maxRetries);
  }

  // A schedule that gets there.

  lemma OneEvent(s: State, e: Event, maxRetries: nat)
    requires Enabled(s, e)
    ensures Run(s, [e], maxRetries, Next(s, e, maxRetries))
  {
  }

  lemma RunThen(s: State, evs: seq<Event>, maxRetries: nat, t: State, e: Event)
    requires Run(s, evs, maxRetries, t) && Enabled(t, e)
    ensures Run(s, evs + [e], maxRetries, Next(t, e, maxRetries))
  {
    OneEvent(t, e, maxRetries);
    RunConcat(s, evs, [e], maxRetries, t, Next(t, e, maxRetries));
  }

  predicate Free(pc: Pc) { pc.Working? || pc.Testing? }

  ghost predicate AllFree(s: State, k: nat) { k <= |s.pcs| && forall j :: 0 <= j < k ==> Free(s.pcs[j]) }

  ghost predicate AllTesting(s: State, k: nat) { k <= |s.pcs| && forall j :: 0 <= j < k ==> s.pcs[j].Testing? }

  ghost predicate SameFrom(s: State, t: State, k: nat) {
    |t.pcs| == |s.pcs| && t.permits == s.permits && forall j :: k <= j < |s.pcs| ==> t.pcs[j] == s.pcs[j]
  }

  /** A free thread fails and holds on to what it has read. */
  lemma FailAndHold(s: State, i: nat, maxRetries: nat) returns (evs: seq<Event>, t: State)
    requires i < |s.pcs| && Free(s.pcs[i]) && s.counter <= maxRetries
    ensures Run(s, evs, maxRetries, t)
    ensures t == s.(pcs := s.pcs[i := Loaded(s.counter)], fails := s.fails + 1)
  {
    if s.pcs[i].Testing? {
      var a := Next(s, Test(i), maxRetries);
      OneEvent(s, Test(i), maxRetries);
      RunThen(s, [Test(i)], maxRetries, a, Load(i));
      evs, t := [Test(i)] + [Load(i)], Next(a, Load(i), maxRetries);
      assert t.pcs == s.pcs[i := Loaded(s.counter)];
    } else {
      OneEvent(s, Load(i), maxRetries);
      evs, t := [Load(i)], Next(s, Load(i), maxRetries);
    }
  }

  /** The last of k free threads fails and holds on, the others use up the level, and it throws the counter back to the
      next one. */
  lemma {:induction false} OneRound(s: State, k: nat, maxRetries: nat) returns (evs: seq<Event>, t: State)
    requires AllFree(s, k) && k >= 1 && s.counter <= maxRetries
    ensures Run(s, evs, maxRetries, t) && SameFrom(s, t, k) && AllTesting(t, k)
    ensures t.counter == s.counter + 1
    ensures t.fails == s.fails + Choose(k - 1, Level(s.counter, maxRetries))
    decreases Level(s.counter, maxRetries), k, 0
  {
    var i := k - 1;
    var first, a := FailAndHold(s, i, maxRetries);
    var second, b := UseUp(a, i, maxRetries);
    RunConcat(s, first, second, maxRetries, a, b);
    assert b.pcs[i] == Loaded(s.counter);
    RunThen(s, first + second, maxRetries, b, Store(i));
    evs, t := first + second + [Store(i)], Next(b, Store(i), maxRetries);
  }

  /** k free threads use up a level, and then all of them the next one. */
  lemma {:induction false} UseUp(s: State, k: nat, maxRetries: nat) returns (evs: seq<Event>, t: State)
    requires AllFree(s, k)
    ensures Run(s, evs, maxRetries, t) && SameFrom(s, t, k) && AllFree(t, k)
    ensures t.fails == s.fails + Choose(k, Level(s.counter, maxRetries)) - 1
    ensures k >= 1 ==> Level(t.counter, maxRetries) == 0
    ensures if Level(s.counter, maxRetries) == 0 then t == s else AllTesting(t, k)
    decreases Level(s.counter, maxRetries), k, 1
  {
    if k == 0 || Level(s.counter, maxRetries) == 0 {
      evs, t := [], s;
    } else {
      var first, a := OneRound(s, k, maxRetries);
      evs, t := UseUp(a, k, maxRetries);
      RunConcat(s, first, evs, maxRetries, a, t);
      evs := first + evs;
    }
  }

  ghost predicate AllWaiting(s: State, k: nat) { forall j :: k <= j < |s.pcs| ==> s.pcs[j].Waiting? }

  lemma {:induction false} AllEnter(s: State, k: nat, n: nat, maxRetries: nat) returns (evs: seq<Event>, t: State)
    requires k <= n <= |s.pcs| && AllFree(s, k) && AllWaiting(s, k) && s.permits >= n - k
    ensures Run(s, evs, maxRetries, t) && AllFree(t, n) && AllWaiting(t, n)
    ensures |t.pcs| == |s.pcs| && t.counter == s.counter && t.fails == s.fails && t.permits == s.permits - (n - k)
    decreases n - k
  {
    if k == n {
      evs, t := [], s;
    } else {
      var a := Next(s, Acquire(k), maxRetries);
      OneEvent(s, Acquire(k), maxRetries);
      evs, t := AllEnter(a, k + 1, n, maxRetries);
      RunConcat(s, [Acquire(k)], evs, maxRetries, a, t);
      evs := [Acquire(k)] + evs;
    }
  }

  /** With the budget used up a waiting thread fails once and gives up. */
  lemma OneGivesUp(s: State, i: nat, maxRetries: nat) returns (evs: seq<Event>, t: State)
    requires i < |s.pcs| && s.pcs[i].Waiting? && s.permits > 0 && s.counter >= maxRetries
    ensures Run(s, evs, maxRetries, t)
    ensures t == State(s.counter + 1, s.permits, s.pcs[i := GaveUp], s.fails + 1)
  {
    var a := Next(s, Acquire(i), maxRetries);
    var b := Next(a, Load(i), maxRetries);
    var c := Next(b, Store(i), maxRetries);
    t := Next(c, Test(i), maxRetries);
    OneEvent(s, Acquire(i), maxRetries);
    RunThen(s, [Acquire(i)], maxRetries, a, Load(i));
    RunThen(s, [Acquire(i)] + [Load(i)], maxRetries, b, Store(i));
    RunThen(s, [Acquire(i)] + [Load(i)] + [Store(i)], maxRetries, c, Test(i));
    evs := [Acquire(i)] + [Load(i)] + [Store(i)] + [Test(i)];
    assert t.pcs == s.pcs[i := GaveUp];
  }

  lemma {:induction false} AllGiveUp(s: State, k: nat, maxRetries: nat) returns (evs: seq<Event>, t: State)
    requires k <= |s.pcs| && AllWaiting(s, k) && s.permits > 0 && s.counter >= maxRetries
    ensures Run(s, evs, maxRetries, t) && t.fails == s.fails + |s.pcs| - k
    decreases |s.pcs| - k
  {
    if k == |s.pcs| {
      evs, t := [], s;
    } else {
      var first, a := OneGivesUp(s, k, maxRetries);
      evs, t := AllGiveUp(a, k + 1, maxRetries);
      RunConcat(s, first, evs, maxRetries, a, t);
      evs := first + evs;
    }
  }

  /** A schedule with exactly the worst number of failures, whenever a thread can run at all. */
  lemma WorstCaseReached(d: nat, maxConcurrent: nat, maxRetries: nat) returns (evs: seq<Event>, t: State)
    requires maxConcurrent >= 1
    ensures Run(Initial(d, maxConcurrent), evs, maxRetries, t)
    ensures t.fails == WorstCase(d, maxConcurrent, maxRetries)
  {
    var s, k := Initial(d, maxConcurrent), AtOnce(d, maxConcurrent);
    var first, a := AllEnter(s, 0, k, maxRetries);
    var second, b := UseUp(a, k, maxRetries);
    RunConcat(s, first, second, maxRetries, a, b);
    if k == d {
      evs, t := first + second, b;
    } else {
      assert AllWaiting(b, k);
      assert b.pcs[0].Testing?;
      var c := Next(b, Test(0), maxRetries);
      RunThen(s, first + second, maxRetries, b, Test(0));
      var third;
      third, t := AllGiveUp(c, k, maxRetries);
      evs := first + second + [Test(0)] + third;
      RunConcat(s, first + second + [Test(0)], third, maxRetries, c, t);
    }
  }

  // ---------------------------------------------------------------------------
  // When does the shared budget hold for every schedule?
  // ---------------------------------------------------------------------------

  ghost predicate WithinBudget(d: nat, maxConcurrent: nat, maxRetries: nat) {
    forall evs: seq<Event>, t: State :: Run(Initial(d, maxConcurrent), evs, maxRetries, t) ==> t.fails <= maxRetries + d
  }

  lemma {:induction false} ChooseOne(v: nat)
    ensures Choose(1, v) == v + 1 && Choose(v, 1) == v + 1
  {
    if v == 0 {
    } else {
      ChooseOne(v - 1);
    }
  }

  lemma {:induction false} ChooseLarge(k: nat, v: nat)
    requires k >= 2 && v >= 2
    ensures Choose(k, v) > k + v
    decreases k + v
  {
    ChooseOne(k);
    ChooseOne(v);
    if k == 2 && v == 2 {
      ChooseOne(2);
      assert Choose(2, 2) == Choose(1, 2) + Choose(2, 1);
    } else if k == 2 {
      ChooseLarge(2, v - 1);
    } else {
      ChooseLarge(k - 1, v);
    }
  }

  /** Two threads at once: (R + 1) * (R + 4) / 2 failures. */
  lemma {:induction false} TwoAtOnce(maxRetries: nat)
    ensures 2 * WorstCase(2, 2, maxRetries) == (maxRetries + 1) * (maxRetries + 4)
  {
    ChooseTwo(maxRetries + 1);
    assert (maxRetries + 1) * (maxRetries + 4) == (maxRetries + 2) * (maxRetries + 3) - 2;
  }

  lemma {:induction false} ChooseTwo(v: nat)
    ensures 2 * Choose(2, v) == (v + 1) * (v + 2)
  {
    if v == 0 {
    } else {
      ChooseTwo(v - 1);
      ChooseOne(v);
      assert (v + 1) * (v + 2) == v * (v + 1) + 2 * (v + 1);
    }
  }

  /** More than one at once and any requeueing exceed the budget. */
  lemma BudgetExceeded(d: nat, maxConcurrent: nat, maxRetries: nat) returns (evs: seq<Event>, t: State)
    requires d >= 2 && maxConcurrent >= 2 && maxRetries >= 1
    ensures Run(Initial(d, maxConcurrent), evs, maxRetries, t) && t.fails > maxRetries + d
  {
    evs, t := WorstCaseReached(d, maxConcurrent, maxRetries);
    ChooseLarge(AtOnce(d, maxConcurrent), maxRetries + 1);
  }

  /** The shared budget of REQUEUE_MAX_RETRIES + d holds for every schedule if and only if there is a single thread,
      a single permit, or no requeueing. */
  lemma WithinBudgetIff(d: nat, maxConcurrent: nat, maxRetries: nat)
    ensures WithinBudget(d, maxConcurrent, maxRetries) <==> d <= 1 || maxConcurrent <= 1 || maxRetries == 0
  {
    if d <= 1 || maxConcurrent <= 1 || maxRetries == 0 {
      ChooseOne(maxRetries + 1);
      ChooseOne(AtOnce(d, maxConcurrent));
      forall evs: seq<Event>, t: State | Run(Initial(d, maxConcurrent), evs, maxRetries, t)
        ensures t.fails <= maxRetries + d
      {
        AtMostWorstCase(d, maxConcurrent, evs, maxRetries, t);
      }
    } else {
      var evs, t := BudgetExceeded(d, maxConcurrent, maxRetries);
    }
  }
}
