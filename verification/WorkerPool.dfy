/** The background worker pool: any number of threads run the same loop over one FIFO queue of jobs.

    Job k is the k-th one enqueued.  The threads are interleaved step by step. */
module WorkerPool {

  datatype Status = Pending | Running | Done | Failed

  datatype Worker =
    | Looping             // about to look at the stop event
    | Getting             // waiting for a job, for at most a second
    | Holding(job: nat)   // processing
    | Stopped             // left the loop
    | Dead                // the completion callback raised, which ends the thread

  datatype State = State(queue: seq<nat>, workers: seq<Worker>, status: seq<Status>, finished: set<nat>, stop: bool)

  /** `Complete(w, ok, raises)`: processing ends, and the completion callback returns or raises. */
  datatype Event =
    | Enqueue
    | Stop
    | Check(w: nat)
    | Timeout(w: nat)
    | Take(w: nat)
    | Complete(w: nat, ok: bool, raises: bool)

  function Initial(maxWorkers: nat): State {
    State([], seq(maxWorkers, _ => Looping), [], {}, false)
  }

  predicate Enabled(s: State, e: Event) {
    match e
    case Enqueue => true
    case Stop => true
    case Check(w) => w < |s.workers| && s.workers[w].Looping?
    case Timeout(w) => w < |s.workers| && s.workers[w].Getting? && s.queue == []
    case Take(w) => w < |s.workers| && s.workers[w].Getting? && s.queue != []
    case Complete(w, _, _) => w < |s.workers| && s.workers[w].Holding?
  }

  function Mark(status: seq<Status>, j: nat, new': Status): seq<Status> {
    if j < |status| then status[j := new'] else status
  }

  function Next(s: State, e: Event): State
    requires Enabled(s, e)
  {
    match e
    case Enqueue => s.(queue := s.queue + [|s.status|], status := s.status + [Pending])
    case Stop => s.(stop := true)
    case Check(w) => s.(workers := s.workers[w := if s.stop then Stopped else Getting])
    case Timeout(w) => s.(workers := s.workers[w := Looping])
    case Take(w) =>
      var j := s.queue[0];
      s.(queue := s.queue[1..], workers := s.workers[w := Holding(j)], status := Mark(s.status, j, Running))
    case Complete(w, ok, raises) =>
      var j := s.workers[w].job;
      s.(workers := s.workers[w := if raises then Dead else Looping],
         status := Mark(s.status, j, if ok then Done else Failed), finished := s.finished + {j})
  }

  ghost predicate Run(s: State, evs: seq<Event>, t: State)
    decreases |evs|
  {
    if evs == [] then s == t else Enabled(s, evs[0]) && Run(Next(s, evs[0]), evs[1..], t)
  }

  /** The jobs that were taken, in order. */
  function Started(s: State, evs: seq<Event>): seq<nat>
    decreases |evs|
  {
    if evs == [] || !Enabled(s, evs[0]) then []
    else (if evs[0].Take? then [s.queue[0]] else []) + Started(Next(s, evs[0]), evs[1..])
  }

  // ---------------------------------------------------------------------------
  // Conservation.
  // ---------------------------------------------------------------------------

  /** The number of jobs taken so far. */
  function Taken(s: State): int { |s.status| - |s.queue| }

  ghost predicate QueueOk(s: State) {
    && |s.queue| <= |s.status|
    && forall k :: 0 <= k < |s.queue| ==> s.queue[k] == Taken(s) + k
  }

  ghost predicate Held(s: State, j: nat) { exists w :: 0 <= w < |s.workers| && s.workers[w] == Holding(j) }

  ghost predicate HandsOk(s: State) {
    && (forall w :: 0 <= w < |s.workers| && s.workers[w].Holding? ==>
          s.workers[w].job < Taken(s) && s.workers[w].job !in s.finished)
    && (forall v, w :: 0 <= v < w < |s.workers| && s.workers[v].Holding? ==> s.workers[v] != s.workers[w])
  }

  ghost predicate JobOk(s: State, j: nat)
    requires j < |s.status|
  {
    && (s.status[j].Pending? <==> j >= Taken(s))
    && (s.status[j].Running? <==> Held(s, j))
    && (s.status[j].Done? || s.status[j].Failed? <==> j in s.finished)
  }

  ghost predicate Inv(s: State) {
    && QueueOk(s) && HandsOk(s)
    && (forall j :: j in s.finished ==> j < Taken(s))
    && (forall j: nat :: j < |s.status| ==> JobOk(s, j))
  }

  lemma TakeKeepsJobs(s: State, w: nat, j: nat)
    requires Inv(s) && Enabled(s, Take(w)) && j < |s.status|
    ensures JobOk(Next(s, Take(w)), j)
  {
    var t := Next(s, Take(w));
    assert JobOk(s, j);
    assert t.workers[w] == Holding(s.queue[0]);
    if v :| 0 <= v < |s.workers| && s.workers[v] == Holding(j) {
      assert t.workers[v] == Holding(j);
    }
    if v :| 0 <= v < |t.workers| && t.workers[v] == Holding(j) && v != w {
      assert s.workers[v] == Holding(j);
    }
  }

  lemma CompleteKeepsJobs(s: State, e: Event, j: nat)
    requires Inv(s) && e.Complete? && Enabled(s, e) && j < |s.status|
    ensures JobOk(Next(s, e), j)
  {
    var t := Next(s, e);
    assert JobOk(s, j);
    if v :| 0 <= v < |t.workers| && t.workers[v] == Holding(j) {
      assert s.workers[v] == Holding(j);
    }
    if j != s.workers[e.w].job {
      if v :| 0 <= v < |s.workers| && s.workers[v] == Holding(j) {
        assert t.workers[v] == Holding(j);
      }
    }
  }

  lemma OthersKeepJobs(s: State, e: Event, j: nat)
    requires Inv(s) && Enabled(s, e) && !e.Take? && !e.Complete? && j < |Next(s, e).status|
    ensures JobOk(Next(s, e), j)
  {
    var t := Next(s, e);
    if v :| 0 <= v < |t.workers| && t.workers[v] == Holding(j) {
      assert s.workers[v] == Holding(j);
    }
    if j < |s.status| {
      assert JobOk(s, j);
      if v :| 0 <= v < |s.workers| && s.workers[v] == Holding(j) {
        assert t.workers[v] == Holding(j);
      }
    }
  }

  lemma NextKeepsInv(s: State, e: Event)
    requires Inv(s) && Enabled(s, e)
    ensures Inv(Next(s, e))
  {
    var t := Next(s, e);
    forall j: nat | j < |t.status|
      ensures JobOk(t, j)
    {
      if e.Take? {
        TakeKeepsJobs(s, e.w, j);
      } else if e.Complete? {
        CompleteKeepsJobs(s, e, j);
      } else {
        OthersKeepJobs(s, e, j);
      }
    }
  }

  lemma {:induction false} RunKeepsInv(s: State, evs: seq<Event>, t: State)
    requires Inv(s) && Run(s, evs, t)
    ensures Inv(t) && |t.workers| == |s.workers|
    decreases |evs|
  {
    if evs == [] {
    } else {
      NextKeepsInv(s, evs[0]);
      RunKeepsInv(Next(s, evs[0]), evs[1..], t);
    }
  }

  /** In every reachable state of a pool of any size, each job enqueued so far is in exactly one of three
      places, and its status says which: still queued (pending), in the hands of exactly one worker
      (running), or finished (done or failed).  The queue holds the latest jobs in order. */
  lemma JobsConserved(maxWorkers: nat, evs: seq<Event>, s: State)
    requires Run(Initial(maxWorkers), evs, s)
    ensures forall j: nat :: j < |s.status| ==>
              && (s.status[j].Pending? <==> j in s.queue)
              && (s.status[j].Running? <==> Held(s, j))
              && (s.status[j].Done? || s.status[j].Failed? <==> j in s.finished)
    ensures forall v, w :: 0 <= v < w < |s.workers| && s.workers[v].Holding? ==> s.workers[v] != s.workers[w]
    ensures forall k :: 0 <= k < |s.queue| ==> s.queue[k] == |s.status| - |s.queue| + k
  {
    RunKeepsInv(Initial(maxWorkers), evs, s);
    forall j: nat | j < |s.status|
      ensures s.status[j].Pending? <==> j in s.queue
      ensures s.status[j].Running? <==> Held(s, j)
      ensures s.status[j].Done? || s.status[j].Failed? <==> j in s.finished
    {
      assert JobOk(s, j);
      if j >= Taken(s) {
        assert s.queue[j - Taken(s)] == j;
      }
    }
  }

  function Range(lo: int, hi: int): seq<int>
    requires lo <= hi
  {
    seq(hi - lo, i => lo + i)
  }

  lemma {:induction false} StartedFrom(s: State, evs: seq<Event>, t: State)
    requires Inv(s) && Run(s, evs, t)
    ensures Taken(s) <= Taken(t) && Started(s, evs) == Range(Taken(s), Taken(t))
    decreases |evs|
  {
    if evs == [] {
    } else {
      NextKeepsInv(s, evs[0]);
      StartedFrom(Next(s, evs[0]), evs[1..], t);
    }
  }

  /** Jobs are started strictly in the order they were enqueued, each at most once, by whichever worker. */
  lemma StartedInOrder(maxWorkers: nat, evs: seq<Event>, s: State)
    requires Run(Initial(maxWorkers), evs, s)
    ensures |s.queue| <= |s.status|
    ensures Started(Initial(maxWorkers), evs) == Range(0, |s.status| - |s.queue|)
  {
    RunKeepsInv(Initial(maxWorkers), evs, s);
    StartedFrom(Initial(maxWorkers), evs, s);
  }

  /** A status only moves from pending to running to done or failed. */
  lemma StatusOnlyAdvances(s: State, e: Event, j: nat)
    requires Inv(s) && Enabled(s, e) && j < |s.status|
    ensures var a, b := s.status[j], Next(s, e).status[j];
            a == b || (a.Pending? && b.Running? && e.Take?) || (a.Running? && (b.Done? || b.Failed?) && e.Complete?)
  {
    assert JobOk(s, j);
  }

  /** When every worker has left the loop or died, nothing is running, and exactly the jobs still queued are
      pending; from then on no job ever changes its status. */
  lemma {:induction false} LeftoversStayPending(maxWorkers: nat, before: seq<Event>, s: State, after: seq<Event>, t: State)
    requires Run(Initial(maxWorkers), before, s) && Run(s, after, t)
    requires forall w :: 0 <= w < |s.workers| ==> s.workers[w].Stopped? || s.workers[w].Dead?
    ensures forall j: nat :: j < |s.status| ==> !s.status[j].Running? && (s.status[j].Pending? <==> j in s.queue)
    ensures s.status <= t.status && s.queue <= t.queue
  {
    JobsConserved(maxWorkers, before, s);
    NoWorkersNoChange(s, after, t);
  }

  lemma {:induction false} NoWorkersNoChange(s: State, evs: seq<Event>, t: State)
    requires Run(s, evs, t)
    requires forall w :: 0 <= w < |s.workers| ==> s.workers[w].Stopped? || s.workers[w].Dead?
    ensures s.status <= t.status && s.queue <= t.queue
    decreases |evs|
  {
    if evs == [] {
    } else {
      NoWorkersNoChange(Next(s, evs[0]), evs[1..], t);
    }
  }

  // After the stop.

  function Fetching(ws: seq<Worker>): nat {
    if ws == [] then 0 else Fetching(ws[..|ws| - 1]) + if ws[|ws| - 1].Getting? then 1 else 0
  }

  lemma {:induction false} FetchingUpdate(ws: seq<Worker>, w: nat, x: Worker)
    requires w < |ws|
    ensures Fetching(ws[w := x]) == Fetching(ws) - (if ws[w].Getting? then 1 else 0) + (if x.Getting? then 1 else 0)
  {
    var n := |ws| - 1;
    if w == n {
      assert ws[w := x][..n] == ws[..n];
    } else {
      assert ws[w := x][..n] == ws[..n][w := x];
      FetchingUpdate(ws[..n], w, x);
    }
  }

  lemma StoppedStep(s: State, e: Event)
    requires Enabled(s, e) && s.stop
    ensures var t := Next(s, e);
            t.stop && Fetching(t.workers) + (if e.Take? then 1 else 0) <= Fetching(s.workers)
  {
    if !e.Enqueue? && !e.Stop? {
      FetchingUpdate(s.workers, e.w, Next(s, e).workers[e.w]);
    }
  }

  /** Once stop is set, at most as many jobs are still started as workers are waiting for one at that moment: each of
      them takes at most one more, and the others none. */
  lemma {:induction false} StopBoundsStarts(s: State, evs: seq<Event>, t: State)
    requires Run(s, evs, t) && s.stop
    ensures |Started(s, evs)| + Fetching(t.workers) <= Fetching(s.workers)
    decreases |evs|
  {
    if evs == [] {
    } else {
      StoppedStep(s, evs[0]);
      StopBoundsStarts(Next(s, evs[0]), evs[1..], t);
    }
  }

  // ---------------------------------------------------------------------------
  // The object.
  // ---------------------------------------------------------------------------

  /** One method per atomic step; a worker is where its thread is in `_worker_loop`. */
  class BookingWorker {
    var queue: seq<nat>
    var workers: seq<Worker>
    var status: seq<Status>
    var finished: set<nat>
    var stop: bool

    function View(): State
      reads this
    {
      State(queue, workers, status, finished, stop)
    }

    constructor (maxWorkers: nat)
      ensures View() == Initial(maxWorkers)
    {
      queue, workers, status, finished, stop := [], seq(maxWorkers, _ => Looping), [], {}, false;
    }

    method EnqueueJob() returns (job: nat)
      modifies this
      ensures View() == Next(old(View()), Enqueue) && job == |old(status)|
      ensures queue == old(queue) + [job] && status == old(status) + [Pending] && workers == old(workers)
    {
      job := |status|;
      status := status + [Pending];
      queue := queue + [job];
    }

    method StopAll()
      modifies this`stop
      ensures View() == Next(old(View()), Stop) && stop
    {
      stop := true;
    }

    /** The top of the loop. */
    method LookAtStop(w: nat)
      requires Enabled(View(), Check(w))
      modifies this`workers
      ensures View() == Next(old(View()), Check(w))
      ensures workers == old(workers)[w := if stop then Stopped else Getting]
    {
      workers := workers[w := if stop then Stopped else Getting];
    }

    /** `get(timeout=1)`: a job if there is one, else back to the top. */
    method GetJob(w: nat) returns (found: bool)
      requires w < |workers| && workers[w].Getting?
      modifies this
      ensures found <==> old(queue) != []
      ensures Enabled(old(View()), if found then Take(w) else Timeout(w))
      ensures View() == Next(old(View()), if found then Take(w) else Timeout(w))
      ensures found ==>
                && queue == old(queue)[1..] && workers == old(workers)[w := Holding(old(queue)[0])]
                && forall j :: 0 <= j < |old(status)| ==>
                     j < |status| && status[j] == if j == old(queue)[0] then Running else old(status)[j]
      ensures !found ==> workers == old(workers)[w := Looping] && queue == old(queue) && status == old(status)
    {
      found := queue != [];
      if !found {
        workers := workers[w := Looping];
        return;
      }
      var job := queue[0];
      queue, workers := queue[1..], workers[w := Holding(job)];
      status := Mark(status, job, Running);
    }

    /** The rest of the iteration: the outcome of the processing, then the callback. */
    method Process(w: nat, ok: bool, raises: bool)
      requires Enabled(View(), Complete(w, ok, raises))
      modifies this
      ensures View() == Next(old(View()), Complete(w, ok, raises))
      ensures workers == old(workers)[w := if raises then Dead else Looping] && queue == old(queue)
      ensures forall j :: 0 <= j < |old(status)| ==>
                && j < |status|
                && status[j] == if j != old(workers)[w].job then old(status)[j] else if ok then Done else Failed
    {
      var job := workers[w].job;
      status := Mark(status, job, if ok then Done else Failed);
      finished := finished + {job};
      workers := workers[w := if raises then Dead else Looping];
    }
  }
}
