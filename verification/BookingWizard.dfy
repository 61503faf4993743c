/** The checkpointed booking wizard.

    One student is booked by any number of runs of `run_student_flow`, one after
    the other, with the shutdown handler writing to the checkpoint store at any
    moment.  Every interaction of a run with the outside world is one event; the
    five form steps are one outcome each.  `Next` is the meaning of one event,
    and the class `BookingBot` is the program itself, proved to follow `Next`. */
module BookingWizard {
  import opened Common

  /** What the confirmation page says; an unreadable page is `Unknown`. */
  datatype Page = Unknown | Error | Submitted | Confirmed

  /** The `status` entry of a run's result. */
  datatype Status = Failed | Stopped | Interrupted | Shown(page: Page) | Verified

  /** What the environment does next.
      - `Start`: a run of the flow begins and reads the checkpoint;
      - `Proceed`: the awaited operation succeeds (slot found, form step submitted,
        checkpoint saved, checkpoint cleared, completion announced);
      - `Again`: the poll finds no slot, or an error that the polling loop handles itself;
      - `Read`: the confirmation page is captured; `Verify`: the profile shows the booking, or does not;
      - `Stop`: the stop event is set at one of the checks; `StopInWait`: it is seen by a wait inside the
        polling loop;
      - `Fail`: something raises or reports failure, and no handler inside the polling loop catches it;
      - `Interrupt`: Ctrl-C; `Kill`: the process dies;
      - `Shutdown`: the signal handler stores step 1 for this student. */
  datatype Event =
    | Start | Proceed | Again | Read(page: Page) | Verify(ok: bool)
    | Stop | StopInWait | Fail | Interrupt | Kill | Shutdown

  datatype Phase =
    | Idle                                // no run of this student is in progress
    | Polling(resume: nat)                // the loop that waits for the booking button
    | Gate(resume: nat, step: nat)        // the stop check in front of wizard step `step`; 6 is the capture
    | Filled(resume: nat, step: nat)      // the form of `step` went through, its checkpoint is not saved yet
    | Captured                            // the confirmation is read, the booking not yet verified
    | Checked                             // verified or not, the checkpoint is not cleared yet
    | Cleared                             // the checkpoint is cleared, the completion not yet announced

  datatype Ending = Running | Ended(cause: Event)

  /** The latest run: `result` is the variable the run returns in the end; the rest is history.  `lost` says it
      was left between a form step and its save, `cleared` that it cleared the checkpoint. */
  datatype RunLog = RunLog(
    found: bool, executed: seq<nat>, lost: bool, page: Option<Page>, verified: bool, cleared: bool,
    ending: Ending, result: Status)

  /** `stored` is the checkpoint (0 when absent), `done` the steps that succeeded since the last clear. */
  datatype State = State(stored: nat, phase: Phase, done: set<nat>, run: RunLog)

  const CONFIRM_STEP: nat := 5
  const FRESH_RUN := RunLog(false, [], false, None, false, false, Running, Failed)

  /** A student whose checkpoint is `stored`, with no run in progress and nothing recorded. */
  function Resting(stored: nat): State {
    State(stored, Idle, {}, FRESH_RUN.(ending := Ended(Kill)))
  }

  const INITIAL := Resting(0)

  /** Does the event answer what the run waits for?  Others do not concern it. */
  predicate Answers(phase: Phase, e: Event) {
    if e.Start? then phase.Idle?
    else if e.Fail? || e.Interrupt? || e.Kill? then !phase.Idle?
    else match phase
      case Idle => false
      case Polling(_) => e.Proceed? || e.Again? || e.Stop? || e.StopInWait?
      case Gate(_, i) => e.Stop? || if i > CONFIRM_STEP then e.Read? else e.Proceed?
      case Captured => e.Verify?
      case _ => e.Proceed?
  }

  /** The run ends by `e` and returns `result`, unless the process died. */
  function Leave(s: State, e: Event, result: Status): State {
    s.(phase := Idle, run := s.run.(ending := Ended(e), lost := s.phase.Filled?, result := result))
  }

  function Next(s: State, e: Event): State {
    if e.Shutdown? then s.(stored := 1)
    else if !Answers(s.phase, e) then s
    else if e.Fail? || e.Kill? then Leave(s, e, s.run.result)
    else if e.Interrupt? then Leave(s, e, Interrupted)
    else match s.phase
      case Idle => s.(phase := Polling(s.stored), run := FRESH_RUN)
      case Polling(r) => (
        match e
        case Proceed => s.(stored := 1, phase := Gate(r, 1), run := s.run.(found := true))
        case Stop => Leave(s.(stored := 0, done := {}, run := s.run.(cleared := true)), e, Stopped)
        case StopInWait => Leave(s, e, Stopped)
        case _ => s
      )
      case Gate(r, i) => (
        match e
        case Stop => Leave(s, e, Stopped)
        case Read(page) => s.(phase := Captured, run := s.run.(page := Some(page), result := Shown(page)))
        case _ =>
          if r >= i + 1 then s.(phase := Gate(r, i + 1))
          else s.(phase := Filled(r, i), done := s.done + {i}, run := s.run.(executed := s.run.executed + [i]))
      )
      case Filled(r, i) => s.(stored := i + 1, phase := Gate(r, i + 1))
      case Captured =>
        s.(phase := Checked, run := if e.ok then s.run.(verified := true, result := Verified) else s.run)
      case Checked => s.(stored := 0, phase := Cleared, done := {}, run := s.run.(cleared := true))
      case Cleared => Leave(s, e, s.run.result)
  }

  /** What the latest run has returned, if it has. */
  function Returned(s: State): Option<Status> {
    if s.phase.Idle? && s.run.ending.Ended? && !s.run.ending.cause.Kill? then Some(s.run.result) else None
  }

  function Replay(s: State, evs: seq<Event>): State {
    if evs == [] then s else Next(Replay(s, evs[..|evs| - 1]), evs[|evs| - 1])
  }

  /** The state just before event number `k` of a history that starts with an empty store. */
  function Before(evs: seq<Event>, k: nat): State
    requires k <= |evs|
  {
    Replay(INITIAL, evs[..k])
  }

  lemma ReplayStep(s: State, evs: seq<Event>, k: nat)
    requires k < |evs|
    ensures Replay(s, evs[..k + 1]) == Next(Replay(s, evs[..k]), evs[k])
  {
    assert evs[..k + 1][..k] == evs[..k];
  }

  lemma {:induction false} ReplayConcat(s: State, a: seq<Event>, b: seq<Event>)
    ensures Replay(s, a + b) == Replay(Replay(s, a), b)
  {
    if b == [] {
      assert a + b == a;
    } else {
      ReplayConcat(s, a, b[..|b| - 1]);
      assert (a + b)[..|a + b| - 1] == a + b[..|b| - 1];
    }
  }

  // ---------------------------------------------------------------------------
  // A stored checkpoint never promises a step that did not succeed.
  // ---------------------------------------------------------------------------

  ghost predicate DoneBelow(done: set<nat>, k: nat) {
    forall i: nat :: 1 <= i < k ==> i in done
  }

  ghost predicate Inv(s: State) {
    && s.stored <= 6
    && DoneBelow(s.done, s.stored)
    && match s.phase
       case Idle => true
       case Polling(r) => r <= 6 && DoneBelow(s.done, r)
       case Gate(r, i) => 1 <= i <= 6 && r <= 6 && DoneBelow(s.done, i) && DoneBelow(s.done, r)
       case Filled(r, i) => r <= i && 1 <= i <= CONFIRM_STEP && DoneBelow(s.done, i + 1)
       case Captured => DoneBelow(s.done, 6)
       case Checked => DoneBelow(s.done, 6)
       case Cleared => true
  }

  lemma NextKeepsInv(s: State, e: Event)
    requires Inv(s)
    ensures Inv(Next(s, e))
  {
  }

  lemma {:induction false} ReplayKeepsInv(s: State, evs: seq<Event>)
    requires Inv(s)
    ensures Inv(Replay(s, evs))
  {
    if evs == [] {
    } else {
      ReplayKeepsInv(s, evs[..|evs| - 1]);
      NextKeepsInv(Replay(s, evs[..|evs| - 1]), evs[|evs| - 1]);
    }
  }

  /** Over any history of runs, stops, failures, crashes and shutdown writes: a stored checkpoint k
      means that steps 1..k-1 have all succeeded since the last clear, and a run that is about to
      capture the confirmation, or has done so, has all five steps behind it. */
  lemma CheckpointSound(evs: seq<Event>)
    ensures var s := Replay(INITIAL, evs);
            && s.stored <= 6
            && (forall i: nat :: 1 <= i < s.stored ==> i in s.done)
            && ((s.phase.Captured? || s.phase.Checked? || (s.phase.Gate? && s.phase.step > CONFIRM_STEP)) ==>
                  forall i: nat :: 1 <= i <= CONFIRM_STEP ==> i in s.done)
  {
    ReplayKeepsInv(INITIAL, evs);
  }

  // ---------------------------------------------------------------------------
  // What one run does.
  // ---------------------------------------------------------------------------

  /** The first step a run that read checkpoint `r` works on. */
  function First(r: nat): nat { if r == 0 then 1 else r }

  /** How many form steps of the latest run were also saved. */
  function SavedSteps(s: State): int {
    |s.run.executed| - if s.phase.Filled? || s.run.lost then 1 else 0
  }

  /** What a run that read `r`, and was not interfered with, must have left in the store. */
  function LeftInStore(r: nat, s: State): nat
    requires SavedSteps(s) >= 0
  {
    if s.run.cleared then 0
    else if !s.run.found then r
    else if SavedSteps(s) == 0 then 1
    else First(r) + SavedSteps(s)
  }

  ghost predicate Consecutive(r: nat, steps: seq<nat>) {
    forall k :: 0 <= k < |steps| ==> steps[k] == First(r) + k && steps[k] <= CONFIRM_STEP
  }

  ghost predicate RunInv(r: nat, s: State) {
    var n := |s.run.executed|;
    && Consecutive(r, s.run.executed)
    && (s.run.ending.Running? <==> !s.phase.Idle?)
    && (s.run.lost ==> s.phase.Idle? && n > 0)
    && (n > 0 ==> s.run.found)
    && (s.run.page.Some? ==> s.run.found && n == if First(r) >= 6 then 0 else 6 - First(r))
    && match s.phase
       case Idle => true
       case Polling(q) => q == r && n == 0 && !s.run.found && !s.run.cleared
       case Gate(q, i) => q == r && s.run.found && !s.run.cleared && 1 <= i <= 6 && n == if i <= First(r) then 0 else i - First(r)
       case Filled(q, i) => q == r && s.run.found && !s.run.cleared && r <= i <= CONFIRM_STEP && i >= 1 && n == i + 1 - First(r)
       case Cleared => s.run.found && s.run.cleared
       case _ => s.run.found && !s.run.cleared
  }

  lemma RunStep(r: nat, s: State, e: Event)
    requires RunInv(r, s) && !e.Start?
    ensures RunInv(r, Next(s, e))
  {
  }

  lemma StoredStep(r: nat, s: State, e: Event)
    requires RunInv(r, s) && !e.Start? && !e.Shutdown? && s.stored == LeftInStore(r, s)
    ensures SavedSteps(Next(s, e)) >= 0 && Next(s, e).stored == LeftInStore(r, Next(s, e))
  {
  }

  /** One run from checkpoint `r`, whatever interferes: it submits First(r), First(r)+1, ... in order, a
      prefix of the steps up to 5 and none at all from checkpoint 6.  Unless the shutdown handler wrote in
      between, what it leaves in the store is fixed by how far it got: in particular a resumed run that
      finds the slot and then fails on its first form leaves 1, not `r`. */
  lemma {:induction false} OneRun(r: nat, evs: seq<Event>)
    requires Start !in evs
    ensures var s := Replay(Next(Resting(r), Start), evs);
            && RunInv(r, s)
            && (forall k :: 0 <= k < |s.run.executed| ==>
                  s.run.executed[k] == First(r) + k && s.run.executed[k] <= CONFIRM_STEP)
            && (Shutdown !in evs ==> s.stored == LeftInStore(r, s))
  {
    if evs == [] {
    } else {
      var init, e := evs[..|evs| - 1], evs[|evs| - 1];
      assert e in evs;
      OneRun(r, init);
      RunStep(r, Replay(Next(Resting(r), Start), init), e);
      if Shutdown !in evs {
        StoredStep(r, Replay(Next(Resting(r), Start), init), e);
      }
    }
  }

  // ---------------------------------------------------------------------------
  // What one run returns.
  // ---------------------------------------------------------------------------

  /** The result a run has in its hands, from what it has seen. */
  function InHand(run: RunLog): Status {
    if run.page.None? then Failed else if run.verified then Verified else Shown(run.page.value)
  }

  ghost predicate ResultOk(s: State) {
    && (s.run.ending.Running? <==> !s.phase.Idle?)
    && (s.run.verified ==> s.run.page.Some?)
    && (s.phase.Polling? || s.phase.Gate? || s.phase.Filled? ==> s.run.page.None? && !s.run.cleared && !s.run.lost)
    && (s.phase.Captured? || s.phase.Checked? ==> s.run.page.Some? && !s.run.cleared && !s.run.lost)
    && (s.phase.Cleared? ==> s.run.page.Some? && s.run.cleared && !s.run.lost)
    && if s.run.ending.Running? then s.run.result == InHand(s.run) else EndOk(s.run, s.run.ending.cause)
  }

  ghost predicate EndOk(run: RunLog, cause: Event) {
    && (cause.Proceed? || cause.Stop? || cause.StopInWait? || cause.Fail? || cause.Interrupt? || cause.Kill?)
    && (cause.Stop? || cause.StopInWait? ==> run.page.None? && !run.lost)
    && (cause.Proceed? ==> run.page.Some? && run.cleared && !run.lost)
    && (run.page.Some? ==> !run.lost)
    && (run.cleared && run.page.None? ==> cause.Stop?)
    && run.result == (if cause.Interrupt? then Interrupted else if cause.Stop? || cause.StopInWait? then Stopped else InHand(run))
  }

  lemma ResultStep(s: State, e: Event)
    requires ResultOk(s)
    ensures ResultOk(Next(s, e))
  {
  }

  lemma {:induction false} ResultKept(s: State, evs: seq<Event>)
    requires ResultOk(s)
    ensures ResultOk(Replay(s, evs))
  {
    if evs == [] {
    } else {
      ResultKept(s, evs[..|evs| - 1]);
      ResultStep(Replay(s, evs[..|evs| - 1]), evs[|evs| - 1]);
    }
  }

  /** `smart_retry` takes these for failures. */
  predicate CountsAsFailure(x: Status) { x.Failed? || x == Shown(Error) }

  /** What the result of a run that has returned says, exactly.  It does not say whether the checkpoint was
      cleared: once the page has been read, a failing clear leaves the result as it is. */
  lemma ResultIff(r: nat, evs: seq<Event>, x: Status)
    requires Start !in evs && Returned(Replay(Next(Resting(r), Start), evs)) == Some(x)
    ensures var run := Replay(Next(Resting(r), Start), evs).run;
            var cause := run.ending.cause;
            && (x.Failed? <==> run.page.None? && cause.Fail?)
            && (x.Stopped? <==> cause.Stop? || cause.StopInWait?)
            && (x.Interrupted? <==> cause.Interrupt?)
            && (x.Shown? || x.Verified? <==> run.page.Some? && !cause.Interrupt?)
            && (x.Verified? <==> run.verified && !cause.Interrupt?)
            && (CountsAsFailure(x) <==>
                  (run.page.None? && cause.Fail?) || (run.page == Some(Error) && !run.verified && !cause.Interrupt?))
  {
    ResultKept(Next(Resting(r), Start), evs);
  }

  /** What a run that has read the page leaves in the store: nothing if it got as far as clearing the checkpoint;
      else 6, or 1 if it had resumed from 6. */
  lemma StoreAfterPage(r: nat, evs: seq<Event>)
    requires r <= 6 && Start !in evs && Shutdown !in evs
    requires Replay(Next(Resting(r), Start), evs).run.page.Some?
    ensures var s := Replay(Next(Resting(r), Start), evs);
            s.stored == if s.run.cleared then 0 else if r < 6 then 6 else 1
  {
    OneRun(r, evs);
    ResultKept(Next(Resting(r), Start), evs);
  }

  // ---------------------------------------------------------------------------
  // Submitting the review step twice.
  // ---------------------------------------------------------------------------

  /** Event `e` in state `s` submits wizard step `step`. */
  predicate Submits(s: State, e: Event, step: nat) {
    s.phase.Gate? && s.phase.step == step <= CONFIRM_STEP && s.phase.resume < step + 1 && e.Proceed?
  }

  predicate Completes(s: State, e: Event) {
    s.phase.Checked? && e.Proceed?
  }

  /** A stored 6 is lowered: by the write of 1 after polling, by the clear of a stop seen while
      polling, or by the shutdown handler. */
  predicate LowersSix(s: State, e: Event) {
    s.stored == 6 && (e.Shutdown? || (s.phase.Polling? && (e.Proceed? || e.Stop?)))
  }

  /** The run dies after the review form went through and before 6 was saved. */
  predicate LosesSix(s: State, e: Event) {
    s.phase.Filled? && s.phase.step == CONFIRM_STEP && (e.Fail? || e.Interrupt? || e.Kill?)
  }

  /** Step 5 has been submitted and its trace is still protecting against a second submission. */
  predicate Protected(s: State) {
    match s.phase
    case Filled(_, i) => i == CONFIRM_STEP
    case Idle => s.stored == 6
    case Polling(r) => s.stored == 6 && r == 6
    case Gate(r, i) => s.stored == 6 && (r == 6 || i == 6)
    case Captured => s.stored == 6
    case Checked => s.stored == 6
    case Cleared => false
  }

  lemma ProtectedStep(s: State, e: Event)
    requires Inv(s) && Protected(s)
    requires !Completes(s, e) && !LosesSix(s, e)
    requires s.stored == 6 ==> !LowersSix(s, e)
    ensures Protected(Next(s, e)) && !Submits(s, e, CONFIRM_STEP)
  {
  }

  /** If the review step is submitted at `a` and again at `b` with no completed booking in between, then
      in between either a stored 6 was lowered in one of the three ways, or the 6 was never saved. */
  lemma {:induction false} ConfirmTwiceNeedsLowering(evs: seq<Event>, a: nat, b: nat)
    requires a < b < |evs|
    requires Submits(Before(evs, a), evs[a], CONFIRM_STEP) && Submits(Before(evs, b), evs[b], CONFIRM_STEP)
    requires forall j :: a < j < b ==> !Completes(Before(evs, j), evs[j])
    ensures exists j :: a < j < b && (LowersSix(Before(evs, j), evs[j]) || LosesSix(Before(evs, j), evs[j]))
  {
    if forall j :: a < j < b ==> !LowersSix(Before(evs, j), evs[j]) && !LosesSix(Before(evs, j), evs[j]) {
      ReplayKeepsInv(INITIAL, evs[..b]);
      StaysProtected(evs, a, b);
      assert false;
    }
  }

  lemma {:induction false} StaysProtected(evs: seq<Event>, a: nat, b: nat)
    requires a < b < |evs|
    requires Submits(Before(evs, a), evs[a], CONFIRM_STEP)
    requires forall j :: a < j < b ==> !Completes(Before(evs, j), evs[j])
    requires forall j :: a < j < b ==> !LowersSix(Before(evs, j), evs[j]) && !LosesSix(Before(evs, j), evs[j])
    ensures Protected(Before(evs, b))
  {
    ReplayStep(INITIAL, evs, b - 1);
    if b > a + 1 {
      StaysProtected(evs, a, b - 1);
      ReplayKeepsInv(INITIAL, evs[..b - 1]);
      ProtectedStep(Before(evs, b - 1), evs[b - 1]);
    }
  }

  // Exactly when the next run can submit the review step again.

  /** Some run that begins in `s` submits the review step. */
  ghost predicate CanConfirm(s: State) {
    exists evs: seq<Event> :: Start !in evs && Submits(Replay(Next(s, Start), evs), Proceed, CONFIRM_STEP)
  }

  /** Between runs, a new run can submit the review step if and only if the stored checkpoint is below 6,
      whether or not the step has been submitted before. */
  lemma ReconfirmIff(s: State)
    requires s.phase.Idle?
    ensures CanConfirm(s) <==> s.stored < 6
  {
    if s.stored < 6 {
      var p := Next(s, Start);
      assert Replay(p, [Proceed][..0]) == p;
      assert Replay(p, [Proceed]) == Next(p, Proceed);
      var evs := WalkToConfirm(Next(p, Proceed));
      ReplayConcat(p, [Proceed], evs);
      assert Start !in [Proceed] + evs;
    }
    forall evs: seq<Event> | Start !in evs && Submits(Replay(Next(s, Start), evs), Proceed, CONFIRM_STEP)
      ensures s.stored < 6
    {
      ResumeIsKept(s, evs);
    }
  }

  lemma {:induction false} WalkToConfirm(s: State) returns (evs: seq<Event>)
    requires s.phase.Gate? && 1 <= s.phase.step <= CONFIRM_STEP && s.phase.resume < 6
    ensures Start !in evs && Submits(Replay(s, evs), Proceed, CONFIRM_STEP)
    decreases CONFIRM_STEP - s.phase.step
  {
    evs := [];
    if s.phase.step < CONFIRM_STEP {
      var t := Next(s, Proceed);
      assert Replay(s, [Proceed][..0]) == s;
      assert Replay(s, [Proceed]) == t;
      if t.phase.Gate? {
        evs := WalkToConfirm(t);
        ReplayConcat(s, [Proceed], evs);
        evs := [Proceed] + evs;
      } else {
        assert [Proceed, Proceed][..1] == [Proceed];
        evs := WalkToConfirm(Next(t, Proceed));
        ReplayConcat(s, [Proceed, Proceed], evs);
        evs := [Proceed, Proceed] + evs;
      }
    }
  }

  predicate ResumesFrom(s: State, r: nat) {
    match s.phase
    case Polling(q) => q == r
    case Gate(q, _) => q == r
    case Filled(q, _) => q == r
    case _ => true
  }

  lemma {:induction false} ResumeIsKept(s: State, evs: seq<Event>)
    requires s.phase.Idle? && Start !in evs
    ensures ResumesFrom(Replay(Next(s, Start), evs), s.stored)
  {
    if evs == [] {
    } else {
      var init := evs[..|evs| - 1];
      assert evs == init + [evs[|evs| - 1]];
      ResumeIsKept(s, init);
    }
  }

  // "At most once" is false: three runs and two stops submit the review step twice.

  const FILL_AND_SAVE: seq<Event> := [Proceed, Proceed]
  /** Start, slot found, five form steps each with its save. */
  const RUN_TO_CAPTURE: seq<Event> :=
    [Start, Proceed] + FILL_AND_SAVE + FILL_AND_SAVE + FILL_AND_SAVE + FILL_AND_SAVE + FILL_AND_SAVE
  /** Start, slot found, stopped at the first gate. */
  const RUN_STOPPED_EARLY: seq<Event> := [Start, Proceed, Stop]
  const THREE_RUNS: seq<Event> := RUN_TO_CAPTURE + [Stop] + RUN_STOPPED_EARLY + RUN_TO_CAPTURE

  lemma TwoEvents(s: State, a: Event, b: Event)
    ensures Replay(s, [a, b]) == Next(Next(s, a), b)
  {
    assert [a, b][..1] == [a];
    assert Replay(s, [a][..0]) == s;
  }

  /** A run from checkpoint 0 or 1 that nothing disturbs is at the review gate after ten events. */
  lemma FreshRunConfirms(s: State)
    requires s.phase.Idle? && s.stored <= 1
    ensures var g := Replay(s, RUN_TO_CAPTURE[..10]);
            g.phase == Gate(s.stored, 5) && Submits(g, Proceed, CONFIRM_STEP)
    ensures Replay(s, RUN_TO_CAPTURE).phase == Gate(s.stored, 6) && Replay(s, RUN_TO_CAPTURE).stored == 6
  {
    TwoEvents(s, Start, Proceed);
    var e1 := [Start, Proceed];
    FillOne(s, e1, s.stored, 1);
    FillOne(s, e1 + FILL_AND_SAVE, s.stored, 2);
    var e3 := e1 + FILL_AND_SAVE + FILL_AND_SAVE;
    FillOne(s, e3, s.stored, 3);
    FillOne(s, e3 + FILL_AND_SAVE, s.stored, 4);
    FillOne(s, e3 + FILL_AND_SAVE + FILL_AND_SAVE, s.stored, 5);
    assert RUN_TO_CAPTURE[..10] == e3 + FILL_AND_SAVE + FILL_AND_SAVE;
    assert RUN_TO_CAPTURE == e3 + FILL_AND_SAVE + FILL_AND_SAVE + FILL_AND_SAVE;
  }

  lemma FillOne(s: State, evs: seq<Event>, r: nat, i: nat)
    requires Replay(s, evs).phase == Gate(r, i) && r <= 1 && 1 <= i <= CONFIRM_STEP
    ensures var t := Replay(s, evs + FILL_AND_SAVE); t.phase == Gate(r, i + 1) && t.stored == i + 1
  {
    TwoEvents(Replay(s, evs), Proceed, Proceed);
    ReplayConcat(s, evs, FILL_AND_SAVE);
  }

  predicate ThreeRuns(t: seq<Event>) {
    && |t| == 28 && t[..12] == RUN_TO_CAPTURE && t[16..] == RUN_TO_CAPTURE
    && t[12] == Stop && t[13] == Start && t[14] == Proceed && t[15] == Stop
  }

  lemma StoppedAtCapture(t: seq<Event>)
    requires ThreeRuns(t)
    ensures Before(t, 13).stored == 6 && Before(t, 13).phase.Idle?
    ensures forall j :: 10 < j < 13 ==> !Completes(Before(t, j), t[j])
  {
    FreshRunConfirms(INITIAL);
    assert t[..10] == t[..12][..10];
    assert t[10] == t[..12][10];
    ReplayStep(INITIAL, t, 10);
    ReplayStep(INITIAL, t, 12);
  }

  lemma EarlyStop(s: State)
    requires s.phase.Idle?
    ensures var a := Next(s, Start);
            var b := Next(a, Proceed);
            var c := Next(b, Stop);
            a.phase.Polling? && b.phase.Gate? && c.phase.Idle? && c.stored == 1
  {
  }

  lemma SixIsOverwritten(t: seq<Event>)
    requires ThreeRuns(t) && Before(t, 13).phase.Idle?
    ensures Before(t, 14).phase.Polling? && Before(t, 15).phase.Gate?
    ensures Before(t, 16).phase.Idle? && Before(t, 16).stored == 1
  {
    var s := Before(t, 13);
    EarlyStop(s);
    ReplayStep(INITIAL, t, 13);
    assert Before(t, 14) == Next(s, Start);
    ReplayStep(INITIAL, t, 14);
    assert Before(t, 15) == Next(Next(s, Start), Proceed);
    ReplayStep(INITIAL, t, 15);
  }

  lemma ThirdRun(t: seq<Event>)
    requires ThreeRuns(t) && Before(t, 16).phase.Idle? && Before(t, 16).stored == 1
    ensures Submits(Before(t, 26), t[26], CONFIRM_STEP)
    ensures forall j :: 16 <= j < 26 ==> !Completes(Before(t, j), t[j])
  {
    var u := t[16..];
    FreshRunConfirms(Before(t, 16));
    assert t[..26] == t[..16] + u[..10];
    ReplayConcat(INITIAL, t[..16], u[..10]);
    assert t[26] == u[10] && t[16] == u[0];
    forall k | 17 <= k < 28
      ensures t[k] == Proceed
    {
      assert t[k] == u[k - 16];
    }
    forall j | 16 <= j < 26
      ensures !Completes(Before(t, j), t[j])
    {
      NotCapturedYet(t, j);
    }
  }

  /** The review step is submitted by the first run (event 10) and by the third (event 26), with no
      completed booking in between: run 1 is stopped with 6 stored, run 2 overwrites it with 1 when it
      sees the slot, run 3 starts over. */
  lemma ConfirmedTwice(t: seq<Event>)
    requires t == THREE_RUNS
    ensures |t| == 28
    ensures Submits(Before(t, 10), t[10], CONFIRM_STEP) && Submits(Before(t, 26), t[26], CONFIRM_STEP)
    ensures forall j :: 10 < j < 26 ==> !Completes(Before(t, j), t[j])
    ensures Before(t, 13).stored == 6 && Before(t, 16).stored == 1
  {
    assert ThreeRuns(t) by {
      assert t[..12] == RUN_TO_CAPTURE;
      assert t[16..] == RUN_TO_CAPTURE;
    }
    FirstRun(t);
    StoppedAtCapture(t);
    SixIsOverwritten(t);
    ThirdRun(t);
  }

  lemma FirstRun(t: seq<Event>)
    requires ThreeRuns(t)
    ensures Submits(Before(t, 10), t[10], CONFIRM_STEP)
  {
    FreshRunConfirms(INITIAL);
    assert t[..10] == t[..12][..10];
    assert t[10] == t[..12][10];
  }

  lemma {:induction false} NotCapturedYet(t: seq<Event>, j: nat)
    requires |t| == 28 && 16 <= j < 26
    requires Before(t, 16).phase.Idle? && Before(t, 16).stored == 1 && t[16] == Start
    requires forall k :: 17 <= k < 28 ==> t[k] == Proceed
    ensures match Before(t, j).phase
            case Idle => j == 16
            case Polling(r) => j == 17 && r == 1
            case Gate(r, i) => j == 16 + 2 * i && r == 1
            case Filled(r, i) => j == 17 + 2 * i && r == 1
            case _ => false
  {
    if j > 16 {
      NotCapturedYet(t, j - 1);
      ReplayStep(INITIAL, t, j - 1);
    }
  }

  // Where a run ends.

  /** The run has not ended within the first `used` events. */
  ghost predicate StillOn(origin: State, tape: seq<Event>, used: nat)
    requires used <= |tape|
  {
    forall k: nat :: k < used ==> !Replay(origin, tape[..k]).phase.Idle?
  }

  lemma StillOnStep(origin: State, tape: seq<Event>, used: nat)
    requires used < |tape| && StillOn(origin, tape, used) && !Replay(origin, tape[..used]).phase.Idle?
    ensures StillOn(origin, tape, used + 1)
  {
  }

  /** An event that does not answer what the run waits for passes it by, but for a shutdown write. */
  lemma NotAnswered(origin: State, tape: seq<Event>, used: nat, s: State)
    requires used < |tape| && s == Replay(origin, tape[..used]) && !s.phase.Idle? && !Answers(s.phase, tape[used])
    ensures Replay(origin, tape[..used + 1]) == if tape[used].Shutdown? then s.(stored := 1) else s
  {
    ReplayStep(origin, tape, used);
  }

  /** What ends a run wherever it is: an escaping exception, Ctrl-C, the end of the process; and a stop that is seen at
      the top of the polling loop, in one of its waits, or in front of any wizard step or the capture. */
  predicate EndsRun(s: State, e: Event) {
    match e
    case Fail => !s.phase.Idle?
    case Interrupt => !s.phase.Idle?
    case Kill => !s.phase.Idle?
    case Stop => s.phase.Polling? || s.phase.Gate?
    case StopInWait => s.phase.Polling?
    case _ => false
  }

  function AnswerTo(s: State, e: Event): Option<Status> {
    match e
    case Fail => Some(InHand(s.run))
    case Interrupt => Some(Interrupted)
    case Kill => None
    case _ => Some(Stopped)
  }

  /** Only a stop at the top of the polling loop touches the store: it clears it. */
  function StoredAfter(s: State, e: Event): nat { if e.Stop? && s.phase.Polling? then 0 else s.stored }

  /** The run that began in `origin` ended right behind event `j` with the answer to it, and left all else as it was
      before but for that clear. */
  ghost predicate EndedAt(origin: State, tape: seq<Event>, j: nat,
                          answer: Option<Status>, executed: seq<nat>, used: nat, stored: nat)
    requires j < |tape|
  {
    var s := Replay(origin, tape[..j]);
    used == j + 1 && answer == AnswerTo(s, tape[j]) && executed == s.run.executed && stored == StoredAfter(s, tape[j])
  }

  lemma EndStep(s: State, e: Event)
    requires ResultOk(s) && EndsRun(s, e)
    ensures var t := Next(s, e);
            && t.phase.Idle? && Returned(t) == AnswerTo(s, e)
            && t.run.executed == s.run.executed && t.stored == StoredAfter(s, e)
  {
  }

  lemma {:induction false} IdleStays(s: State, evs: seq<Event>)
    requires s.phase.Idle? && Start !in evs
    ensures Replay(s, evs).phase.Idle?
  {
    if evs == [] {
    } else {
      var n := |evs| - 1;
      assert evs[n] in evs && forall e :: e in evs[..n] ==> e in evs;
      IdleStays(s, evs[..n]);
    }
  }

  /** A run that consumes its tape until it ends has consumed event `j`, if that ends it, and nothing behind it. */
  lemma EndsThere(r: nat, tape: seq<Event>, used: nat, j: nat)
    requires used <= |tape| && j < |tape| && Start !in tape[..j]
    requires var origin := Next(Resting(r), Start);
             StillOn(origin, tape, used) && (Replay(origin, tape[..used]).phase.Idle? || used == |tape|)
             && EndsRun(Replay(origin, tape[..j]), tape[j])
    ensures var s := Replay(Next(Resting(r), Start), tape[..used]);
            EndedAt(Next(Resting(r), Start), tape, j, Returned(s), s.run.executed, used, s.stored)
  {
    var origin := Next(Resting(r), Start);
    ResultKept(origin, tape[..j]);
    EndStep(Replay(origin, tape[..j]), tape[j]);
    ReplayStep(origin, tape, j);
    if used <= j {
      IdleBefore(origin, tape, used, j);
    }
  }

  lemma IdleBefore(origin: State, tape: seq<Event>, a: nat, b: nat)
    requires a <= b <= |tape| && Replay(origin, tape[..a]).phase.Idle? && Start !in tape[..b]
    ensures Replay(origin, tape[..b]).phase.Idle?
  {
    assert tape[..b] == tape[..a] + tape[a..b];
    ReplayConcat(origin, tape[..a], tape[a..b]);
    assert forall e :: e in tape[a..b] ==> e in tape[..b];
    IdleStays(Replay(origin, tape[..a]), tape[a..b]);
  }

  /** The signal handler's write reaches the store whatever the run is doing, and changes nothing else. */
  lemma ShutdownWritesOne(s: State)
    ensures Next(s, Shutdown) == State(1, s.phase, s.done, s.run)
  {
  }

  // A run that nothing disturbs.

  /** One event to skip form `i`, or two to submit it and save. */
  function Form(r: nat, i: nat): seq<Event> { if r >= i + 1 then [Proceed] else [Proceed, Proceed] }

  /** The forms from `i` on. */
  function Forms(r: nat, i: nat): seq<Event>
    decreases 6 - i
  {
    if i > CONFIRM_STEP then [] else Form(r, i) + Forms(r, i + 1)
  }

  lemma {:induction false} FormsPass(s: State, r: nat, i: nat)
    requires s.phase == Gate(r, i) && 1 <= i <= 6 && r <= 6 && ResultOk(s)
    ensures Replay(s, Forms(r, i)).phase == Gate(r, 6) && ResultOk(Replay(s, Forms(r, i)))
    decreases 6 - i
  {
    if i == 6 {
    } else {
      ReplayConcat(s, Form(r, i), Forms(r, i + 1));
      OneForm(s, r, i);
      ResultKept(s, Form(r, i));
      FormsPass(Replay(s, Form(r, i)), r, i + 1);
    }
  }

  lemma {:induction false} FormsStartNothing(r: nat, i: nat)
    ensures Start !in Forms(r, i)
    decreases 6 - i
  {
    if i > CONFIRM_STEP {
    } else {
      FormsStartNothing(r, i + 1);
    }
  }

  lemma OneForm(s: State, r: nat, i: nat)
    requires s.phase == Gate(r, i) && 1 <= i <= CONFIRM_STEP
    ensures Replay(s, Form(r, i)).phase == Gate(r, i + 1)
  {
    assert [Proceed][..0] == [];
    assert Replay(s, [Proceed]) == Next(s, Proceed);
    TwoEvents(s, Proceed, Proceed);
  }

  function Undisturbed(r: nat, page: Page, ok: bool): seq<Event> {
    [Proceed] + Forms(r, 1) + ([Read(page), Verify(ok), Proceed] + [Proceed])
  }

  lemma ToTheLastGate(r: nat)
    requires r <= 6
    ensures var s := Replay(Next(Resting(r), Start), [Proceed] + Forms(r, 1)); s.phase == Gate(r, 6) && ResultOk(s)
  {
    var origin := Next(Resting(r), Start);
    assert [Proceed][..0] == [] && Replay(origin, [Proceed]) == Next(origin, Proceed);
    ReplayConcat(origin, [Proceed], Forms(r, 1));
    FormsPass(Next(origin, Proceed), r, 1);
  }

  lemma UndisturbedEnds(r: nat, page: Page, ok: bool)
    requires r <= 6
    ensures var s := Replay(Next(Resting(r), Start), Undisturbed(r, page, ok));
            Returned(s) == Some(if ok then Verified else Shown(page)) && s.stored == 0
    ensures Start !in Undisturbed(r, page, ok)
  {
    var origin, evs := Next(Resting(r), Start), [Proceed] + Forms(r, 1);
    ToTheLastGate(r);
    FormsStartNothing(r, 1);
    ReplayConcat(origin, evs, [Read(page), Verify(ok), Proceed] + [Proceed]);
    WorkingClear(Replay(origin, evs), page, ok);
  }

  lemma AllForms(r: nat, evs: seq<Event>)
    requires r <= 6 && Start !in evs && Replay(Next(Resting(r), Start), evs).run.page.Some?
    ensures Replay(Next(Resting(r), Start), evs).run.executed
            == seq(6 - First(r), k requires 0 <= k < 6 - First(r) => First(r) + k)
  {
    OneRun(r, evs);
  }

  /** From every checkpoint a run that finds its slot, and in which everything works, submits exactly the forms from its
      checkpoint to the review, returns what the profile or the page showed, and leaves no checkpoint. */
  lemma UndisturbedRun(r: nat, page: Page, ok: bool)
    requires r <= 6
    ensures var s := Replay(Next(Resting(r), Start), Undisturbed(r, page, ok));
            && Returned(s) == Some(if ok then Verified else Shown(page)) && s.stored == 0
            && s.run.executed == seq(6 - First(r), k requires 0 <= k < 6 - First(r) => First(r) + k)
  {
    UndisturbedEnds(r, page, ok);
    ResultIff(r, Undisturbed(r, page, ok), if ok then Verified else Shown(page));
    AllForms(r, Undisturbed(r, page, ok));
  }

  // A run whose clear fails still reports what it has seen, and a cleared run may report an error.

  lemma ThreeEvents(s: State, a: Event, b: Event, c: Event)
    ensures Replay(s, [a, b, c]) == Next(Next(Next(s, a), b), c)
  {
    assert [a, b, c][..2] == [a, b];
    TwoEvents(s, a, b);
  }

  lemma FailingClear(g: State, page: Page, ok: bool)
    requires g.phase.Gate? && g.phase.step > CONFIRM_STEP && ResultOk(g)
    ensures var s := Replay(g, [Read(page), Verify(ok), Fail]);
            Returned(s) == Some(if ok then Verified else Shown(page)) && s.stored == g.stored && !s.run.cleared
  {
    ThreeEvents(g, Read(page), Verify(ok), Fail);
  }

  lemma WorkingClear(g: State, page: Page, ok: bool)
    requires g.phase.Gate? && g.phase.step > CONFIRM_STEP && ResultOk(g)
    ensures var s := Replay(g, [Read(page), Verify(ok), Proceed] + [Proceed]);
            Returned(s) == Some(if ok then Verified else Shown(page)) && s.stored == 0 && s.run.cleared && s.phase.Idle?
  {
    var evs := [Read(page), Verify(ok), Proceed];
    ThreeEvents(g, Read(page), Verify(ok), Proceed);
    assert (evs + [Proceed])[..3] == evs;
  }

  /** From an empty store: everything goes well up to the clear, which raises.  The result is what the page or the
      profile showed, no failure for `smart_retry` unless it showed an error, and 6 is still stored. */
  lemma FailedClearKeepsResult(page: Page, ok: bool)
    ensures var s := Replay(INITIAL, RUN_TO_CAPTURE + [Read(page), Verify(ok), Fail]);
            Returned(s) == Some(if ok then Verified else Shown(page)) && s.stored == 6 && !s.run.cleared
  {
    FreshRunConfirms(INITIAL);
    ResultKept(INITIAL, RUN_TO_CAPTURE);
    FailingClear(Replay(INITIAL, RUN_TO_CAPTURE), page, ok);
    ReplayConcat(INITIAL, RUN_TO_CAPTURE, [Read(page), Verify(ok), Fail]);
  }

  /** From an empty store: the page mentions an error, the profile does not show the booking, and the rest goes
      well.  The booking is completed, the checkpoint cleared, the result a failure, and the next run can submit
      the review step again. */
  lemma ErrorPageCompletes()
    ensures var s := Replay(INITIAL, RUN_TO_CAPTURE + ([Read(Error), Verify(false), Proceed] + [Proceed]));
            && Returned(s) == Some(Shown(Error)) && CountsAsFailure(Shown(Error))
            && s.stored == 0 && s.run.cleared && CanConfirm(s)
  {
    var tail := [Read(Error), Verify(false), Proceed] + [Proceed];
    FreshRunConfirms(INITIAL);
    ResultKept(INITIAL, RUN_TO_CAPTURE);
    WorkingClear(Replay(INITIAL, RUN_TO_CAPTURE), Error, false);
    ReplayConcat(INITIAL, RUN_TO_CAPTURE, tail);
    ReconfirmIff(Replay(INITIAL, RUN_TO_CAPTURE + tail));
  }

  // ---------------------------------------------------------------------------
  // The program.
  // ---------------------------------------------------------------------------

  datatype Student = Student(name: string, level: string, city: string, status: string)

  function StudentKey(s: Student): string { s.name + "|" + s.level + "|" + s.city }

  predicate InProgress(s: Student) { s.status == "running" || s.status == "in_progress" }

  function HowManyRun(students: seq<Student>): nat {
    if students == [] then 0
    else HowManyRun(students[..|students| - 1]) + if InProgress(students[|students| - 1]) then 1 else 0
  }

  function Lookup(m: map<string, nat>, key: string): nat { if key in m then m[key] else 0 }

  class BookingBot {
    var checkpoints: map<string, nat>

    method SaveCheckpoint(key: string, step: nat)
      modifies this
      ensures checkpoints == old(checkpoints)[key := step]
    {
      checkpoints := checkpoints[key := step];
    }

    method ClearCheckpoint(key: string)
      modifies this
      ensures checkpoints == old(checkpoints) - {key}
    {
      checkpoints := checkpoints - {key};
    }

    /** The signal handler: the students in progress, and only they, get checkpoint 1. */
    method CheckpointAllRunningStudents(students: seq<Student>) returns (count: nat)
      modifies this
      ensures forall s :: s in students && s.status in {"running", "in_progress"} ==>
                            Lookup(checkpoints, s.name + "|" + s.level + "|" + s.city) == 1
      ensures forall k :: (forall s :: s in students && s.name + "|" + s.level + "|" + s.city == k ==>
                                         s.status !in {"running", "in_progress"}) ==>
                            Lookup(checkpoints, k) == Lookup(old(checkpoints), k)
      ensures count == HowManyRun(students)
    {
      count := 0;
      for i := 0 to |students|
        invariant forall s :: s in students[..i] && InProgress(s) ==> Lookup(checkpoints, StudentKey(s)) == 1
        invariant forall k :: (forall s :: s in students[..i] && InProgress(s) ==> StudentKey(s) != k) ==>
                                Lookup(checkpoints, k) == Lookup(old(checkpoints), k)
        invariant count == HowManyRun(students[..i])
      {
        assert students[..i + 1] == students[..i] + [students[i]];
        if InProgress(students[i]) {
          SaveCheckpoint(StudentKey(students[i]), 1);
          count := count + 1;
        }
      }
      assert students[..|students|] == students;
    }

    /** The run that began in `origin` is in state `s` after the first `used` events of the tape, and the
        store agrees with it. */
    ghost predicate At(key: string, origin: State, tape: seq<Event>, used: nat, s: State)
      reads this
    {
      && used <= |tape| && s == Replay(origin, tape[..used]) && s.stored == Lookup(checkpoints, key)
      && StillOn(origin, tape, used)
    }

    /** Waits for the next event that answers what the run waits for; shutdown writes happen meanwhile.  There is
        no such event if the process dies first. */
    method Await(key: string, tape: seq<Event>, start: nat, phase: Phase, ghost origin: State, ghost s: State)
      returns (alive: bool, e: Event, used: nat, ghost t: State)
      requires At(key, origin, tape, start, s) && s.phase == phase && !phase.Idle?
      modifies this
      ensures t == s.(stored := Lookup(checkpoints, key))
      ensures checkpoints - {key} == old(checkpoints) - {key}
      ensures start <= used <= |tape|
      ensures alive ==> start < used && Replay(origin, tape[..used]) == Next(t, e) && Answers(phase, e)
      ensures !alive ==> used == |tape| && Replay(origin, tape[..used]) == t
      ensures StillOn(origin, tape, used)
    {
      used, t := start, s;
      while used < |tape| && !Answers(phase, tape[used])
        invariant start <= used <= |tape| && At(key, origin, tape, used, t)
        invariant t == s.(stored := Lookup(checkpoints, key))
        invariant checkpoints - {key} == old(checkpoints) - {key}
      {
        NotAnswered(origin, tape, used, t);
        StillOnStep(origin, tape, used);
        if tape[used].Shutdown? {
          SaveCheckpoint(key, 1);
          t := t.(stored := 1);
        }
        used := used + 1;
      }
      alive, e := used < |tape|, Kill;
      if alive {
        ReplayStep(origin, tape, used);
        StillOnStep(origin, tape, used);
        e, used := tape[used], used + 1;
      }
    }

    /** What the handlers at the end of the flow make of the event that left the wizard; `None` if the process
        died. */
    function Caught(e: Event, result: Status): Option<Status> {
      if e.Kill? then None else if e.Interrupt? then Some(Interrupted) else Some(result)
    }

    /** The polling loop: left through the slot button or not at all. */
    method PollForSlot(key: string, tape: seq<Event>, resume: nat, ghost origin: State)
      returns (found: bool, answer: Option<Status>, used: nat, ghost t: State)
      requires resume == Lookup(checkpoints, key) && origin == Next(Resting(resume), Start)
      modifies this
      ensures At(key, origin, tape, used, t) && t.run.executed == []
      ensures checkpoints - {key} == old(checkpoints) - {key}
      ensures if found then t.phase == Gate(resume, 1) && t.run == FRESH_RUN.(found := true)
              else answer == Returned(t) && (t.phase.Idle? || used == |tape|)
    {
      found, answer, used, t := false, None, 0, origin;
      assert Replay(origin, tape[..0]) == origin;
      while !found
        invariant At(key, origin, tape, used, t)
        invariant t.phase == (if found then Gate(resume, 1) else Polling(resume))
        invariant t.run == FRESH_RUN.(found := found)
        invariant answer.None?
        invariant checkpoints - {key} == old(checkpoints) - {key}
        decreases !found, |tape| - used
      {
        var alive, e;
        alive, e, used, t := Await(key, tape, used, Polling(resume), origin, t);
        if !alive { return; }
        t := Next(t, e);
        match e {
          case Again =>
          case Proceed =>
            SaveCheckpoint(key, 1);
            found := true;
          case Stop =>
            ClearCheckpoint(key);
            answer := Some(Stopped);
            return;
          case StopInWait =>
            answer := Some(Stopped);
            return;
          case _ =>
            answer := Caught(e, Failed);
            return;
        }
      }
    }

    /** A form step that is due: submit the form, then save the checkpoint behind it. */
    method SaveStep(key: string, tape: seq<Event>, start: nat, resume: nat, step: nat, ghost origin: State,
                    ghost s: State)
      returns (saved: bool, answer: Option<Status>, used: nat, ghost t: State)
      requires At(key, origin, tape, start, s) && s.phase == Filled(resume, step)
      requires s.run.ending.Running? && s.run.result.Failed?
      modifies this
      ensures At(key, origin, tape, used, t) && t.run.executed == s.run.executed
      ensures checkpoints - {key} == old(checkpoints) - {key}
      ensures if saved then t.phase == Gate(resume, step + 1) && t.run == s.run
              else answer == Returned(t) && (t.phase.Idle? || used == |tape|)
    {
      var alive, e;
      saved, answer := false, None;
      alive, e, used, t := Await(key, tape, start, Filled(resume, step), origin, s);
      if !alive { return; }
      t := Next(t, e);
      if !e.Proceed? {
        answer := Caught(e, Failed);
        return;
      }
      SaveCheckpoint(key, step + 1);
      saved := true;
    }

    /** One block of the wizard: the stop check, then the form and its checkpoint unless the run resumes
        behind it. */
    method WizardStep(key: string, tape: seq<Event>, start: nat, resume: nat, step: nat, before: seq<nat>,
                      ghost origin: State, ghost s: State)
      returns (passed: bool, answer: Option<Status>, executed: seq<nat>, used: nat, ghost t: State)
      requires At(key, origin, tape, start, s) && s.phase == Gate(resume, step) && 1 <= step <= CONFIRM_STEP
      requires s.run == FRESH_RUN.(found := true, executed := before)
      modifies this
      ensures At(key, origin, tape, used, t) && t.run.executed == executed
      ensures checkpoints - {key} == old(checkpoints) - {key}
      ensures if passed then t.phase == Gate(resume, step + 1) && t.run == FRESH_RUN.(found := true, executed := executed)
              else answer == Returned(t) && (t.phase.Idle? || used == |tape|)
    {
      var alive, e;
      passed, answer, executed := false, None, before;
      alive, e, used, t := Await(key, tape, start, Gate(resume, step), origin, s);
      if !alive { return; }
      t := Next(t, e);
      if e.Stop? {
        answer := Some(Stopped);
      } else if !e.Proceed? {
        answer := Caught(e, Failed);
      } else if resume >= step + 1 {
        passed := true;
      } else {
        executed := executed + [step];
        passed, answer, used, t := SaveStep(key, tape, used, resume, step, origin, t);
      }
    }

    /** The last stop check and the capture of the confirmation page. */
    method CaptureConfirmation(key: string, tape: seq<Event>, start: nat, resume: nat, ghost origin: State, ghost s: State)
      returns (captured: bool, answer: Option<Status>, used: nat, ghost t: State)
      requires At(key, origin, tape, start, s) && s.phase == Gate(resume, CONFIRM_STEP + 1)
      requires s.run.ending.Running? && s.run.result.Failed?
      modifies this
      ensures At(key, origin, tape, used, t) && t.run.executed == s.run.executed
      ensures checkpoints - {key} == old(checkpoints) - {key}
      ensures if captured then t.phase.Captured? && t.run.ending.Running? && answer == Some(t.run.result)
              else answer == Returned(t) && (t.phase.Idle? || used == |tape|)
    {
      var alive, e;
      captured, answer := false, None;
      alive, e, used, t := Await(key, tape, start, Gate(resume, CONFIRM_STEP + 1), origin, s);
      if !alive { return; }
      t := Next(t, e);
      if e.Stop? {
        answer := Some(Stopped);
      } else if e.Read? {
        captured, answer := true, Some(Shown(e.page));
      } else {
        answer := Caught(e, Failed);
      }
    }

    /** The verification on the profile; `result` has been set before, so an exception leaves it standing. */
    method VerifyBooking(key: string, tape: seq<Event>, start: nat, shown: Status, ghost origin: State, ghost s: State)
      returns (checked: bool, answer: Option<Status>, used: nat, ghost t: State)
      requires At(key, origin, tape, start, s) && s.phase.Captured? && s.run.ending.Running? && s.run.result == shown
      modifies this
      ensures At(key, origin, tape, used, t) && t.run.executed == s.run.executed
      ensures checkpoints - {key} == old(checkpoints) - {key}
      ensures if checked then t.phase.Checked? && t.run.ending.Running? && answer == Some(t.run.result)
              else answer == Returned(t) && (t.phase.Idle? || used == |tape|)
    {
      var alive, e;
      checked, answer := false, None;
      alive, e, used, t := Await(key, tape, start, Captured, origin, s);
      if !alive { return; }
      t := Next(t, e);
      if e.Verify? {
        checked, answer := true, Some(if e.ok then Verified else shown);
      } else {
        answer := Caught(e, shown);
      }
    }

    /** The clear of the checkpoint and the announcement, either of which may raise. */
    method ClearAndAnnounce(key: string, tape: seq<Event>, start: nat, result: Status, ghost origin: State, ghost s: State)
      returns (answer: Option<Status>, used: nat, ghost t: State)
      requires At(key, origin, tape, start, s) && s.phase.Checked? && s.run.ending.Running? && s.run.result == result
      modifies this
      ensures At(key, origin, tape, used, t) && t.run.executed == s.run.executed
      ensures checkpoints - {key} == old(checkpoints) - {key}
      ensures answer == Returned(t) && (t.phase.Idle? || used == |tape|)
    {
      var alive, e;
      answer := None;
      alive, e, used, t := Await(key, tape, start, Checked, origin, s);
      if !alive { return; }
      t := Next(t, e);
      if e.Proceed? {
        ClearCheckpoint(key);
        alive, e, used, t := Await(key, tape, used, Cleared, origin, t);
        if !alive { return; }
        t := Next(t, e);
      }
      answer := Caught(e, result);
    }

    /** One run of the flow.  `tape` is what the environment does from the moment the run has read its
        checkpoint; the run consumes `used` events of it, all of them only if the process dies. */
    method RunStudentFlow(key: string, tape: seq<Event>)
      returns (answer: Option<Status>, executed: seq<nat>, used: nat)
      modifies this
      ensures used <= |tape|
      ensures var s := Replay(Next(Resting(Lookup(old(checkpoints), key)), Start), tape[..used]);
              && Lookup(checkpoints, key) == s.stored
              && executed == s.run.executed
              && answer == Returned(s)
              && (s.phase.Idle? || used == |tape|)
      ensures checkpoints - {key} == old(checkpoints) - {key}
      ensures forall j: nat :: j < |tape| && Start !in tape[..j] ==>
                var origin := Next(Resting(Lookup(old(checkpoints), key)), Start);
                EndsRun(Replay(origin, tape[..j]), tape[j]) ==>
                EndedAt(origin, tape, j, answer, executed, used, Lookup(checkpoints, key))
    {
      used, answer, executed := RunUntilEnd(key, tape);
      forall j: nat | j < |tape| && Start !in tape[..j]
                      && EndsRun(Replay(Next(Resting(Lookup(old(checkpoints), key)), Start), tape[..j]), tape[j])
        ensures EndedAt(Next(Resting(Lookup(old(checkpoints), key)), Start), tape, j, answer, executed, used,
                        Lookup(checkpoints, key))
      {
        EndsThere(Lookup(old(checkpoints), key), tape, used, j);
      }
    }

    method RunUntilEnd(key: string, tape: seq<Event>)
      returns (used: nat, answer: Option<Status>, executed: seq<nat>)
      modifies this
      ensures used <= |tape|
      ensures var origin := Next(Resting(Lookup(old(checkpoints), key)), Start);
              var s := Replay(origin, tape[..used]);
              && Lookup(checkpoints, key) == s.stored
              && executed == s.run.executed
              && answer == Returned(s)
              && (s.phase.Idle? || used == |tape|)
              && StillOn(origin, tape, used)
      ensures checkpoints - {key} == old(checkpoints) - {key}
    {
      var resume := Lookup(checkpoints, key);
      ghost var origin, t := Next(Resting(resume), Start), INITIAL;
      var passed: bool;
      executed := [];
      passed, answer, used, t := PollForSlot(key, tape, resume, origin);
      if !passed { return; }

      var step := 1;
      while step <= CONFIRM_STEP
        invariant 1 <= step <= CONFIRM_STEP + 1
        invariant At(key, origin, tape, used, t)
        invariant t.phase == Gate(resume, step) && t.run == FRESH_RUN.(found := true, executed := executed)
        invariant checkpoints - {key} == old(checkpoints) - {key}
      {
        passed, answer, executed, used, t := WizardStep(key, tape, used, resume, step, executed, origin, t);
        if !passed { return; }
        step := step + 1;
      }

      passed, answer, used, t := CaptureConfirmation(key, tape, used, resume, origin, t);
      if !passed { return; }
      passed, answer, used, t := VerifyBooking(key, tape, used, answer.value, origin, t);
      if !passed { return; }
      answer, used, t := ClearAndAnnounce(key, tape, used, answer.value, origin, t);
    }
  }
}
