/** One call of `smart_retry` around the checkpointed wizard: how often it can submit the review form. */
module BookingCall {
  import opened Common
  import opened BookingWizard
  import SmartRetry

  /** The `status` entry as text; the wizard's results carry no `error` entry. */
  function StatusText(x: Status): string {
    match x
    case Failed => "failed"
    case Stopped => "stopped"
    case Interrupted => "interrupted"
    case Shown(Unknown) => "unknown"
    case Shown(Error) => "error"
    case Shown(Submitted) => "submitted"
    case Shown(Confirmed) => "confirmed"
    case Verified => "verified"
  }

  function FlowResultOf(x: Status): SmartRetry.FlowResult { SmartRetry.FlowResult(StatusText(x), "") }

  lemma FailureText(x: Status)
    ensures SmartRetry.Failed(FlowResultOf(x)) <==> CountsAsFailure(x)
  {
  }

  /** A run from checkpoint `r`. */
  function RunFrom(r: nat, evs: seq<Event>): State { Replay(Next(Resting(r), Start), evs) }

  /** A call that starts at checkpoint `r`: what happens in its first run and in its second, if it makes one, and
      whether the shutdown handler writes in between. */
  datatype Call = Call(r: nat, first: seq<Event>, shut: bool, second: seq<Event>)

  function AfterFirst(c: Call): State { RunFrom(c.r, c.first) }

  function SecondFrom(c: Call): nat { if c.shut then 1 else AfterFirst(c).stored }

  function AfterSecond(c: Call): State { RunFrom(SecondFrom(c), c.second) }

  predicate RunsReturn(c: Call) {
    Start !in c.first && Start !in c.second && Returned(AfterFirst(c)).Some? && Returned(AfterSecond(c)).Some?
  }

  function Flow(c: Call): nat -> SmartRetry.FlowResult
    requires RunsReturn(c)
  {
    var one, two := FlowResultOf(Returned(AfterFirst(c)).value), FlowResultOf(Returned(AfterSecond(c)).value);
    (p: nat) => if p == 1 then one else two
  }

  function Runs(c: Call, cut: nat -> bool, max: nat): nat
    requires RunsReturn(c)
  {
    SmartRetry.Retry(Flow(c), cut, max, 1).calls
  }

  /** How often a run submitted the review form. */
  function Reviews(s: State): nat { multiset(s.run.executed)[CONFIRM_STEP] }

  function TimesSubmitted(c: Call, cut: nat -> bool, max: nat): nat
    requires RunsReturn(c)
  {
    Reviews(AfterFirst(c)) + if Runs(c, cut, max) >= 2 then Reviews(AfterSecond(c)) else 0
  }

  /** A call makes at most two runs of the wizard, whatever its budget. */
  lemma TwoRunsIff(c: Call, cut: nat -> bool, max: nat)
    requires RunsReturn(c)
    ensures Runs(c, cut, max)
            == if max >= 1 && CountsAsFailure(Returned(AfterFirst(c)).value) && !cut(1) then 2 else 1
  {
    SmartRetry.SilentFailuresStopAtTwo(Flow(c), cut, max);
    FailureText(Returned(AfterFirst(c)).value);
  }

  lemma {:induction false} CountConsecutive(r: nat, steps: seq<nat>)
    requires Consecutive(r, steps)
    ensures multiset(steps)[CONFIRM_STEP] == if steps != [] && steps[|steps| - 1] == CONFIRM_STEP then 1 else 0
    ensures First(r) > CONFIRM_STEP ==> steps == []
  {
    if steps == [] {
    } else {
      var n := |steps| - 1;
      CountConsecutive(r, steps[..n]);
      assert steps == steps[..n] + [steps[n]];
    }
  }

  /** One run submits the review form at most once, and not at all from checkpoint 6. */
  lemma ReviewsOfRun(r: nat, evs: seq<Event>)
    requires Start !in evs
    ensures Reviews(RunFrom(r, evs)) <= 1
    ensures r >= 6 ==> Reviews(RunFrom(r, evs)) == 0
    ensures Reviews(RunFrom(r, evs)) == 1 ==> |RunFrom(r, evs).run.executed| == 6 - First(r)
  {
    OneRun(r, evs);
    CountConsecutive(r, RunFrom(r, evs).run.executed);
  }

  lemma SubmitThenFail(s: State)
    requires Submits(s, Proceed, CONFIRM_STEP)
    ensures var t := Next(Next(s, Proceed), Fail);
            Returned(t).Some? && t.run.executed == s.run.executed + [CONFIRM_STEP]
  {
  }

  lemma EndsWithReview(r: nat, evs: seq<Event>, before: seq<nat>)
    requires Start !in evs && RunFrom(r, evs).run.executed == before + [CONFIRM_STEP]
    ensures Reviews(RunFrom(r, evs)) == 1
  {
    OneRun(r, evs);
    CountConsecutive(r, RunFrom(r, evs).run.executed);
  }

  /** From every checkpoint below 6 some run submits the review form and then fails. */
  lemma SecondRun(r: nat) returns (evs: seq<Event>)
    requires r < 6
    ensures Start !in evs && Returned(RunFrom(r, evs)).Some? && Reviews(RunFrom(r, evs)) == 1
  {
    ReconfirmIff(Resting(r));
    var walk: seq<Event> :| Start !in walk && Submits(RunFrom(r, walk), Proceed, CONFIRM_STEP);
    evs := walk + [Proceed, Fail];
    ReplayConcat(Next(Resting(r), Start), walk, [Proceed, Fail]);
    TwoEvents(RunFrom(r, walk), Proceed, Fail);
    SubmitThenFail(RunFrom(r, walk));
    EndsWithReview(r, evs, RunFrom(r, walk).run.executed);
  }

  ghost predicate CanSubmitTwice(r: nat, first: seq<Event>, shut: bool, cut: nat -> bool, max: nat) {
    exists second: seq<Event> :: SubmitsTwice(Call(r, first, shut, second), cut, max)
  }

  ghost predicate SubmitsTwice(c: Call, cut: nat -> bool, max: nat) {
    RunsReturn(c) && TimesSubmitted(c, cut, max) == 2
  }

  /** After its first run a call can still submit the review form a second time exactly when the first run
      submitted it, its result counts as a failure, a retry is left and not cut short, and the second run reads
      a checkpoint below 6. */
  lemma TwiceInOneCallIff(r: nat, first: seq<Event>, shut: bool, cut: nat -> bool, max: nat)
    requires Start !in first && Returned(RunFrom(r, first)).Some?
    ensures CanSubmitTwice(r, first, shut, cut, max)
            <==> && Reviews(RunFrom(r, first)) == 1 && CountsAsFailure(Returned(RunFrom(r, first)).value)
                 && max >= 1 && !cut(1) && (shut || RunFrom(r, first).stored < 6)
  {
    var start := if shut then 1 else RunFrom(r, first).stored;
    ReviewsOfRun(r, first);
    if start < 6 {
      var second := SecondRun(start);
      var c := Call(r, first, shut, second);
      TwoRunsIff(c, cut, max);
      assert TimesSubmitted(c, cut, max) == 2 ==> SubmitsTwice(c, cut, max);
    }
    forall second: seq<Event> | SubmitsTwice(Call(r, first, shut, second), cut, max)
      ensures start < 6 && Reviews(RunFrom(r, first)) == 1
      ensures CountsAsFailure(Returned(RunFrom(r, first)).value) && max >= 1 && !cut(1)
    {
      var c := Call(r, first, shut, second);
      ReviewsOfRun(start, second);
      TwoRunsIff(c, cut, max);
    }
  }

  /** Without the shutdown handler there are two ways: the review form went through but its checkpoint was not
      saved, or the booking was completed behind a page that showed an error and a profile that did not show it. */
  lemma TwoWaysToSubmitTwice(r: nat, first: seq<Event>, cut: nat -> bool, max: nat)
    requires r <= 6 && Start !in first && Shutdown !in first && Returned(RunFrom(r, first)).Some?
    ensures var run, x := RunFrom(r, first).run, Returned(RunFrom(r, first)).value;
            CanSubmitTwice(r, first, false, cut, max)
            <==> && Reviews(RunFrom(r, first)) == 1 && max >= 1 && !cut(1)
                 && ((x.Failed? && run.lost) || (x == Shown(Error) && run.cleared))
  {
    TwiceInOneCallIff(r, first, false, cut, max);
    if Reviews(RunFrom(r, first)) == 1 && CountsAsFailure(Returned(RunFrom(r, first)).value) {
      StoreAfterFailure(r, first);
    }
  }

  lemma StoreAfterFailure(r: nat, first: seq<Event>)
    requires r <= 6 && Start !in first && Shutdown !in first && Returned(RunFrom(r, first)).Some?
    requires Reviews(RunFrom(r, first)) == 1 && CountsAsFailure(Returned(RunFrom(r, first)).value)
    ensures var run, x := RunFrom(r, first).run, Returned(RunFrom(r, first)).value;
            RunFrom(r, first).stored < 6 <==> (x.Failed? && run.lost) || (x == Shown(Error) && run.cleared)
  {
    ReviewsOfRun(r, first);
    OneRun(r, first);
    ResultIff(r, first, Returned(RunFrom(r, first)).value);
    ResultKept(Next(Resting(r), Start), first);
    if RunFrom(r, first).run.page.Some? {
      StoreAfterPage(r, first);
    }
  }
}
