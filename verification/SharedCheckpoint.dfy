/** Any number of runs of the same student at once, as threads whose students have equal keys make them: they share
    one checkpoint.  When does a stored checkpoint still promise what it should? */
module SharedCheckpoint {
  import opened BookingWizard

  /** The one checkpoint, the steps that succeeded since its last clear, and where each run is. */
  datatype Many = Many(stored: nat, done: set<nat>, phases: seq<Phase>)

  /** Event `e` happens to run `run`. */
  datatype Move = Move(run: nat, e: Event)

  function AllIdle(n: nat): Many { Many(0, {}, seq(n, _ => Idle)) }

  /** What run `i` sees. */
  function Local(m: Many, i: nat): State
    requires i < |m.phases|
  {
    State(m.stored, m.phases[i], m.done, FRESH_RUN)
  }

  function Step(m: Many, v: Move): Many {
    if v.run >= |m.phases| then m
    else
      var t := Next(Local(m, v.run), v.e);
      Many(t.stored, t.done, m.phases[v.run := t.phase])
  }

  function Play(m: Many, moves: seq<Move>): Many
    decreases |moves|
  {
    if moves == [] then m else Play(Step(m, moves[0]), moves[1..])
  }

  predicate Clears(m: Many, v: Move) {
    v.run < |m.phases| && ((m.phases[v.run].Polling? && v.e.Stop?) || (m.phases[v.run].Checked? && v.e.Proceed?))
  }

  /** The run relies on all steps below this number. */
  function Promise(phase: Phase): nat {
    match phase
    case Idle => 0
    case Polling(r) => r
    case Gate(r, i) => if r < i then i else r
    case Filled(r, i) => if r < i + 1 then i + 1 else r
    case Captured => 6
    case Checked => 6
    case Cleared => 0
  }

  predicate AtCapture(phase: Phase) {
    phase.Captured? || phase.Checked? || (phase.Gate? && phase.step > CONFIRM_STEP)
  }

  /** What one run at a time guarantees: a stored k has steps 1..k-1 behind it, and so has a run at the capture. */
  ghost predicate Sound(m: Many) {
    DoneBelow(m.done, m.stored) && forall i: nat :: i < |m.phases| && AtCapture(m.phases[i]) ==> DoneBelow(m.done, 6)
  }

  predicate PhaseOk(phase: Phase) {
    match phase
    case Polling(r) => r <= 6
    case Gate(r, i) => 1 <= i <= 6 && r <= 6
    case Filled(r, i) => r <= i && 1 <= i <= CONFIRM_STEP
    case _ => true
  }

  ghost predicate RunOk(m: Many, i: nat)
    requires i < |m.phases|
  {
    PhaseOk(m.phases[i]) && DoneBelow(m.done, Promise(m.phases[i]))
  }

  ghost predicate ManyInv(m: Many) {
    && m.stored <= 6 && DoneBelow(m.done, m.stored)
    && forall i: nat :: i < |m.phases| ==> RunOk(m, i)
  }

  /** No other run relies on a step when this move clears the checkpoint. */
  ghost predicate SafeMove(m: Many, v: Move) {
    Clears(m, v) ==> forall j: nat :: j < |m.phases| && j != v.run ==> Promise(m.phases[j]) <= 1
  }

  lemma SafeMoveKeepsInv(m: Many, v: Move)
    requires ManyInv(m) && SafeMove(m, v)
    ensures ManyInv(Step(m, v))
  {
    if v.run < |m.phases| {
      assert RunOk(m, v.run);
      var t := Step(m, v);
      forall j: nat | j < |t.phases|
        ensures RunOk(t, j)
      {
        assert RunOk(m, j);
      }
    }
  }

  ghost predicate AllSafe(m: Many, moves: seq<Move>)
    decreases |moves|
  {
    moves == [] || (SafeMove(m, moves[0]) && AllSafe(Step(m, moves[0]), moves[1..]))
  }

  lemma {:induction false} PlayKeepsInv(m: Many, moves: seq<Move>)
    requires ManyInv(m) && AllSafe(m, moves)
    ensures ManyInv(Play(m, moves))
    decreases |moves|
  {
    if moves == [] {
    } else {
      SafeMoveKeepsInv(m, moves[0]);
      PlayKeepsInv(Step(m, moves[0]), moves[1..]);
    }
  }

  lemma InvIsSound(m: Many)
    requires ManyInv(m)
    ensures Sound(m)
  {
    forall i: nat | i < |m.phases| && AtCapture(m.phases[i])
      ensures DoneBelow(m.done, 6)
    {
      assert RunOk(m, i);
    }
  }

  /** Any number of interleaved runs keep the promise of the checkpoint as long as none of them clears it while
      another relies on a step. */
  lemma SharedCheckpointSound(n: nat, moves: seq<Move>)
    requires AllSafe(AllIdle(n), moves)
    ensures Sound(Play(AllIdle(n), moves))
  {
    PlayKeepsInv(AllIdle(n), moves);
    InvIsSound(Play(AllIdle(n), moves));
  }

  // ---------------------------------------------------------------------------
  // The condition is needed at every single clear.
  // ---------------------------------------------------------------------------

  ghost predicate NoClears(m: Many, moves: seq<Move>)
    decreases |moves|
  {
    moves == [] || (!Clears(m, moves[0]) && NoClears(Step(m, moves[0]), moves[1..]))
  }

  /** The promise can be broken without any further clear. */
  ghost predicate CanBreak(m: Many) { exists moves: seq<Move> :: NoClears(m, moves) && !Sound(Play(m, moves)) }

  lemma BreaksNow(m: Many)
    requires !Sound(m)
    ensures CanBreak(m)
  {
    assert NoClears(m, []) && Play(m, []) == m;
  }

  lemma BreaksAfter(m: Many, v: Move)
    requires !Clears(m, v) && CanBreak(Step(m, v))
    ensures CanBreak(m)
  {
    var moves: seq<Move> :| NoClears(Step(m, v), moves) && !Sound(Play(Step(m, v), moves));
    var all := [v] + moves;
    assert all[1..] == moves;
    assert NoClears(m, all) && !Sound(Play(m, all));
  }

  lemma SavesUnbacked(m: Many, j: nat)
    requires j < |m.phases| && m.phases[j].Filled? && m.phases[j].step >= 1 && 1 !in m.done
    ensures CanBreak(m)
  {
    var t := Step(m, Move(j, Proceed));
    assert t.stored >= 2 && !DoneBelow(t.done, t.stored);
    BreaksNow(t);
    BreaksAfter(m, Move(j, Proceed));
  }

  lemma AtCaptureBreaks(m: Many, j: nat)
    requires j < |m.phases| && AtCapture(m.phases[j]) && 1 !in m.done
    ensures CanBreak(m)
  {
    assert !DoneBelow(m.done, 6);
    BreaksNow(m);
  }

  /** A run that relies on step 1 goes on as if it were done. */
  lemma {:induction false} GateBreaks(m: Many, j: nat)
    requires j < |m.phases| && m.phases[j].Gate? && PhaseOk(m.phases[j]) && Promise(m.phases[j]) >= 2
    requires 1 !in m.done
    ensures CanBreak(m)
    decreases 6 - m.phases[j].step
  {
    var r, i := m.phases[j].resume, m.phases[j].step;
    if i == 6 {
      AtCaptureBreaks(m, j);
    } else {
      var t := Step(m, Move(j, Proceed));
      if r >= i + 1 {
        GateBreaks(t, j);
      } else {
        SavesUnbacked(t, j);
      }
      BreaksAfter(m, Move(j, Proceed));
    }
  }

  lemma PromiseBreaks(m: Many, j: nat)
    requires j < |m.phases| && PhaseOk(m.phases[j]) && Promise(m.phases[j]) >= 2 && 1 !in m.done
    ensures CanBreak(m)
  {
    match m.phases[j]
    case Polling(r) =>
      GateBreaks(Step(m, Move(j, Proceed)), j);
      BreaksAfter(m, Move(j, Proceed));
    case Gate(r, i) => GateBreaks(m, j);
    case Filled(r, i) => SavesUnbacked(m, j);
    case Captured => AtCaptureBreaks(m, j);
    case Checked => AtCaptureBreaks(m, j);
    case _ =>
  }

  lemma {:induction false} NoClearsKeepInv(m: Many, moves: seq<Move>)
    requires ManyInv(m) && NoClears(m, moves)
    ensures ManyInv(Play(m, moves))
    decreases |moves|
  {
    if moves == [] {
    } else {
      SafeMoveKeepsInv(m, moves[0]);
      NoClearsKeepInv(Step(m, moves[0]), moves[1..]);
    }
  }

  /** After a clear the other runs can break the promise, without any further clear, if and only if one of them
      relied on a step: it had read a checkpoint of 2 or more, or was past its first form. */
  lemma ClearBreaksIff(m: Many, v: Move)
    requires ManyInv(m) && Clears(m, v)
    ensures CanBreak(Step(m, v)) <==> !SafeMove(m, v)
  {
    var t := Step(m, v);
    if SafeMove(m, v) {
      SafeMoveKeepsInv(m, v);
      forall moves: seq<Move> | NoClears(t, moves)
        ensures Sound(Play(t, moves))
      {
        NoClearsKeepInv(t, moves);
        InvIsSound(Play(t, moves));
      }
    } else {
      var j: nat :| j < |m.phases| && j != v.run && Promise(m.phases[j]) > 1;
      assert RunOk(m, j);
      PromiseBreaks(t, j);
    }
  }

  /** Two runs: the second submits its first form, the first is stopped while it polls, the second saves.  The
      store says 2, and nothing has succeeded since the clear. */
  lemma TwoRunsBreak(moves: seq<Move>)
    requires moves == [Move(0, Start), Move(1, Start), Move(1, Proceed), Move(1, Proceed), Move(0, Stop), Move(1, Proceed)]
    ensures var m := Play(AllIdle(2), moves); m.stored == 2 && m.done == {} && !Sound(m)
  {
    var m := AllIdle(2);
    var m1 := Step(m, moves[0]);
    var m2 := Step(m1, moves[1]);
    var m3 := Step(m2, moves[2]);
    var m4 := Step(m3, moves[3]);
    var m5 := Step(m4, moves[4]);
    var m6 := Step(m5, moves[5]);
    assert moves[1..][1..][1..][1..][1..][1..] == [];
    assert Play(m5, moves[1..][1..][1..][1..][1..]) == m6;
    assert Play(m4, moves[1..][1..][1..][1..]) == m6;
    assert Play(m2, moves[1..][1..]) == m6;
    assert m6.stored == 2 && m6.done == {};
  }
}
