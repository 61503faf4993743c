/** `smart_retry`: the recursive retry budget around one booking flow, decided by the class of the error. */
module SmartRetry {
  import opened Common

  /** The two entries of a flow's result that the retry looks at; a missing error is the empty text. */
  datatype FlowResult = FlowResult(status: string, error: string)

  /** The outcome of a whole `smart_retry`: how often the flow ran, and the result handed back. */
  datatype Outcome = Outcome(calls: nat, result: FlowResult)

  const TRANSIENT_WORDS: set<string> :=
    {"timeout", "connection", "temporary", "unavailable", "gateway", "bad gateway", "service unavailable"}

  predicate HasAt(s: string, word: string, i: nat) { i + |word| <= |s| && s[i..i + |word|] == word }

  predicate Contains(s: string, word: string) { exists i: nat :: i <= |s| && HasAt(s, word, i) }

  predicate Failed(r: FlowResult) { r.status == "failed" || r.status == "error" }

  predicate Transient(r: FlowResult) { exists w :: w in TRANSIENT_WORDS && Contains(Lower(r.error), w) }

  lemma LowerInside(a: string, w: string, b: string)
    ensures Contains(Lower(a + w + b), Lower(w))
  {
    var t := Lower(a + w + b);
    assert t[|a|..|a| + |w|] == Lower(w);
    assert HasAt(t, Lower(w), |a|);
  }

  /** Any of the seven words makes an error transient, in any case and anywhere in the text ... */
  lemma WordMakesTransient(status: string, a: string, w: string, b: string)
    requires || Lower(w) == "timeout" || Lower(w) == "connection" || Lower(w) == "temporary" || Lower(w) == "unavailable"
             || Lower(w) == "gateway" || Lower(w) == "bad gateway" || Lower(w) == "service unavailable"
    ensures Transient(FlowResult(status, a + w + b))
  {
    LowerInside(a, w, b);
    assert Lower(w) in TRANSIENT_WORDS;
  }

  /** ... and nothing else does.  Failures are the results "failed" and "error". */
  lemma TransientIff(r: FlowResult)
    ensures Transient(r) <==>
            || Contains(Lower(r.error), "timeout") || Contains(Lower(r.error), "connection")
            || Contains(Lower(r.error), "temporary") || Contains(Lower(r.error), "unavailable")
            || Contains(Lower(r.error), "gateway") || Contains(Lower(r.error), "bad gateway")
            || Contains(Lower(r.error), "service unavailable")
    ensures Failed(r) <==> r.status == "failed" || r.status == "error"
  {
    assert TRANSIENT_WORDS == {"timeout", "connection", "temporary", "unavailable", "gateway", "bad gateway",
                               "service unavailable"};
  }

  /** The recursion.  `flow(p)` is what the p-th run of the flow returns, `cut(p)` whether the wait after
      it (circuit breaker or backoff) ends because the bot is stopped. */
  function Retry(flow: nat -> FlowResult, cut: nat -> bool, max: int, attempt: nat): Outcome
    requires attempt >= 1
    decreases max + 1 - attempt
  {
    var result := flow(attempt);
    if Failed(result) && attempt <= max then
      var retriesLeft := if Transient(result) then max else 1;
      if attempt > retriesLeft then Outcome(attempt, result)
      else if cut(attempt) then Outcome(attempt, result.(status := "stopped"))
      else Retry(flow, cut, max, attempt + 1)
    else Outcome(attempt, result)
  }

  /** A reason for the p-th run to be the last, in the terms of the documentation: success, a permanent
      failure that already had its one retry, the exhausted budget. */
  predicate GivesUpAt(flow: nat -> FlowResult, max: int, p: nat) {
    || !Failed(flow(p))
    || (p >= 2 && !Transient(flow(p)))
    || p > max
  }

  predicate EndsAt(flow: nat -> FlowResult, cut: nat -> bool, max: int, p: nat) {
    GivesUpAt(flow, max, p) || cut(p)
  }

  /** The number of flow runs is exactly the first position with a reason to end, and the result is the
      one of that run, marked as stopped only if being stopped was the sole reason. */
  lemma {:induction false} CallsAreFirstEnd(flow: nat -> FlowResult, cut: nat -> bool, max: int, attempt: nat, p: nat)
    requires 1 <= attempt <= p
    ensures Retry(flow, cut, max, attempt).calls == p <==>
            EndsAt(flow, cut, max, p) && forall q: nat :: attempt <= q < p ==> !EndsAt(flow, cut, max, q)
    ensures Retry(flow, cut, max, attempt).calls == p ==>
            Retry(flow, cut, max, attempt).result ==
            if GivesUpAt(flow, max, p) then flow(p) else flow(p).(status := "stopped")
    decreases max + 1 - attempt
  {
    if EndsAt(flow, cut, max, attempt) {
      assert Retry(flow, cut, max, attempt).calls == attempt;
    } else if p > attempt {
      CallsAreFirstEnd(flow, cut, max, attempt + 1, p);
    } else {
      LaterCalls(flow, cut, max, attempt + 1);
    }
  }

  lemma {:induction false} LaterCalls(flow: nat -> FlowResult, cut: nat -> bool, max: int, attempt: nat)
    requires attempt >= 1
    ensures attempt <= Retry(flow, cut, max, attempt).calls
    ensures attempt <= max + 1 ==> Retry(flow, cut, max, attempt).calls <= max + 1
    decreases max + 1 - attempt
  {
    if EndsAt(flow, cut, max, attempt) {
    } else {
      LaterCalls(flow, cut, max, attempt + 1);
    }
  }

  /** The budget as promised: never more than MAX_SMART_RETRIES + 1 runs, all of them exactly when every
      run before the last fails transiently (the first may fail in any way) and nothing stops the bot. */
  lemma FullBudgetIff(flow: nat -> FlowResult, cut: nat -> bool, max: nat)
    ensures Retry(flow, cut, max, 1).calls <= max + 1
    ensures Retry(flow, cut, max, 1).calls == max + 1 <==>
            forall q: nat :: 1 <= q <= max ==> Failed(flow(q)) && (q == 1 || Transient(flow(q))) && !cut(q)
  {
    LaterCalls(flow, cut, max, 1);
    CallsAreFirstEnd(flow, cut, max, 1, max + 1);
    forall q: nat | 1 <= q <= max
      ensures !EndsAt(flow, cut, max, q) <==> Failed(flow(q)) && (q == 1 || Transient(flow(q))) && !cut(q)
    {
    }
  }

  /** The flow's own failures carry no error text, so they never use the transient budget: one retry if the
      first run fails, however large the budget is. */
  lemma SilentFailuresStopAtTwo(flow: nat -> FlowResult, cut: nat -> bool, max: nat)
    requires forall p :: Failed(flow(p)) ==> flow(p).error == ""
    ensures Retry(flow, cut, max, 1).calls == if max >= 1 && Failed(flow(1)) && !cut(1) then 2 else 1
  {
  }
}
