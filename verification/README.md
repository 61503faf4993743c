# The control logic of the exam booking bot, in Dafny

The bot books exam places for a list of students. A browser does the clicking; around it sits hand-written
control logic, and that is what this project models and proves correct, or shows where it is not.

Every call into the outside world (a page, a health check, a socket, a clock reading, the random shuffle) is an
arbitrary outcome, and time is an arbitrary clock reading, nondecreasing where the result needs it. Threads that
share state are interleaved one atomic step at a time. Each module has the same three layers: a state with a
step function that says what one event does, lemmas about all runs of it, and the program itself, as classes
with fields and methods with loops, proved to do those steps.

| module | what it is about |
|---|---|
| `BookingWizard` | the five-step wizard with its checkpoint, over any number of runs, stops, failures and shutdown writes |
| `SharedCheckpoint` | any number of runs of the same student at once, on one checkpoint |
| `SmartRetry` | the recursive retry budget around one flow |
| `BookingCall` | one call of the retry around the wizard: how often the review form goes out |
| `StudentScheduler` | one thread per student, a semaphore, requeue counters shared by equal keys |
| `RequeueRace` | the requeue counter with its reads, writes and tests as separate steps: the exact worst case |
| `ScheduledWait` | sleeping until the booking time |
| `CircuitBreaker` | per-type counters, one total, a timed open state |
| `ProxyRotator` | the self-healing proxy pool and its recursive `get` |
| `AuthForwarder` | inserting one header into a byte stream that arrives in arbitrary chunks |
| `LoginLimiter` | five attempts per address and window, and the global lockout |
| `StudentQueue` | the persistent priority queue |
| `LogBroadcaster` | one loop delivering log entries to clients that come and go |
| `WorkerPool` | any number of workers on one job queue |
| `Roster` | merging three sources of students, and deleting a sheet student by its negative id |
| `PluginManager` | hooks sorted by priority, switched on and off, run as a chain |
| `Backends` | the two implementations of the storage functions, checkpoints included |
| `StableSort` | stable sorting, its specification and that it is unique; used by three of the modules above |
| `Common` | optional values and ASCII lower case |

## What the proofs found

Where the code does less than its documentation or a natural reading says, the model follows the code, and the
exact condition is proved.

- The checkpoint is not monotone: a resumed run overwrites a stored 6 with 1 as soon as it sees a free slot. So
  the review form can be submitted twice between two completed bookings (`BookingWizard.ConfirmedTwice`, three
  runs). It takes a lowered or a lost 6 (`ConfirmTwiceNeedsLowering`), and the next run can do it exactly when
  the stored value is below 6 (`ReconfirmIff`).
- The result of a run is set when the confirmation page is read, before the booking is verified and the checkpoint
  cleared. A clear that fails leaves the result standing with 6 still stored (`FailedClearKeepsResult`); a page that
  mentions an error makes a completed, cleared booking count as a failure (`ErrorPageCompletes`). What each result
  says, exactly, is `ResultIff`.
- So one call of `smart_retry` can submit the review form twice: exactly after a form whose checkpoint was not saved,
  or after a completed booking that showed an error (`BookingCall.TwoWaysToSubmitTwice`).
- Two runs of one student at once can leave a checkpoint with nothing behind it (`SharedCheckpoint.TwoRunsBreak`). The
  promise holds as long as no run clears while another relies on a step, and each clear that ignores this can break
  it (`ClearBreaksIff`).
- The failures of a run that has read its checkpoint carry no error text, so `smart_retry` classes them as permanent
  and never spends the transient budget on them (`SmartRetry.SilentFailuresStopAtTwo`). Only an unreadable booking
  time, reported before that, comes with one.
- The requeue counter has no lock. The shared budget holds for every schedule if and only if there is one thread, one
  permit, or no requeueing (`RequeueRace.WithinBudgetIff`); it survives as long as no update is lost
  (`BudgetWithoutLoss`). Otherwise d threads with k of them at once fail at most C(R + 1 + k, k) - 1 + (d - k) times
  for R requeues (`AtMostWorstCase`), and some schedule gets there (`WorstCaseReached`): 14 times for two threads and
  R = 3, in place of 5.
- A booking time with an offset from UTC makes `scheduled_wait` raise, like one that is only white space
  (`ScheduledWait.Wait`).
- The half-open breaker is documented to let one probe through. It admits everyone
  (`CircuitBreaker.HalfOpenAdmitsEveryone`). A failure of another type may leave it half-open (`ReopensIff`), and one
  brings the deadline forward exactly when it trips with the earlier deadline (`ShortensIff`), which equal cooldowns
  rule out (`EqualCooldownsNeverShorten`).
- `get` of the proxy pool comes back for every shuffle if and only if (n - 1) * d <= 300 for n dead proxies with
  checks of d seconds (`ProxyRotator.ReturnsIffFewEnough`).
- A request line of more than 65535 bytes can pass the forwarder without credentials
  (`AuthForwarder.AlwaysInsertedIff`), and what arrives in one chunk behind the head of a CONNECT is lost
  (`ConnectTransparentIff`): it is safe for every way of cutting exactly when nothing follows a head of at most 65537
  bytes (`ConnectAlwaysTransparentIff`).
- `enqueue` returns the id of the last row of the pending list, which is the new row only if no pending row has
  a lower priority (`StudentQueue.EnqueueReturnsOwnIdIff`).
- Deleting a sheet student can take the row of another one that differs in case only
  (`Roster.CaseTwinIsDeleted`). Every listed student can be deleted exactly when there is no name column, or no name,
  level or city column is repeated and `exam_level` does not stand in place of the level
  (`EveryStudentDeletableIff`): its value is sent as a level, and no row has one. And deletion does not remove
  students of the configuration file, which have negative ids too (`GoneIff`).
- The two back ends differ on keys with extra bars, on keys that are numbers, and on missing and empty results
  (`Backends.SameRowsIff`, `NumbersDiffer`, `SameOutcomeIff`). Clearing all checkpoints uses a pattern whose
  underscore matches any character (`ClearedIff`, `WildcardTakesMore`), and in SQLite letters of either case
  (`CaseTakesMore`).

## Model

| member | source | states |
|---|---|---|
| `BookingWizard.NextKeepsInv` | booking_helper.py:2083-2385 | every event, in every phase of a run, keeps: what the checkpoint and the resume step promise has succeeded |
| `BookingWizard.CheckpointSound` | booking_helper.py:2083-2385 | over any history of runs, stops, failures, crashes and shutdown writes, a stored k means steps 1..k-1 succeeded since the last clear, and a run at the capture has all five behind it |
| `BookingWizard.OneRun` | booking_helper.py:2224-2350 | a run from checkpoint r submits First(r), First(r)+1, ... up to at most 5, in order; what it leaves in the store is fixed by how far it got unless the shutdown handler wrote |
| `BookingWizard.ResultIff` | booking_helper.py:2107-2396 | for each result a run can return, exactly what it has seen and how it was left; failures for the retry are an exception before the page, or an error page without a verified booking |
| `BookingWizard.StoreAfterPage` | booking_helper.py:2357-2378 | a run that has read the page leaves no checkpoint if it got to the clear, else 6, or 1 if it had resumed from 6 |
| `BookingWizard.FailedClearKeepsResult` | booking_helper.py:2357-2397 | a clear that raises leaves the shown or verified result standing, with 6 stored |
| `BookingWizard.ErrorPageCompletes` | booking_helper.py:2357-2383 | an error page and no verified booking: the run completes, clears, counts as a failure, and the next can submit the review form again |
| `BookingWizard.ConfirmTwiceNeedsLowering` | booking_helper.py:2341-2355 | two submissions of the review step without a completed booking in between need a 6 that was lowered in one of three ways, or never saved |
| `BookingWizard.ReconfirmIff` | booking_helper.py:2341-2350 | between runs, some next run submits the review step if and only if the stored checkpoint is below 6 |
| `BookingWizard.ConfirmedTwice` | booking_helper.py:2222-2251 | the three-run history in which the review step is submitted twice with no completed booking in between |
| `BookingWizard.EndsThere` | booking_helper.py:2107-2396 | over the events: a failure, a Ctrl-C or the death of the process at any point of the run, a stop in front of any form, the capture or a poll, and a stop in a wait end the run right there: that event is the last one consumed, the result is the one in hand, interrupted, none or stopped, and the submitted steps and the store are those of before, cleared by a stop at the top of the polling loop |
| `BookingWizard.UndisturbedRun` | booking_helper.py:2224-2396 | from every checkpoint an undisturbed run submits exactly the forms from its checkpoint up to the review, in order, returns what the profile or else the page showed, and leaves no checkpoint |
| `BookingWizard.BookingBot.CheckpointAllRunningStudents` | booking_helper.py:1604-1612 | exactly the students whose status is "running" or "in_progress" get checkpoint 1, all other keys keep theirs, and the count is theirs |
| `BookingWizard.BookingBot.PollForSlot` | booking_helper.py:2102-2246 | the polling loop follows the step function; left through the slot it stands before step 1, otherwise it returns what that run returns, and a stop at its top clears the checkpoint |
| `BookingWizard.BookingBot.WizardStep` | booking_helper.py:2277-2339 | one block of the wizard: stop check, skip if resumed behind it, else form and save; follows the step function |
| `BookingWizard.BookingBot.CaptureConfirmation` | booking_helper.py:2353-2359 | the last stop check and the capture follow the step function; from here on the result is what the page shows |
| `BookingWizard.BookingBot.VerifyBooking` | booking_helper.py:2366-2376 | a found booking makes the result verified, otherwise, and on an exception, it stays what the page showed |
| `BookingWizard.BookingBot.ClearAndAnnounce` | booking_helper.py:2378-2396 | the clear and the announcement follow the step function, and neither changes the result unless Ctrl-C does |
| `BookingWizard.BookingBot.RunStudentFlow` | booking_helper.py:2083-2408 | the whole run, as code with loops, is the step function over the events it consumed: store, submitted steps and returned result; wherever an event of the tape ends the run, it consumes nothing behind it and leaves steps and store as before it (`EndsThere`); other students' checkpoints are untouched |
| `SharedCheckpoint.SafeMoveKeepsInv` | booking_helper.py:2083-2385 | an event of any of the runs keeps what the checkpoint and each run rely on, unless it clears while another run relies on a step |
| `SharedCheckpoint.SharedCheckpointSound` | booking_helper.py:2083-2385 | any number of interleaved runs of one student keep the promise of the checkpoint if every clear is of that kind |
| `SharedCheckpoint.ClearBreaksIff` | booking_helper.py:2107-2110 | after a clear the others can break the promise without a further clear if and only if one of them relied on a step |
| `SharedCheckpoint.TwoRunsBreak` | booking_helper.py:2107-2110 | the six events after which 2 is stored and nothing has succeeded since the clear |
| `BookingCall.TwoRunsIff` | booking_helper.py:757-793 | one call makes a second run of the wizard exactly when the first counts as a failure, a retry is left and it is not cut short; never a third |
| `BookingCall.ReviewsOfRun` | booking_helper.py:2341-2350 | one run submits the review form at most once, and from checkpoint 6 not at all |
| `BookingCall.TwiceInOneCallIff` | booking_helper.py:757-793 | after its first run a call can submit the review form again exactly when that run submitted it and counts as a failure, a retry is left, and a checkpoint below 6 is read |
| `BookingCall.TwoWaysToSubmitTwice` | booking_helper.py:2341-2378 | without the shutdown handler that means an unsaved review step, or a completed booking with an error page |
| `SmartRetry.CallsAreFirstEnd` | booking_helper.py:757-793 | the number of flow runs is exactly the first position that is not failed, a permanent failure from the second on, past the budget, or cut by a stop; and the result is that run's, marked stopped only in the last case |
| `SmartRetry.FullBudgetIff` | booking_helper.py:766-792 | at most MAX_SMART_RETRIES + 1 runs, all of them exactly when each earlier one failed, transiently from the second on, and nothing stopped the bot |
| `SmartRetry.WordMakesTransient` | booking_helper.py:764-770 | an error with any of the seven words, anywhere and in either case, is transient |
| `SmartRetry.TransientIff` | booking_helper.py:764-770 | and no other is; a run counts as failed exactly with the status "failed" or "error" |
| `SmartRetry.SilentFailuresStopAtTwo` | booking_helper.py:764-775 | failures without error text get exactly one retry, if the first run fails and nothing stops the bot |
| `StudentScheduler.NextKeepsInv` | webapp.py:381-450 | every atomic step of any thread keeps permits, results and the shared budget in balance |
| `StudentScheduler.SemaphoreConserved` | webapp.py:376-460 | in every reachable state permits plus holders equals MAX_CONCURRENT and each thread not ended as stopped has exactly one result; when all are done every permit is back |
| `StudentScheduler.NoDeadlockIff` | webapp.py:381-460 | in a reachable state with an unfinished thread some thread can step, if and only if MAX_CONCURRENT is at least 1 |
| `StudentScheduler.EveryScheduleEnds` | webapp.py:389-450 | n threads take at most n * (3 * REQUEUE_MAX_RETRIES + 7) steps in any schedule |
| `StudentScheduler.SharedBudget` | webapp.py:426-433 | d threads sharing a key have at most REQUEUE_MAX_RETRIES + d failing `smart_retry` returns between them |
| `StudentScheduler.OutcomeFromEvents` | webapp.py:389-450 | over the events of any run: a thread is on its way out or gone exactly if its last own event in the loop was a stopped return, a check with stop set or a stop in the delay (stopped), a settled return (settled), or a failure beyond the budget of its key (given up) |
| `StudentScheduler.ResultFromEvents` | webapp.py:403-440 | over the events of any run: a thread has a result if and only if the schedule holds a settled return for it, or a failed one beyond the budget of its key |
| `StudentScheduler.WebRun.CountFailure` | webapp.py:426-448 | counting a failure and giving up or requeueing is one step of the machine |
| `StudentScheduler.WebRun.Attempt` | webapp.py:389-448 | one round of the loop does its steps of any valid schedule |
| `StudentScheduler.WebRun.RunOne` | webapp.py:381-450 | the thread's code under any schedule of all threads is a run of the machine, and ends with its permit released |
| `RequeueRace.BudgetWithoutLoss` | webapp.py:426-433 | with read, write and test as separate steps of d threads: at most REQUEUE_MAX_RETRIES + d failures as long as no write loses an update |
| `RequeueRace.PotentialStep` | webapp.py:387-450 | every step of any thread lowers the number of failures still possible by those it makes, however the counter is thrown back |
| `RequeueRace.AtMostWorstCase` | webapp.py:387-450 | no schedule of d threads, k = min(d, MAX_CONCURRENT) of them at once, has more than C(R + 1 + k, k) - 1 + (d - k) failures, R = REQUEUE_MAX_RETRIES |
| `RequeueRace.WorstCaseReached` | webapp.py:387-450 | a schedule with exactly that many |
| `RequeueRace.TwoAtOnce` | webapp.py:387-450 | for two threads that is (R + 1)(R + 4) / 2 |
| `RequeueRace.BudgetExceeded` | webapp.py:387-450 | two threads, two permits and one requeue are enough to exceed the budget |
| `RequeueRace.WithinBudgetIff` | webapp.py:361-450 | the budget holds for every schedule if and only if there is at most one thread, at most one permit, or no requeueing |
| `ScheduledWait.Wait` | booking_helper.py:1096-1122 | with overshoots of at most e <= 1 s a future target is met no earlier than it is and at most 0.5 + e late; the wait ends; only a set stop event makes it end early, and it is never overlooked; it raises exactly for white space, and for a time with an offset unless already stopped |
| `ScheduledWait.Nap` | booking_helper.py:1117-1121 | the inner loop sleeps the given seconds, each behind a look at the stop event |
| `CircuitBreaker.FieldsFromHistory` | circuit_breaker.py:62-113 | counters, mode and deadline as a function of the events since the last success or reset |
| `CircuitBreaker.ModeFromHistory` | circuit_breaker.py:62-84 | closed exactly when no failure met its own type's threshold against the running total |
| `CircuitBreaker.DeadlineFromHistory` | circuit_breaker.py:66-82 | the deadline is the last tripping failure's time plus that type's cooldown, half-open exactly when a request came at or after it |
| `CircuitBreaker.RuleOfEachType` | circuit_breaker.py:26-82 | over any history with n failures since the last clear: one more block opens the breaker exactly if n + 1 reaches the block threshold, with the block cooldown; the same for timeouts with theirs, and for every other type with the generic ones |
| `CircuitBreaker.FiveBlocksOpen` | circuit_breaker.py:26-35 | with the default block rule four blocks leave a fresh breaker closed, and the fifth opens it for 900 seconds |
| `CircuitBreaker.NothingAdmittedBeforeDeadline` | circuit_breaker.py:62-82 | no request is admitted before the last trip's deadline unless a success or reset came in between |
| `CircuitBreaker.AdmittedIff` | circuit_breaker.py:62-72 | with requests in order, one is admitted if and only if nothing has tripped since the last clear or the deadline of the last trip has come |
| `CircuitBreaker.ReopensIff` | circuit_breaker.py:74-82 | a half-open failure re-opens exactly when the running total reaches its type's threshold |
| `CircuitBreaker.SameTypeReopens` | circuit_breaker.py:74-82 | a repeat of the tripping type always re-opens |
| `CircuitBreaker.HalfOpenAdmitsEveryone` | circuit_breaker.py:64-72 | any number of requests is admitted while half-open, against the documented single probe |
| `CircuitBreaker.MixedTypesSurprise` | circuit_breaker.py:74-82 | instances of the two conditions with the default rules: a timeout leaves a breaker tripped by five blocks half-open, and after nine blocks moves the deadline forward |
| `CircuitBreaker.ShortensIff` | circuit_breaker.py:74-82 | after any history, a failure brings the deadline forward exactly when it trips and its own deadline is earlier |
| `CircuitBreaker.EqualCooldownsNeverShorten` | circuit_breaker.py:74-82 | with equal cooldowns and an ordered clock none does |
| `CircuitBreaker.BumpCounts` | circuit_breaker.py:77-78 | recording raises the total and the one counter by one and no other |
| `CircuitBreaker.Breaker.constructor` | circuit_breaker.py:39-50 | a new breaker is in the fresh state, with the default block and timeout rules and the given generic one |
| `CircuitBreaker.Breaker.AllowRequest` | circuit_breaker.py:62-72 | answers no exactly while open before the deadline; an open breaker that admits becomes half-open, nothing else changes |
| `CircuitBreaker.Breaker.RecordFailure` | circuit_breaker.py:74-87 | makes exactly the failure's step; opens exactly if the new total reaches the threshold of the type's own rule, whose cooldown sets the deadline, and leaves mode and deadline alone otherwise |
| `CircuitBreaker.Breaker.RecordSuccess` | circuit_breaker.py:89-95 | back to fresh |
| `CircuitBreaker.Breaker.ResetBreaker` | circuit_breaker.py:109-113 | back to fresh |
| `CircuitBreaker.Breaker.WaitUntilAllowed` | circuit_breaker.py:97-107 | with exact sleeps and no other events it returns exactly at the deadline after ceil(remaining / poll) waits, or at the first stop |
| `ProxyRotator.ResultIsRight` | proxy_rotator.py:50-65 | only members are tested, a returned proxy is the last one tested, and None means every proxy is blacklisted or there are none |
| `ProxyRotator.ReturnedIsHealthy` | proxy_rotator.py:62-63 | a returned proxy passed its check |
| `ProxyRotator.OthersFailed` | proxy_rotator.py:62-65 | every other check of the call failed |
| `ProxyRotator.TestsSomethingIff` | proxy_rotator.py:50-61 | a call tests nothing if and only if there are no proxies, however many are blacklisted |
| `ProxyRotator.FirstCheckSucceeds` | proxy_rotator.py:50-63 | if the first check succeeds the call returns the proxy tested; the blacklist is then empty if nothing was available at the start, else unchanged |
| `ProxyRotator.FirstCheckFails` | proxy_rotator.py:50-69 | if it fails that proxy is blacklisted for 300 s and the other entries stay; if nothing was available at the start, every other member now is |
| `ProxyRotator.GoesOnIff` | proxy_rotator.py:50-65 | the call goes on after a failed check, as a call from there, exactly when another member is available |
| `ProxyRotator.OnlyTheFirstRoundClears` | proxy_rotator.py:51-57 | if something is available at the start, no round of the recursion clears the blacklist or touches entries of untested proxies |
| `ProxyRotator.TimelyGetReturns` | proxy_rotator.py:50-71 | if the call's checks finish within 300 s of its first blacklisting, no proxy is tested twice and n stack frames are enough |
| `ProxyRotator.ReturnsIffFewEnough` | proxy_rotator.py:50-71 | n different dead proxies, however often listed, checks of d seconds: `get` returns for every shuffle if and only if (n - 1) * d <= 300 |
| `ProxyRotator.Rotator.Add` | proxy_rotator.py:28-31 | appends a proxy that is not yet there |
| `ProxyRotator.Rotator.Remove` | proxy_rotator.py:33-37 | takes one occurrence out of the pool and forgets its blacklisting |
| `ProxyRotator.Rotator.MarkFailed` | proxy_rotator.py:67-69 | blacklists for 300 s from now |
| `ProxyRotator.Rotator.Candidate` | proxy_rotator.py:50-61 | clears the blacklist exactly when no member is available, finds a candidate exactly when there are proxies, and picks an available one |
| `ProxyRotator.Rotator.GetProxy` | proxy_rotator.py:50-65 | the recursive method returns and leaves what the specification of the call says; with a successful first check it returns a member, also from an exhausted pool, whose blacklist is then empty |
| `AuthForwarder.ForwardIsInsertion` | proxy_auth_forward.py:58-98 | however the stream is cut, upstream receives request line, CRLF, one inserted header, and the rest byte for byte, or nothing if the stream ends in its head |
| `AuthForwarder.DeletionRestores` | proxy_auth_forward.py:92-94 | the header stands right behind the unchanged request line, and deleting it gives the stream back |
| `AuthForwarder.HeaderSays` | proxy_auth_forward.py:92-94 | the inserted header is, letter by letter, `Proxy-Authorization: Basic`, the credentials, and a line end |
| `AuthForwarder.ConnectSays` | proxy_auth_forward.py:76-82 | so is the request sent for a CONNECT: the target, its Host line, that header, and a keep-alive |
| `AuthForwarder.IsConnectIff` | proxy_auth_forward.py:72-76 | a head is a CONNECT exactly if its first word has the seven letters of the method, in either case |
| `AuthForwarder.AlwaysInsertedIff` | proxy_auth_forward.py:62-69 | the header is inserted for every way of cutting if and only if the request line with its CRLF fits into 65537 bytes |
| `AuthForwarder.LongLineSlipsThrough` | proxy_auth_forward.py:68-94 | a longer line has a way of being cut that forwards the stream unchanged |
| `AuthForwarder.StopsAtEndIff` | proxy_auth_forward.py:62-69 | the head loop stops right at the end of the head exactly when some chunk ends there and no earlier one passes 65536 bytes |
| `AuthForwarder.ConnectTransparentIff` | proxy_auth_forward.py:76-98 | a CONNECT is followed by exactly the bytes behind its head if and only if the chunks are of that kind |
| `AuthForwarder.ConnectAlwaysTransparentIff` | proxy_auth_forward.py:62-98 | so it is for every way of cutting if and only if nothing follows the head and the head has at most 65537 bytes |
| `AuthForwarder.ReadHead` | proxy_auth_forward.py:62-69 | the loop takes the shortest prefix of the chunks that holds the terminator or passes 65536 bytes |
| `AuthForwarder.Pipe` | proxy_auth_forward.py:36-55 | the relay passes on a prefix in order, everything unless the other direction closes the sockets first |
| `AuthForwarder.Reply` | proxy_auth_forward.py:84-98 | the client sees the upstream reply whole and what follows it unchanged, up to where its direction ends |
| `AuthForwarder.Handle` | proxy_auth_forward.py:58-98 | upstream gets the whole rewritten head and a prefix of what the specification says follows, the client a prefix of the replies; all of it where the direction is not cut short |
| `LoginLimiter.AcceptedIff` | webapp.py:514-520 | a request not locked out is accepted if and only if fewer than five accepted ones of its address lie less than 300 s back, though the stored list has been pruned |
| `LoginLimiter.AtMostFivePerWindow` | webapp.py:505-520 | the sixth accepted attempt after any is at least 300 s later, on every history |
| `LoginLimiter.LockoutSpacing` | webapp.py:547-571 | from the thirtieth failure on, two failed checks without a success in between are at least 900 s apart |
| `LoginLimiter.GuessingRate` | webapp.py:547-571 | n + 1 failed checks from there on take at least n lockouts |
| `LoginLimiter.AnswersAreDeserved` | webapp.py:505-572 | with ordered clocks, on every history: locked out exactly while a failed check that was at least the thirtieth since the last success is less than 900 s old, limited exactly if the address has five attempts in the last 300 s, else granted exactly if the credentials are right |
| `LoginLimiter.NoLockBeforeThirty` | webapp.py:565-571 | no lock before the thirtieth failed check since the last success |
| `LoginLimiter.LoginGate.CheckRateLimit` | webapp.py:514-520 | prunes the expired attempts, and books the attempt exactly when fewer than five remain |
| `LoginLimiter.LoginGate.Login` | webapp.py:544-572 | response and new state are those of the step function; granted only with the right credentials, which resets the failures, rejected only with wrong ones, which adds one and from thirty on locks for 900 s; nothing else changes either |
| `StudentQueue.NextKeepsInv` | student_queue.py:17-90 | every operation keeps ids increasing and the active id naming a row in progress |
| `StudentQueue.ActiveIsInProgress` | student_queue.py:17-90 | so it is after any operations |
| `StudentQueue.PendingListIsStable` | db.py:286-292 | ordering by priority and id is the stable sort of the enqueue history by descending priority |
| `StudentQueue.EnqueueReturnsOwnIdIff` | student_queue.py:17-24 | the returned id is the new row's if and only if no pending row has a lower priority |
| `StudentQueue.DequeueLeavesTail` | student_queue.py:36-46 | a dequeue takes the head of the pending list and leaves its tail |
| `StudentQueue.HeadIsNext` | student_queue.py:36-46 | the head of the pending list has the highest priority of all pending rows and the lowest id among those, and the list is empty exactly if nothing is pending |
| `StudentQueue.DrainsInOrder` | student_queue.py:36-62 | without enqueue or reset, what is dequeued followed by what is left is the pending list of the beginning, less the rows finished before their turn |
| `StudentQueue.StudentQueue.EnqueueStudent` | student_queue.py:17-24 | inserts the row, keeps the invariant, and returns the id of the last pending row, its own exactly under that condition |
| `StudentQueue.StudentQueue.DequeueStudent` | student_queue.py:36-46 | returns the pending row of highest priority and lowest id, marks it and no other in progress, and makes it active; none exactly if nothing is pending |
| `StudentQueue.StudentQueue.FinishItem` | student_queue.py:48-62 | that row, if any, is completed on success and failed otherwise, every other keeps its status, and the active id is released if it is this one |
| `StudentQueue.StudentQueue.ResetItem` | student_queue.py:64-70 | back to pending, released if active |
| `StudentQueue.StudentQueue.ClearAll` | student_queue.py:84-88 | empties the table; ids go on from where they were |
| `StudentQueue.StudentQueue.Summarize` | student_queue.py:91-100 | the four counts are the numbers of rows in each status and add up to the total |
| `LogBroadcaster.NextKeepsInv` | websocket_handler.py:41-67 | every step keeps: what is pushed and not yet sent is what is in hand followed by the queue |
| `LogBroadcaster.PushedArePushes` | websocket_handler.py:41-42 | the pushed entries of a run are those of its push events, in order |
| `LogBroadcaster.SegmentWhileRegistered` | websocket_handler.py:41-67 | a registered client is sent exactly the entries of the broadcasts finished meanwhile, in order, under any interleaving |
| `LogBroadcaster.NothingWhileUnregistered` | websocket_handler.py:44-65 | an unregistered client is sent nothing |
| `LogBroadcaster.SessionIsSegment` | websocket_handler.py:41-67 | from a registration to its end by unregistering or a failed send, the client gets one contiguous segment of the pushed entries |
| `LogBroadcaster.BroadcastDelivers` | websocket_handler.py:55-65 | a broadcast brings the oldest unsent entry to exactly the clients registered then whose sending works |
| `LogBroadcaster.DeliveredOrCrashed` | websocket_handler.py:41-67 | in every run each pushed entry has had its broadcast, or is in hand or queued in its place |
| `LogBroadcaster.LiveLoopDrains` | websocket_handler.py:52-67 | a loop that has not crashed works off the queue, and every client registered meanwhile gets all of it |
| `LogBroadcaster.CrashIsFinal` | websocket_handler.py:52-67 | after an entry that cannot be encoded no client is ever sent anything |
| `LogBroadcaster.SendAll` | websocket_handler.py:57-65 | the loop over the clients delivers to all but the broken ones, which it collects |
| `LogBroadcaster.Broadcaster.BroadcastEntry` | websocket_handler.py:57-65 | the delivery under the lock is one step: the clients whose sending works have the entry appended, no one else, and the broken ones are dropped |
| `LogBroadcaster.Broadcaster.TakeEntry` | websocket_handler.py:55-55 | taking an entry off the queue is one step |
| `LogBroadcaster.Broadcaster.PushEntry` | websocket_handler.py:41-42 | pushing is one step |
| `LogBroadcaster.Broadcaster.RegisterClient` | websocket_handler.py:44-46 | registering is one step |
| `LogBroadcaster.Broadcaster.UnregisterClient` | websocket_handler.py:48-50 | unregistering is one step |
| `WorkerPool.NextKeepsInv` | async_worker.py:47-91 | every step of any worker keeps each job in exactly one place with the status of that place |
| `WorkerPool.JobsConserved` | async_worker.py:47-91 | for any number of workers each job is queued and pending, held by exactly one worker and running, or finished and done or failed |
| `WorkerPool.StartedInOrder` | async_worker.py:56-81 | jobs are started in the order they were enqueued, each at most once |
| `WorkerPool.StatusOnlyAdvances` | async_worker.py:75-91 | a status moves only from pending to running to done or failed |
| `WorkerPool.LeftoversStayPending` | async_worker.py:53-80 | when no worker is left in its loop nothing is running, and exactly the queued jobs are pending, for ever |
| `WorkerPool.StopBoundsStarts` | async_worker.py:75-80 | once stop is set, at most as many jobs are started as workers were waiting for one |
| `WorkerPool.BookingWorker.EnqueueJob` | async_worker.py:56-63 | puts a new pending job at the end of the queue |
| `WorkerPool.BookingWorker.StopAll` | async_worker.py:53-54 | sets the stop event and touches no job |
| `WorkerPool.BookingWorker.GetJob` | async_worker.py:77-81 | takes the oldest job and marks it running, or goes back to the top |
| `WorkerPool.BookingWorker.LookAtStop` | async_worker.py:76-76 | leaves the loop exactly when stop is set |
| `WorkerPool.BookingWorker.Process` | async_worker.py:82-91 | books the outcome, done or failed, for the job in hand and no other; a raising callback ends the worker |
| `Roster.MergeKeepsFirstSeen` | webapp.py:1457-1466 | the growing set of seen keys keeps exactly the sheet students whose key occurs neither in the other sources nor earlier in the sheet, in order |
| `Roster.RosterKeys` | webapp.py:1430-1473 | the keys of the roster are those of the three sources |
| `Roster.MergedIdsDistinct` | webapp.py:1469-1472 | with distinct positive database ids the assigned negative ids collide with nothing |
| `Roster.RosterIsStableMerge` | webapp.py:1430-1473 | the roster is the stable sort of the merged sources by booking time, missing times last, with pairwise distinct ids |
| `Roster.RosterOrder` | webapp.py:1473-1473 | of two students the one with the earlier booking text comes first; one without stands behind every time before 9999-12-31T23:59 |
| `Roster.LexLeIff` | webapp.py:1473-1473 | the order of texts: a beginning is less, else the first difference decides |
| `Roster.ReadersAgree` | google_sheets.py:92-98 | a column that is not repeated gives the same field in the row dictionary and by index |
| `Roster.ParsedFields` | google_sheets.py:86-98 | name, level, city and booking time of a padded row are the stripped cells under the last columns of those names |
| `Roster.StripTakesSpaces` | google_sheets.py:96-96 | stripping takes white space off both ends, all of it, and nothing else |
| `Roster.DeletesOwnRowIff` | google_sheets.py:291-302 | deleting the student of a row takes that very row if and only if no earlier student agrees with its key up to case, empty level and city matching anything |
| `Roster.StudentRowIsDeleted` | google_sheets.py:266-309 | the deletion succeeds for every student of the sheet |
| `Roster.NegativeIdDeletes` | webapp.py:801-820 | on the same snapshot the negative id finds its student again; with a header row that sends its level its own row goes if and only if no earlier row agrees, and a level sent from `exam_level` for want of a level column deletes nothing |
| `Roster.SentIsOwn` | webapp.py:813-815 | over padded rows the key sent is the student's own if there is a level column or no `exam_level` |
| `Roster.DeletesExactlyOwnRow` | webapp.py:801-820 | with keys that are non-empty and distinct up to case, exactly the student's own row goes |
| `Roster.OthersStay` | google_sheets.py:86-99 | without its row the sheet lists the same other students in the same order |
| `Roster.GoneIff` | webapp.py:801-820 | after a successful deletion by a negative id the student has left the roster if and only if no other source has its key |
| `Roster.EarlierTwinGoes` | webapp.py:811-815 | of two rows, the first of which agrees with the key sent for the second, deleting the second takes the first |
| `Roster.CaseTwinIsDeleted` | google_sheets.py:291-302 | the same for "Ali" above "ali" |
| `Roster.RepeatedHeaderMisses` | google_sheets.py:281-284 | an instance: with two name columns a listed student's row is not found |
| `Roster.EveryStudentDeletableIff` | webapp.py:811-815 | for a header row, every student any padded sheet lists can be deleted if and only if there is no name column, or none of the three columns is repeated and `exam_level` does not stand in place of the level |
| `Roster.ExamLevelIsMissed` | google_sheets.py:284-298 | with `exam_level` in place of a level column a row is listed but not found |
| `Roster.GoogleSheet.LoadSheetData` | google_sheets.py:75-102 | serves the cache if it is not empty and less than 15 s old, else the students of the sheet as it is; an empty sheet leaves the cache alone |
| `Roster.GoogleSheet.DeleteStudent` | google_sheets.py:266-312 | removes exactly the first row with that name and, where given, that level and city, up to case, and drops the cache; or reports failure, without name or column or if there is no such row, and changes nothing |
| `Roster.ReadFields` | google_sheets.py:94-97 | the loop over the cells builds the row's dictionary |
| `Roster.AssignIds` | webapp.py:1469-1472 | the in-place loop gives entries without id the negative of their position |
| `Roster.GetLoadedStudents` | webapp.py:1430-1473 | the merging loops build the roster of what the sheet serves |
| `Roster.ApiDeleteStudent` | webapp.py:804-820 | the endpoint deletes what the specification says, also when the roster came from the cache |
| `PluginManager.FlipSort` | plugin_manager.py:53-68 | switching handlers commutes with sorting them |
| `PluginManager.ListIsSortedLog` | plugin_manager.py:46-68 | appending and re-sorting at each registration, with any switching in between, gives the list that one sort of the whole history gives |
| `PluginManager.ListIsStable` | plugin_manager.py:46-68 | so each hook's list is in descending priority, equal priorities in the order of registration |
| `PluginManager.DisabledDoNotMatter` | plugin_manager.py:70-80 | a run depends on the functions of enabled handlers only |
| `PluginManager.DisableSilences` | plugin_manager.py:64-80 | after `disable` the functions of that name have no influence on a run |
| `PluginManager.ChainThroughContexts` | plugin_manager.py:70-80 | a run passes its context through the handlers one after the other, what a handler returns replacing it; the result is the last, or the name of the first that raises |
| `PluginManager.Manager.Register` | plugin_manager.py:46-56 | appends and re-sorts the hook's list |
| `PluginManager.Manager.Switch` | plugin_manager.py:58-68 | the loops set exactly the handlers of that name, in every list, to on or off, and change nothing else |
| `PluginManager.Manager.RunHooks` | plugin_manager.py:70-80 | the loop is the fold of the enabled handlers in list order; the first that raises ends it |
| `Backends.SplitOfJoin` | database.py:360-368 | splitting a key undoes joining it when no part holds a bar |
| `Backends.JoinOfSplit` | database.py:360-368 | joining always undoes splitting |
| `Backends.SameRowsIff` | db.py:148-154 | for a key that is no number the back ends differ on a row exactly when the key names it and one of its fields holds a bar |
| `Backends.SameTableIff` | database.py:357-382 | they touch the same rows for all such keys if and only if no stored field holds a bar |
| `Backends.NumbersDiffer` | database.py:369-371 | a number touches nothing on SQLite and the row of that id on SQLAlchemy |
| `Backends.SameOutcomeIff` | database.py:375-379 | on a row both touch they write the same if and only if a non-empty result is given, or none is given and none is stored |
| `Backends.TablesStayEqualIff` | db.py:148-154 | without stored bars, an update leaves two equal tables equal under exactly that condition on the rows of the key |
| `Backends.StudentTable.SqliteUpdate` | db.py:148-154 | exactly the rows whose fields joined with bars are the key get the status and the result, NULL for a missing or empty one; no other row and no other column changes |
| `Backends.StudentTable.OrmUpdate` | database.py:357-382 | the key is taken apart and the loop over the found rows changes those and no other |
| `Backends.IntOfStr` | db.py:255-264 | reading a number back from its text gives the number |
| `Backends.ReadsLastSaved` | db.py:237-264 | what `get_checkpoint` reads after a save is the number saved last under its key; other students keep theirs |
| `Backends.ReadsZeroAfterClear` | db.py:249-268 | a cleared checkpoint reads 0; other students keep theirs |
| `Backends.LikePrefix` | db.py:271-274 | a literal prefix with the pattern's underscore and percent sign matches exactly the keys that go on after the prefix |
| `Backends.ClearedIff` | db.py:271-274 | clearing all removes exactly the keys that go on after the word checkpoint, in any case on SQLite |
| `Backends.ClearAllIsComplete` | database.py:237-240 | afterwards every student's checkpoint reads 0 |
| `Backends.ClearAllIsLocal` | database.py:237-240 | keys that do not start with checkpoint are intact |
| `Backends.WildcardTakesMore` | db.py:271-274 | a key that is no checkpoint is lost to the wildcard |
| `Backends.CaseTakesMore` | database.py:237-240 | a capitalised one is lost on SQLite and kept on PostgreSQL |
| `Backends.StateStore.SaveCheckpoint` | db.py:255-256 | stores the number as text under `checkpoint_` and the student's key |
| `Backends.StateStore.ClearCheckpoint` | db.py:267-268 | removes that key and no other |
| `Backends.StateStore.ClearAllCheckpoints` | db.py:271-274 | a key stays, with its value, exactly if it does not go on after the word checkpoint; every student's checkpoint reads 0 |
| `StableSort.SortIsStable` | plugin_manager.py:53-53 | the sort is sorted and keeps the order within every class of equal keys |
| `StableSort.Unique` | plugin_manager.py:53-53 | sorted lists with the same classes are equal, so a stable sort is determined |
| `StableSort.SortDistinct` | webapp.py:1473-1473 | sorting keeps keys distinct |
| `StableSort.SortFilter` | db.py:286-292 | sorting and selecting may be done in either order |

## Left out

- BookingWizard.RunStudentFlow: each form step, the capture and the polling of the page are one outcome each; the
  backoff between polls, the active hours, the cookie and session handling and the scheduled wait in front of the
  run change no checkpoint and are not in it.
- BookingWizard.CheckpointSound: one run of a student at a time; `SharedCheckpoint` is about several.
- BookingWizard.ResultIff: what the page shows is one of four outcomes; the patterns that decide it are left out.
- SmartRetry.CallsAreFirstEnd: the wait between runs, with its jitter and the circuit breaker, is one outcome:
  cut short by a stop or not.
- StudentScheduler.SharedBudget: the increment and the test of the requeue counter are one atomic step; the
  program does them as separate reads and writes without a lock, and what that does to the bound is `RequeueRace`.
- StudentScheduler.WebRun.CountFailure: the same atomic step.
- RequeueRace.AtMostWorstCase: the threads of one key; threads of other keys only hold permits meanwhile.
- StudentScheduler.EveryScheduleEnds: counting a failure is one step, `smart_retry` is taken to return, and the requeue
  delay to be one step that ends or sees the stop event.
- StudentScheduler.WebRun.RunOne: the status texts of the dashboard, its broadcasts and the writes of the outcome to
  the database are left out.
- ScheduledWait.Wait: a sleep may last at most one second longer than asked for; the time text is already read.
- CircuitBreaker.Breaker.WaitUntilAllowed: exact sleeps and no other user of the breaker while it waits.
- ProxyRotator.TimelyGetReturns: one thread; the shuffle is an arbitrary choice of the first proxy. Python's
  recursion limit is the number of stack frames left.
- ProxyRotator.ReturnsIffFewEnough: all checks fail and take the same time, and nothing is blacklisted before.
- AuthForwarder.Handle: idle timeouts and socket errors are one more reason for a direction to end early; when the two
  directions end relative to each other is given by two numbers of chunks.
- LoginLimiter.LockoutSpacing: requests are handled one after the other.
- LoginLimiter.AnswersAreDeserved: readings of the monotonic clock are not negative; before the first lock the deadline
  is 0.
- LogBroadcaster.SessionIsSegment: the stop flag of the loop and the one-second timeout of its queue are left out.
- WorkerPool.JobsConserved: one new job object per enqueue; the result dictionary, whose keys are made of a clock
  reading and an object address, is left out.
- Roster.GetLoadedStudents: fields other than name, level, city and booking time are left out, and so are
  passwords and failures of a source. The cached row objects that the merge writes ids into are values here.
- Roster.ReadersAgree: white space is space, tab, carriage return and line feed, and lower case is that of ASCII.
- Backends.SameTableIff: digits are those of ASCII, and NULL columns, which match no key, are left out.
- Backends.ReadsLastSaved: the older JSON form that `database.get_checkpoint` tolerates reads as 0, and
  `int` is taken on plain decimal text without blanks, plus signs or underscores.
- PluginManager.Manager.RunHooks: the context is an arbitrary value, and a handler's changes to it in place are
  part of its outcome.
- The rounding of floating point numbers: times are real numbers.
- The SQL engines: tables are sequences and maps, ids strictly increase and are never reused.
- The browser, stealth, captcha, form filling, notifications, mail, chat and schedule scraping: foreign calls with
  no invariant of their own.
- `bounded_backoff`, `_retry_gsheet`, the dead man's switch, the session tokens and the password hashing: easier
  than what is here, or thin wrappers of libraries.
- The user interfaces, the API descriptions and the security headers.
