# fyer-rpc in Dafny

A model of the stateful core of the fyer-rpc framework, with proofs about whole runs of it.
`dafny verify dfyconfig.toml` checks the project.

The centre is the failover package: `Execute`, the loop that selects an instance, asks its circuit
breaker, has a detector look at it, calls it, and records the outcome in three places. Around it are the
wire framing, the etcd subscription channels, the discovery cache and the service keys.

| files | what they model |
|---|---|
| `Breaker`, `BreakerHistory`, `BreakerTransitions`, `BreakerLiveness`, `BreakerEviction` | the three-state circuit breaker |
| `Detector`, `ErrorRate` | the health detectors |
| `Manager` | the instance manager and its rotation |
| `Retry` | the retry policies |
| `Failover`, `FailoverAccounting`, `FailoverReplay`, `FailoverEnding`, `FailoverRotation` | `Execute`: what one call does and reports, and the rotation over calls |
| `FailoverSafety`, `FailoverDialing`, `FailoverCompleteness`, `FailoverAnyOrder` | `Execute`: what every run keeps, and when a working instance is found |
| `Recovery` | delays and promotion of failed instances, and whom recovery can heal |
| `Wire`, `WireStream`, `WireCodecs` | message framing and the choice of codec |
| `Registry`, `Delivery`, `Unsubscribe` | subscription channels, the life of their goroutines, and what an Unsubscribe call reaches |
| `Discovery` | the TTL cache |
| `Naming`, `Joining`, `Arithmetic`, `Types` | service keys, keys joined by a separator, number conversions, shared values |

## How the model is built

Where the source changes objects in place there is a class whose fields are the source's fields, and
each method is proved equal to a function on the abstract value (`Step`, `Select`, `Executed`, ...). The
theorems are about those functions, over every history of calls or every run.

- Time is an integer argument. A method that holds a lock is one atomic step; `Allow` in the source holds
  only a read lock around its check-then-add (cluster/failover/breaker.go:131-134), so its bounds
  assume that atomicity.
- What is outside the code is an oracle: the clock, cancellation, random numbers, detection results,
  dials and the caller's operation in `Failover.Env`, the registry's answers in `Registry` and
  `Discovery`, the metadata codecs in `Wire`. The theorems hold for all of them.
- Floating-point factors are exact reals and integers are unbounded, except where the width decides the
  outcome: the opening times of the breaker and the back-off intervals are computed in 64 bits, and
  message lengths are cut to 32 bits. A float beyond the 64-bit range converts as it does on amd64.

## What came out

Some properties a reader would expect do not hold of the code. Each has an example and, where one
exists, the exact condition.

- A half-open breaker can wedge for ever exactly when it allows no counted probe, or asks for a success
  rate above (max + 1) / max (`NeverWedgesIffLive`, `WedgeIsPermanent`).
- Evicting an idle Closed record goes unnoticed exactly when it holds no failures
  (`EvictionUnnoticedIff`); with failures on record it acts like one success.
- The breaker's back-off factor has no upper limit, so every positive timeout has a first failed half-open
  episode (the 48th, for the default 30 s) from which on the reopening time overflows and the breaker
  admits the next call at once (`ReopeningOverflows`, `DefaultOverflowsAt48`, `OverflowedReopeningAdmits`);
  a reopening lasts what the factor says exactly before that (`ReopeningLastsIff`). On a clock that does not
  run back every such episode is reached, so this happens exactly for positive timeouts
  (`EveryOpeningHappens`, `ReadmissionHappensIff`).
- `MaxRetries` counts attempts, not retries: the policies already refuse at attempt = MaxRetries, so
  `Execute` finds a working instance in every list exactly up to max(1, MaxRetries) instances, with the
  handler's own detector and with any other (`CompleteIff`).
- The strategies "random" and "best" select a refused instance again, which costs an attempt: every strategy
  succeeds with 2n - 1 attempts for n instances, and "best" needs them all (`AnyOrderFindsWorking`,
  `BestCompleteIff`).
- A first failure ends the call exactly when MaxRetries is at most one or the policy does not retry its
  error (`FirstFailureEndsIff`). With the default list of retryable errors and the default (jittered)
  policy, that is so for an instance refused by its breaker (`DefaultListStopsFailover`): of the package's own
  errors that list retries only the request timeout (`OwnErrorRetryableIff`).
- Statuses in the instance manager are absorbing, so with a threshold of two or more `Execute` never
  opens a breaker while the lists keep naming the instance, and with a smaller one it can
  (`UnusableIsAbsorbing`, `NeverOpensIff`).
- With the dialing detector one failure is final over `Execute` calls alone exactly for a success threshold
  of two or more, the default among them, or a failure threshold of at most one (`NeverCalledIff`).
  Recovery probes and load-balancer feedback mark the same detector (cluster/failover/recovery.go:228,
  discovery/balancer.go:152-156); they are not part of those runs.
- Recovery with that detector heals an instance exactly when it has not reached the failure threshold: an
  unhealthy one is never dialed again (`RecoversIff`).
- Each dial counts besides the outcome of the call, so a failed dial adds two failures and a served call
  two successes (`ExecuteCountsDials`).
- The back-off interval overflows for small configurations (`BackoffOverflows`). It stays within its limits
  for all attempts exactly when it does not grow (`BoundsHoldForeverIff`), and otherwise as long as the
  product fits (`BackoffGrowsWithinBounds`).
- An encode that fails leaves fourteen bytes on the stream, after which the next message cannot be read
  (`FailedEncodeSpoilsStream`).
- When an `Unsubscribe` call returns, its slot is free and every channel that was ever subscribed to it is
  closed (`UnsubscribeCloses`), later subscriptions included: a new one can be closed by a call that began
  before it exactly when such a call is under way for the slot (`OldCallClosesIff`).
- A subscription can end up where neither `Unsubscribe` nor `Close` cancels it exactly when an earlier
  `Unsubscribe` call has yet to delete what is stored under its key, or its names contain a slash
  (`BeyondReachPossibleIff`).
- A watcher's update panics exactly when `Close` came before it (`PanicsIffShut`).
- Slashes in service names, and colons in the cache key, let one service answer for another, and nothing
  else does (`ListedByAnotherIff`, `CancelsAnotherIff`, `ConfusedIffColon`).

## Model

| member | source | states |
|---|---|---|
| Breaker.SimpleCircuitBreaker.AllowCall | cluster/failover/breaker.go:99-141 | the record after Allow is the specified step, and the answer says whether the call is admitted |
| Breaker.SimpleCircuitBreaker.RecordSuccess | cluster/failover/breaker.go:144-179 | the record after MarkSuccess is the specified step, other records unchanged |
| Breaker.SimpleCircuitBreaker.RecordFailure | cluster/failover/breaker.go:182-246 | the record after MarkFailure is the specified step, other records unchanged |
| Breaker.SimpleCircuitBreaker.QueryState | cluster/failover/breaker.go:249-267 | GetState reports half-open once the deadline has passed and only touches the access time |
| Breaker.SimpleCircuitBreaker.ResetInstance | cluster/failover/breaker.go:270-288 | Reset leaves a new Closed record, other records unchanged |
| Breaker.SimpleCircuitBreaker.GetOrCreateState | cluster/failover/breaker.go:311-343 | returns the existing record or stores a new Closed one |
| Breaker.SimpleCircuitBreaker.RemoveStaleInstances | cluster/failover/breaker.go:75-90 | the cleanup loop removes exactly the idle Closed records |
| Breaker.InstancesAreIndependent | cluster/failover/breaker.go:311-343 | in any run of the whole breaker an instance's record is what its own calls and the cleanup ticks make of it |
| BreakerHistory.StateFollowsHistory | cluster/failover/breaker.go:99-246 | after any history: consecutiveError is the trailing failure run since a success, reset or eviction; Closed has it below the threshold, factor 1 and zero counters; the factor is 2 * 1.5^k after k failed half-open episodes; an episode admits its counted calls plus one, at most HalfOpenMaxCalls + 1 |
| BreakerHistory.OpensOnThreshold | cluster/failover/breaker.go:200-223 | Closed opens if and only if the call is the failure that completes a run of max(1, threshold) |
| BreakerTransitions.Transitions | cluster/failover/breaker.go:99-246 | for every history: a record goes from Open or HalfOpen to Closed if and only if it is reset or a success suffices; to HalfOpen if and only if an Allow comes past the deadline; to Open if and only if a failure comes in HalfOpen or completes the threshold run |
| BreakerTransitions.HalfOpenClosesIff | cluster/failover/breaker.go:160-175 | a success closes a half-open record if and only if at least one call was counted in the episode and (successes + 1) / counted calls >= the configured rate, both counted from the history |
| BreakerTransitions.AdmissionIff | cluster/failover/breaker.go:111-138 | Allow is granted if and only if the record is Closed or absent, or Open past its deadline, or HalfOpen with fewer than HalfOpenMaxCalls counted calls |
| BreakerTransitions.ResetRenews | cluster/failover/breaker.go:270-288 | after a reset every later sequence of calls is answered as by a breaker that has seen nothing |
| BreakerHistory.OpeningLastsExactly | cluster/failover/breaker.go:206-238 | when ten timeouts fit int64, an opening from Closed lasts exactly the timeout and the k-th failed half-open episode reopens for the k-th reopening time, overflow included |
| BreakerHistory.ReopeningLastsIff | cluster/failover/breaker.go:225-238 | the k-th reopening time is 2 * 1.5^(k-1) timeouts, cut off at ten, if and only if that product is below 2^63; otherwise it is -2^63 |
| BreakerHistory.ReopeningTimesGrow | cluster/failover/breaker.go:225-238 | while they fit, reopening times never shrink and equal ten timeouts from the fifth failed episode on |
| BreakerHistory.ReopeningOverflows | cluster/failover/breaker.go:230-238 | every positive timeout has a first failed episode whose reopening overflows, and all later ones do |
| BreakerHistory.DefaultOverflowsAt48 | cluster/failover/config.go:53-56 | for the default 30 s the k-th reopening fits if and only if k < 48 |
| BreakerHistory.OverflowedReopeningAdmits | cluster/failover/breaker.go:117-127 | after a reopening that overflowed the next call is admitted at once |
| BreakerHistory.EveryOpeningHappens | cluster/failover/breaker.go:200-238 | for every configuration and every k some history on a clock that does not run back has just failed its k-th half-open episode |
| BreakerHistory.ReadmitsWhenOverflowed | cluster/failover/breaker.go:225-238 | a call at the instant of the k-th reopening is admitted if and only if that reopening overflowed |
| BreakerHistory.ReadmissionHappensIff | cluster/failover/breaker.go:225-238 | on such a clock some history is readmitted at the instant of its reopening if and only if the timeout is positive |
| BreakerHistory.OpenWindowIsSafe | cluster/failover/breaker.go:117-127 | on a clock that does not run back, no calls without a reset change an Open record's deadline, and Allow is granted if and only if the deadline has passed |
| BreakerHistory.EvictsOnlyIdleClosed | cluster/failover/breaker.go:75-90 | a cleanup tick evicts a record if and only if it is Closed and its last call is longer ago than the idle time |
| BreakerHistory.ReportMatchesAllow | cluster/failover/breaker.go:249-267 | GetState reports the state an Allow at the same instant would leave |
| BreakerLiveness.NeverWedgesIffLive | cluster/failover/breaker.go:129-175 | with every admitted call marked once, no reachable half-open record refuses calls with none of its own outstanding, if and only if HalfOpenMaxCalls >= 1 and rate * max <= max + 1; the same over runs on a clock that does not run back |
| BreakerLiveness.WedgeIsPermanent | cluster/failover/breaker.go:129-137 | a wedged record with nothing outstanding refuses every later call and is never evicted, short of a reset |
| BreakerEviction.EvictionActsLikeSuccess | cluster/failover/breaker.go:75-90 | evicting a stale record and marking one success answer every later sequence of calls alike |
| BreakerEviction.EvictionUnnoticedIff | cluster/failover/breaker.go:75-90 | evicting a Closed record changes no later answer if and only if it holds no failures; the calls that notice can all come at any one time |
| HealthDetector.BaseDetector.MarkFailed | cluster/failover/detector.go:48-65 | counters and status after a failed mark are the specified step |
| HealthDetector.BaseDetector.MarkSucceeded | cluster/failover/detector.go:68-83 | counters and status after a success mark are the specified step |
| HealthDetector.BaseDetector.GetStatus | cluster/failover/detector.go:86-95 | the recorded status, Healthy when there is none |
| HealthDetector.BaseDetector.DetectByDial | cluster/failover/detector.go:110-136 | an unhealthy or isolated instance is not dialed and gives no error; otherwise the dial is marked and the new status returned with the dial's error |
| HealthDetector.StatusIsClosedForm | cluster/failover/detector.go:48-95 | for every history of marks the status depends only on the trailing success run and the failure run before it |
| HealthDetector.CountersAreRuns | cluster/failover/detector.go:48-83 | the two counters are the lengths of the trailing runs |
| ErrorRate.ErrorRateDetector.ReportRequest | cluster/failover/detector.go:163-208 | window, counters and status after a report are the specified step |
| ErrorRate.RatesAreExact | cluster/failover/detector.go:194-200 | the error rate as a quotient exceeds 0.5 and 0.2 if and only if the whole-number comparisons say so |
| ErrorRate.WindowIsRecount | cluster/failover/detector.go:163-192 | after any mix of reports and marks the window is the last W reported outcomes and both counters equal a recount of it |
| ErrorRate.ReportSetsStatus | cluster/failover/detector.go:194-204 | a report that leaves five outcomes or more makes the status a function of the window |
| ErrorRate.ReportedStatus | cluster/failover/detector.go:163-208 | with reports only the status is at every moment a function of the last W outcomes |
| InstanceManagement.InstanceManager.constructor | cluster/failover/failover.go:33-46 | all listed instances start Healthy, rotation at the start |
| InstanceManagement.InstanceManager.UpdateInstances | cluster/failover/failover.go:49-69 | statuses of listed IDs are kept, new IDs are Healthy, the rest forgotten, the rotation unchanged |
| InstanceManagement.InstanceManager.MarkInstanceStatus | cluster/failover/failover.go:72-76 | one status is set, nothing else changes |
| InstanceManagement.InstanceManager.GetInstance | cluster/failover/failover.go:79-110 | the selection for each strategy, or none |
| InstanceManagement.InstanceManager.NextInstance | cluster/failover/failover.go:113-143 | returns the first usable position of the rotation and moves past it |
| InstanceManagement.SelectionIsUsable | cluster/failover/failover.go:79-159 | a selection fails if and only if no listed instance is usable; what it returns is listed and usable, so the fallback is never taken; "best" takes the first usable |
| InstanceManagement.SelectableIff | cluster/failover/failover.go:79-110 | nothing is selected if and only if every listed instance is recorded as Unhealthy or Isolated; "random" can return exactly the listed instances that are not |
| InstanceManagement.StatusLastsWhileListed | cluster/failover/failover.go:49-69 | over any sequence of list updates a status lasts exactly as long as every list names its ID; an ID that was missing from one of them is Healthy when listed again |
| InstanceManagement.RotationIsFair | cluster/failover/failover.go:113-143 | as many selections in a row as there are usable positions visit each exactly once, from any start |
| Retry.BackoffGrowsWithinBounds | cluster/failover/retry.go:98-108 | while the int64 product fits, intervals stay within [initial, max] and never shrink with the attempt |
| Retry.BoundsHoldForeverIff | cluster/failover/retry.go:98-108 | the bounds hold for all attempts if and only if the initial interval is zero or the multiplier is one |
| Retry.BackoffOverflows | cluster/failover/retry.go:98-108 | from 100 ms and multiplier 2 the wait of attempt 37 is negative |
| Retry.SleepIsBounded | cluster/failover/retry.go:98-172 | no wait exceeds max * (1 + jitter), overflow or not |
| Retry.JitterStaysNear | cluster/failover/retry.go:158-172 | a jittered wait is within (1 - j) and (1 + j) times the interval, up to truncation |
| Retry.JitterReaches | cluster/failover/retry.go:158-172 | with positive jitter and interval the possible waits are exactly the whole numbers from (1 - j) times the interval, truncated, up to but not including (1 + j) times it |
| Retry.PlainBackoff | cluster/failover/retry.go:98-172 | while it fits, the interval is initial * floor(multiplier^attempt), at most max, also with zero jitter or in the middle of its range |
| Retry.RetryableIff | cluster/failover/retry.go:136-155 | an error is retryable if and only if the policy is simple, its list is empty, or the message has an entry of the list anywhere in it |
| Retry.OwnErrorRetryableIff | cluster/failover/interface.go:11-18 | under the default list exactly the request timeout, of the package's own errors, is retryable |
| Failover.FailoverHandler.Execute | cluster/failover/failover.go:182-357 | result, error, picks, waits and the state of manager, breaker and detector are those of the specified loop |
| Failover.FailoverHandler.SelectAndTry | cluster/failover/failover.go:253-322 | the loop body after the wait is the specified step |
| Failover.FailoverHandler.Attempt | cluster/failover/failover.go:271-321 | one attempt on an instance is the specified step |
| Failover.FailoverHandler.Conclusion | cluster/failover/failover.go:324-356 | result and error after the loop, with the precedence of errors |
| Failover.FailoverHandler.HandleFailure | cluster/failover/failover.go:375-387 | detector, breaker and manager are all marked failed |
| Failover.FailoverHandler.HandleSuccess | cluster/failover/failover.go:360-372 | detector, breaker and manager are all marked successful |
| Failover.FirstUntried | cluster/failover/failover.go:328-334 | the first listed instance whose ID was not tried, none if all were |
| FailoverAccounting.ExecuteAccounts | cluster/failover/failover.go:218-356 | for every run: no error if and only if success; at most one call per ID and at most max(1, MaxRetries) calls; FailedNodes is exactly the tried non-winners in order; the winner is the last pick and RetryCount counts losers and repeat picks; which error is returned |
| FailoverAccounting.WaitingIsBounded | cluster/failover/failover.go:227-251 | one Execute waits at most MaxRetries - 1 times and in total at most that many longest waits |
| FailoverReplay.ExecuteReplays | cluster/failover/failover.go:253-321 | statuses, breaker records and detector state after Execute are the replay of its picks, and each pick is what its attempt found |
| FailoverEnding.ExecuteEnds | cluster/failover/failover.go:218-356 | when a call ends and with which error, retry count and shown instance: retry refused, cancelled while waiting, nothing usable, or all tried; repeat picks are those of tried IDs while some ID is untried |
| FailoverEnding.NothingAttempted | cluster/failover/failover.go:182-206 | error, shown instance and state of a call that attempts nothing: cancelled on entry, empty list, or no attempt allowed |
| FailoverEnding.SimpleWaits | cluster/failover/retry.go:51-53 | under the simple policy every wait of an Execute is the configured interval |
| FailoverEnding.BackoffWaits | cluster/failover/failover.go:227-251 | under the other policies the wait before attempt j is min(initial * floor(multiplier^j), max), while it fits, without jitter or in the middle of its range |
| FailoverRotation.ExecuteRotates | cluster/failover/failover.go:113-143 | an Execute goes on with the rotation where the state has it; each pick is the first usable position after the one before |
| FailoverRotation.RotationIsLeft | cluster/failover/failover.go:113-143 | an Execute leaves the rotation after its last pick, or after the selection of a tried instance that it ended on |
| FailoverRotation.NextExecuteFollows | cluster/failover/failover.go:49-69 | the first pick of the next Execute with the same list is the first usable position from there |
| FailoverRotation.WinnersRotate | cluster/failover/failover.go:113-143 | from any state, one list and every first try served: the winners of k Executes in a row are the k usable positions, each exactly once |
| FailoverSafety.UnusableIsAbsorbing | cluster/failover/failover.go:49-69 | over any sequence of Execute calls that list it, an ID with an unusable status is never selected again |
| FailoverSafety.ExecuteMarksOnce | cluster/failover/failover.go:274-321 | Execute changes the breaker only by one Allow per try and exactly one mark per admitted try, none per refused one |
| FailoverSafety.ExecuteMarksDetectorOnce | cluster/failover/failover.go:289-321 | beside what Detect does, the detector is marked exactly once per admitted try, with its outcome, and not for refused or repeated picks |
| FailoverSafety.ReadOnlyDetector | cluster/failover/failover.go:289-321 | when Detect only reads, the detector after the picks is the run of those marks |
| FailoverSafety.ExecuteSetsStatuses | cluster/failover/failover.go:260-372 | after Execute the manager has Healthy for the winner, Unhealthy for failed and repeated picks, and the old status for the rest, refused ones included |
| FailoverSafety.ExecuteNeverWedges | cluster/failover/failover.go:274-321 | with a live configuration no sequence of Execute calls leaves a half-open record that refuses the next call |
| FailoverSafety.ExecuteNeverOpens | cluster/failover/failover.go:360-387 | with threshold >= 2 and the ID in every list, Execute never opens its breaker, at most one failure is on record, and it is never refused |
| FailoverSafety.NeverOpensIff | cluster/failover/failover.go:360-387 | over all runs from a new handler whose lists name the ID, its breaker never opens if and only if threshold >= 2 (or nothing is ever attempted) |
| FailoverDialing.FailedOnceNeverCalled | cluster/failover/detector.go:110-136 | with the dialing detector and success threshold >= 2 or failure threshold <= 1, an instance that failed once is never called again by any later Execute of a run of Execute calls |
| FailoverDialing.NeverCalledIff | cluster/failover/detector.go:48-136 | over all runs of Execute calls from a new handler a failed instance is never called again if and only if success threshold >= 2 or failure threshold <= 1 (or nothing is ever attempted) |
| FailoverDialing.ServesLater | cluster/failover/failover.go:49-69 | an instance that one good dial finds healthy and whose breaker is not half-open is called again once it was dropped from the list and listed again, whatever the manager recorded |
| FailoverDialing.ExecuteCountsDials | cluster/failover/failover.go:289-321 | what one Execute does to the counters of each instance it tried: a failed dial adds two failures, a served call two successes, a failed call after a good dial leaves one failure |
| FailoverCompleteness.FailoverFindsWorking | cluster/failover/failover.go:227-322 | with rotation, a live context, distinct IDs, at most max(1, MaxRetries) instances and a policy that retries what the instances run into, one usable instance that works with its present records is enough for success |
| FailoverCompleteness.GoodDialSuffices | cluster/failover/detector.go:110-136 | the dialing detector leaves other instances' records alone, and finds an instance that answers every dial healthy, whatever else its state holds, if and only if the record is healthy or suspect one success short of the threshold |
| FailoverCompleteness.DialingFailoverFindsWorking | cluster/failover/failover.go:162-180 | completeness for the handler's own detector |
| FailoverCompleteness.CompleteIff | cluster/failover/failover.go:227-235 | a list of distinct IDs is served in every such situation if and only if MaxRetries >= 0 and it has at most max(1, MaxRetries) instances; the same with the handler's own detector only |
| FailoverAnyOrder.AnyOrderFindsWorking | cluster/failover/failover.go:253-322 | for every strategy 2n - 1 attempts for n instances are enough |
| FailoverAnyOrder.BestCompleteIff | cluster/failover/failover.go:260-268 | for "best", with refusals retried, they are enough and needed |
| FailoverCompleteness.LongerListsCanFail | cluster/failover/retry.go:17-22 | for every longer list there is an environment of the dialing detector with a usable working instance, all failures retried, in which a new handler's Execute fails |
| FailoverCompleteness.FirstFailureEndsIff | cluster/failover/failover.go:230-251 | after a first pick that fails with error e the call ends without a wait or a second pick if and only if MaxRetries <= 1 or the policy does not retry e |
| FailoverCompleteness.DefaultListStopsFailover | cluster/failover/config.go:43-51 | under the default retryable list a refused or unhealthy first instance ends the call after one pick |
| Recovery.GradualRecoveryStrategy.Recover | cluster/failover/recovery.go:226-242 | on top of what Detect does to the detector, a good probe resets the counter and marks success, any other adds one |
| Recovery.GradualRecoveryStrategy.RecoveryDelay | cluster/failover/recovery.go:245-261 | the loop with early exit computes min(max, f applied attempts times to base) for f(x) = floor(3x/2) |
| Recovery.DelayFollowsBadRun | cluster/failover/recovery.go:226-261 | the delay is a function of the trailing run of bad probes; only a good probe shortens it |
| Recovery.DelayInFigures | cluster/failover/recovery.go:245-261 | the delay is one second times 1.5^k, up to truncation, below fifteen bad probes and five minutes exactly from the fifteenth on |
| Recovery.ProbingRecoveryStrategy.Recover | cluster/failover/recovery.go:291-335 | the kept probe results, the promotion, the detector and the returned error |
| Recovery.PromotionIsEveryThirdGood | cluster/failover/recovery.go:291-335 | promotion happens if and only if the trailing run of good probes is a positive multiple of three |
| Recovery.RecoversIff | cluster/failover/detector.go:110-118 | with the dialing detector some sequence of recovery attempts makes an instance healthy if and only if it is recorded as healthy or suspect |
| Wire.EncodeMessage | protocol/protocol.go:20-83 | bytes written, sizes filled in, and the error, for a writer that may fail after any number of bytes |
| Wire.DecodeMessage | protocol/protocol.go:86-149 | message or error, and what is left unread |
| Wire.ReadHeader | protocol/protocol.go:91-119 | the header fields in order, with the magic number checked first |
| WireStream.RoundTripIff | protocol/protocol.go:20-149 | a message that encodes is read back exactly if and only if its magic is right and both parts are under 2^32 bytes |
| WireStream.FrameLayout | protocol/header.go:24-48 | the position of every header field byte by byte, most significant byte first, then metadata and payload |
| WireCodecs.MetadataIsWritten | protocol/protocol.go:152-161 | metadata of type 1 is written as the JSON codec encodes it and of type 2 as the Protobuf codec does; encoding lacks a codec if and only if there is metadata and the type names no registered one |
| WireStream.StreamRoundTrip | protocol/protocol.go:20-149 | any list of encoded messages plus any tail decodes to those messages and leaves the tail |
| WireStream.TruncationFails | protocol/protocol.go:86-149 | every strict prefix of an encoded message fails with an end-of-stream error |
| WireCodecs.DecodeOutcome | protocol/protocol.go:86-161 | every outcome of decoding, success and each error, told from the bytes of the stream and the registered codecs |
| WireStream.FailedEncodeSpoilsStream | protocol/protocol.go:44-53 | after an encode that fails the next message on the stream cannot be read: always for lack of a codec, otherwise while fewer than 0x3f3f0000 bytes follow the header |
| Registry.EtcdRegistry.SubscribeTo | registry/etcd/registry.go:132-175 | the step of Subscribe, sharing an existing channel and undoing a failed one |
| Registry.EtcdRegistry.OnExit | registry/etcd/registry.go:183-207 | the deferred cleanup removes and closes only the goroutine's own channel |
| Registry.EtcdRegistry.OnEvent | registry/etcd/registry.go:235-246 | the lookup before a send |
| Registry.EtcdRegistry.SendUpdate | registry/etcd/registry.go:248-254 | a send on a closed channel ends the goroutine |
| Registry.EtcdRegistry.CancelWatch | registry/etcd/registry.go:267-269 | Unsubscribe calls the stored cancel function |
| Registry.EtcdRegistry.ForgetWatch | registry/etcd/registry.go:270 | and then deletes what is stored under the key |
| Registry.EtcdRegistry.LookForSlot | registry/etcd/registry.go:274-282 | it returns if the slot is free and goes to sleep if not |
| Registry.EtcdRegistry.CleanupSlot | registry/etcd/registry.go:284-299 | after the sleep it removes and closes the mapped channel |
| Registry.EtcdRegistry.CloseAll | registry/etcd/registry.go:338-358 | the nested loops close every mapped channel, each once, and empty the map |
| Registry.EveryInterleavingIsSafe | registry/etcd/registry.go:132-358 | over every interleaving no channel is closed twice, every mapped channel is open, in its own slot and with its goroutine, and no inner map is empty |
| Registry.OneSlotPerChannel | registry/etcd/registry.go:24 | in every run a channel sits in at most one slot |
| Registry.LateGoroutineIsHarmless | registry/etcd/registry.go:196-206 | once its channel has left the map, a goroutine's send or exit changes neither the map nor the closed channels, at any point of any run |
| Delivery.EventIsDelivered | registry/etcd/registry.go:235-254 | an event for a mapped channel leads to a send, whatever is interleaved; while the channel is mapped the send leaves it open and the goroutine waits again |
| Delivery.LeavesOnlyIfDismissed | registry/etcd/registry.go:209-246 | in every run a goroutine is leaving if and only if its watch ended, an event found its slot free, or it sent on its closed channel |
| Delivery.ExitIsFinal | registry/etcd/registry.go:183-194 | a goroutine that has exited is cancelled and does not come back |
| Delivery.CallsBalance | registry/etcd/registry.go:263-301 | in every interleaving the Unsubscribe calls that began are those that returned and those under way |
| Registry.ChannelsFollow | registry/etcd/registry.go:132-358 | over any run a channel in the map stays there or is closed, and one that has left never returns |
| Registry.ClosedForGood | registry/etcd/registry.go:204 | a closed channel stays closed and never returns to the map |
| Unsubscribe.NewSubscriptionCanBeCancelled | registry/etcd/registry.go:164-168 | a new subscription's goroutine is cancelled by Unsubscribe and by Close, and Close closes every mapped channel |
| Unsubscribe.UnsubscribeCloses | registry/etcd/registry.go:263-301 | whatever is interleaved, when an Unsubscribe call returns its slot is free and any channel that was subscribed to it before is closed |
| Unsubscribe.OldCallClosesIff | registry/etcd/registry.go:273-299 | a new subscription can be closed by an Unsubscribe call that began before it if and only if one is under way for its slot, at whatever stage |
| Unsubscribe.BeyondReachPossibleIff | registry/etcd/registry.go:267-271 | a new subscription can become one that no Unsubscribe and no Close cancels if and only if an earlier Unsubscribe call has yet to delete what is stored under its key, or its service or version contains a slash |
| Unsubscribe.CancelReachesItsOwn | registry/etcd/registry.go:141-168 | for slash-free service names, whatever the versions, Unsubscribe cancels only its own slot's goroutine |
| Unsubscribe.CancelsAnotherIff | registry/etcd/registry.go:264-271 | some interleaving leads Unsubscribe for a slot to cancel another slot's goroutine if and only if its service or version contains a slash |
| Discovery.DefaultDiscovery.GetService | discovery/discovery.go:73-118 | hit, miss with store, failed listing, or closed, whatever others do between its three uses of the lock |
| Discovery.DefaultDiscovery.UpdateCache | discovery/discovery.go:219-237 | the entry is written with the present time; on a closed cache it panics |
| Discovery.PanicsIffShut | discovery/discovery.go:184-195 | in any run an update panics, a check and a store fail, if and only if Close came before; a lookup then finds nothing |
| Discovery.DefaultDiscovery.CleanCache | discovery/discovery.go:207-213 | the loop removes exactly the entries older than the TTL |
| Discovery.DefaultDiscovery.CloseDiscovery | discovery/discovery.go:184-195 | closing empties the cache, once |
| Discovery.LookupIsLatestFresh | discovery/discovery.go:83-118 | a lookup answers with the latest list written under its key if younger than the TTL and misses otherwise |
| Discovery.TickKeepsTheFresh | discovery/discovery.go:198-216 | after a tick a key is cached if and only if its latest write is not older than the TTL |
| Discovery.CleaningIsInvisible | discovery/discovery.go:198-216 | all answers of a run before Close are those of the same run without the cleaner |
| Discovery.KeysAreDistinct | discovery/discovery.go:81 | for colon-free names, whatever the versions, a cache key stands for one name and version |
| Discovery.ConfusedIffColon | discovery/discovery.go:81 | in some run before Close, on a clock that does not run back, a lookup is answered with a list written for another service or version if and only if its own name or version contains a colon |
| Naming.ParseUndoesBuild | naming/naming.go:28-39 | parsing a built key gives its parts back if and only if they are slash-free, and rejects it otherwise |
| Naming.PrefixQueryIsExact | registry/etcd/registry.go:305-307 | for slash-free names a built key has the list prefix of (s, v) if and only if it was built for s and v |
| Naming.ListedByAnotherIff | registry/etcd/registry.go:305-307 | the query for some other service or version also lists a built key if and only if one of its parts contains a slash |

## Left out

- Sockets, listeners, dialing and reflection dispatch in rpc and api: input and output plumbing.
- JSON and Protobuf encoding: library code, represented by any codecs that decode what they encode and encode nothing to the empty string.
- etcd leases of registered instances, TLS and the etcd client; a service name crafted so that its subscription key equals a registered instance key, which makes Unsubscribe panic on a type assertion.
- Counters of the breaker and detectors are unbounded: 32-bit wrap-around of consecutiveError after 2^31 failures is not modelled.
- The breaker's write-only fields lastErrorTime and openCount, the detector's timestamps and the expiry of error-rate statuses, result durations, metrics and monitors.
- Interleavings inside one breaker call, float rounding in factors and rates, and back-off factors beyond the float range.
- ContextBasedRetryPolicy, HealthCheckDetector's own loop and RecoveryManager: they delegate their decisions to modelled parts; leaving the recovery list does not mean that an instance is healthy (cluster/failover/recovery.go:128-136, 182-187).
- cluster/group, cluster/selector, balancers, connection pool, metrics, logging, configuration setters, examples and generated files.
