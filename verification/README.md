# Verification of the relay client's instruction pipeline

This project models the part of the DegenBox Hyperliquid client that decides what is
traded: the relay client that takes signed instructions from a server, guards them, queues
them and executes them step by step on the exchange, and the tables, allocators and buffers
it relies on. It states, for every run, the promise made in `SECURITY.md` and in the code: an
instruction is executed only if it is signed, fresh, not a duplicate, within the rate limit
and within the risk limits.

`dafny verify dfyconfig.toml` checks everything.

## How it is organised

| file | contents |
|---|---|
| `Pipeline.dfy` | the transition system: reader, bounded queue, worker, pause flag, clock, and the history the theorems speak about |
| `Conservation.dfy`, `Transcripts.dfy`, `Vetting.dfy`, `Bounds.dfy` | inductive invariants: order and fates of deliveries, what was said to the exchange, what a ticket vouches for, counters |
| `Guarantees.dfy`, `Replay.dfy`, `EmptyId.dfy` | the theorems about whole runs |
| `Path.dfy`, `Attained.dfy` | completeness of the guards: what is acceptable can be queued; runs that attain the bounds |
| `Relay.dfy` | the client object: `HandleInstruction` as code whose trace is a run of the transition system |
| `Executor.dfy`, `Execution.dfy` | executing an instruction until a step fails; the worker's steps add up to it |
| `Dedup.dfy`, `SlidingWindow.dfy`, `CircuitBreaker.dfy` | the time-windowed guards as objects, against their unbounded call histories |
| `Validator.dfy`, `Limits.dfy`, `Floats.dfy` | the risk validator, its clamp, the notional estimate |
| `JsonText.dfy`, `KeyOrder.dfy`, `Json.dfy`, `Printers.dfy`, `Float53.dfy`, `Canonical.dfy`, `Signed.dfy` | the canonical encoder, its unique readability, and what equal signed bytes imply |
| `Layout.dfy`, `Printed.dfy` | the canonical text written out key by key, and the proof that it is the encoder's |
| `Nonce.dfy`, `Assets.dfy`, `KillSwitch.dfy`, `TradeStore.dfy` | exchange nonces, asset table, kill switch, trade ring buffer |
| `Instructions.dfy` | the records that travel |

Time is one integer clock in nanoseconds that never goes back. Signature verification, the
hexadecimal decoder, number parsing, the asset resolver, the account snapshot and the
exchange's replies are arbitrary functions or values; one number parser serves a whole run. In the transition system every check of
the reader, every step of the worker, the clock, the breaker's pause callback and the server's
messages may interleave in any way the goroutines allow; the guards of the transition system are
the same functions (`Dedup.CheckStep`, `SlidingWindow.Admits`, `CircuitBreaker.Trips`,
`Validator.Accepts` and `Clamp`, `Executor.CallOf` and `ResultOf`) that the imperative code is
proved against.

## What the proofs found

- The duplicate filter's scan for its oldest entry uses the empty string for "nothing chosen
  yet". It finds an oldest entry for every iteration order exactly when the empty id is not
  strictly the oldest (`Dedup.ScanExact`). What that costs is exact too: an id can come back too
  soon only if the empty id was accepted less than the time to live before it
  (`Dedup.RunIsConsistent`), and for every size and time to live of at least two it can
  (`Dedup.SeparationExact`), in the whole client as well (`EmptyId.EmptyIdBreaksAtMostOnce`), since
  the filter runs before the signature check.
- At most once holds, with that exception, for every message stamped less than four minutes ahead
  of its acceptance, unless a thousand other ids are accepted in between: within 70 seconds, if it
  is stamped at most ten seconds ahead (`Replay.SecondCopyNeeds`, `Replay.HonestMessageAtMostOnce`).
  A message stamped four minutes or more into the client's future on arrival is different: the
  reader may hold it until it is fresh, its id then expires first, and it can be executed again.
  `Replay.AtMostOnceExactly` shows that this timestamp, which the reader sees before it does
  anything, decides. The run it builds lets the reader wait between the duplicate check and the
  age check.
- The timestamp is not part of the signed text. The same signed instruction under a new timestamp
  can be executed again once its id has expired, and no sooner (`Replay.SameIdExactly`).
- Integers inside orders, cancels and modifications pass through float64. Equal signed bytes
  determine the exchange calls for all instructions bounded by a magnitude exactly when that
  bound is at most 2^53 (`Signed.SignedBytesDetermineCalls`).
- `strconv.ParseFloat` accepts "NaN", and a NaN price or size passes every comparison of the
  validator. The portfolio check is made for a placed order exactly when no order is valued at NaN
  (`Limits.PortfolioCheckRunsExactly`); `Limits.AcceptedUnvalued` is such an order.
- The notional of an accepted instruction is at most the product of the three limits exactly when
  no order is valued at NaN and, should the product be negative, an order is placed
  (`Limits.NotionalBoundExact`). The configuration does not refuse negative limits, and an
  instruction without orders is estimated at zero (`Limits.AcceptedAboveNegativeCap`).
- Validating an accepted instruction again refuses it exactly when a leverage was clamped to an
  exchange maximum below one (`Limits.RevalidationExact`, `Limits.AcceptedOnce`).
- After a pause by the server at most 16 queued instructions still start; after one by the
  breaker's callback at most 17, since the reader may be past its pause check. Both numbers, and
  rate + 17 starts within a minute, are attained (`Attained.dfy`).
- The k-th nonce stays within k of the highest clock reading exactly when that reading is at
  least one (`Nonce.NoncesAreFresh`, `Nonce.ZeroReadingIsPassed`).
- The comment on the circuit breaker speaks of a rolling window (`internal/relay/circuitbreaker.go:9-10`);
  the code has none: failures count however far apart they are, and the model follows the code.

## Model

| member | source | states |
|---|---|---|
| Guarantees.ExecutionIsAuthorized | internal/relay/client.go:351-471 | in every run, every executed step belongs to an arrived delivery that was accepted as new, then found the pause flag down, then carried a timestamp at most 60 seconds old and 10 seconds ahead, carries a hexadecimal signature that verifies over its canonical text, was then admitted by the limiter, passed the validator and the portfolio check, and differs from the signed step at most by a lower leverage within the configured maximum |
| Guarantees.ExecutionFitsPortfolio | internal/relay/client.go:447-459 | in every run, the portfolio check is never skipped for a placed, valued order: whenever a step of an instruction is executed that places orders, none valued at NaN, its estimate was positive, and the account fetched for it, if any, had exposure and positions to spare |
| Guarantees.CallsAreThoseOfSignedSteps | internal/relay/executor.go:12-158 | in every run, what was called and what resulted for a finished instruction is the executor's run of its clamped, signed steps, under any exchange that would have replied as it did |
| Guarantees.ScriptsCanBeReplayed | internal/relay/executor.go:12-69 | for every started instruction there is such an exchange |
| Transcripts.StepKeepsScripted | internal/relay/executor.go:25-62 | every step keeps every transcript the part of that run made so far, or the whole of it once the instruction is finished |
| Vetting.ExecutesOnlySignedSteps | internal/relay/validator.go:88-105 | the step executed next is the signed one, except that a leverage is the smaller of the signed value and the market's exchange maximum |
| Vetting.StepKeepsVetted | internal/relay/client.go:351-471 | every step of reader, worker, server or clock keeps every ticket vouching for all checks, each on an acceptance and an admission of its own |
| Vetting.StepKeepsGuarded | internal/relay/client.go:87-91 | every step keeps the limiter, the duplicate filter (over any ids) and the breaker consistent with their histories, the pause flag at what it was last set to, and trips equal to pending plus delivered pause callbacks |
| Guarantees.PassesAreNotShared | internal/relay/client.go:426-434 | two started instructions never rest on the same acceptance or the same admission |
| Guarantees.RunKeepsInv | internal/relay/client.go:112-121 | all invariants together hold in every state of every run |
| Guarantees.DeliveriesAreConserved | internal/relay/client.go:351-471 | at every moment each delivery is in exactly one of: reader, dropped, rejected, queued, executing, completed; rejected and completed ones have exactly one result message, all others none |
| Guarantees.FirstInFirstOut | internal/relay/client.go:461-470 | started followed by queued is the enqueued sequence, strictly in order of arrival, with at most 16 waiting |
| Guarantees.NothingIsUndone | internal/relay/client.go:112-121 | histories only grow along a run, and a dropped, rejected or completed delivery keeps that fate |
| Conservation.StepKeepsFifo | internal/relay/client.go:461-463 | every step keeps the queue first-in first-out and bounded |
| Conservation.StepKeepsTracked | internal/relay/executor.go:64-69 | every step keeps fates, positions and result messages in agreement |
| Conservation.EachInOnePlace | internal/relay/client.go:351-471 | a delivery's fate says exactly in which of the reader, queue, worker or finished sequence it is, and how often it was answered |
| Guarantees.ExecutionRateBound | internal/relay/client.go:613-632 | in every closed window of one minute at most the rate limit plus 17 instructions start |
| Attained.RatePlusSeventeen | internal/relay/client.go:426-470 | for every rate limit and every supply of acceptable instructions, a run in which exactly rate plus 17 start within a minute |
| Bounds.StartsWithinMinute | internal/relay/client.go:73 | two starts at most a minute apart are fewer than limit plus 17 places apart, since all but 16 queued and one in the reader were admitted between them |
| Bounds.PauseDrains | internal/relay/client.go:364-370 | while the flag stays set, started plus queued plus the delivery past the pause check never grows |
| Guarantees.PauseDrainBound | internal/relay/client.go:87-91 | while the client stays paused at most 17 instructions start, 16 if the server paused it |
| Attained.SixteenAfterServerPause | internal/relay/client.go:313-321 | for every supply of acceptable instructions, a run in which 16 start while a server pause lasts |
| Attained.SeventeenAfterTrip | internal/relay/client.go:87-91 | for every threshold of the breaker and every supply of acceptable instructions that place orders, a run in which 17 start while a breaker pause lasts |
| Guarantees.PauseHasOrigin | internal/relay/client.go:314-315 | a client found paused was paused by the server or by a breaker callback |
| Guarantees.AutoPausesHaveCause | internal/relay/circuitbreaker.go:47-69 | automatic pauses never outnumber trips; every trip comes with the last of at least maxConsecutive executed place_order steps in a row that failed, no other trip among them, a cooldown after every earlier trip |
| Guarantees.OutcomesAreOrders | internal/relay/executor.go:39-46 | in every run the breaker has recorded exactly the place_order steps executed so far, in order |
| Replay.SecondCopyNeeds | internal/relay/client.go:359-380 | over any ids: if one id and timestamp are queued twice, the second copy was accepted before the message was too old, and the message was stamped ahead, or 1000 other ids were accepted in between, or the empty id was accepted within five minutes before |
| Replay.HonestMessageAtMostOnce | internal/relay/client.go:359-380 | a message stamped at most ten seconds ahead of its acceptance is queued at most once, however long the reader takes, unless 1000 other ids are accepted within 70 seconds (to the millisecond) or the empty id was accepted within five minutes before |
| Replay.AtMostOnceExactly | internal/relay/client.go:359-380 | for every signed, acceptable message and moment of acceptance, some run without those exceptions queues it twice if and only if it is stamped ahead |
| Replay.SameIdNeeds | internal/relay/client.go:359-362 | over any ids, timestamps and contents: one id queued twice means acceptances five minutes apart, or 1000 other ids in between, or the empty id shortly before |
| Replay.SameIdExactly | internal/relay/client.go:359-380 | the timestamp is not signed: some run without those exceptions queues one signed instruction twice under fresh timestamps, accepted at two given times, if and only if they are five minutes apart |
| EmptyId.EmptyIdBreaksAtMostOnce | internal/relay/dedup.go:45-52 | for every signed, acceptable instruction not among the stuffing, a run in which unsigned messages fill the filter behind an empty id, and the honestly stamped instruction is queued twice at one instant with fewer than 1000 other ids in between |
| Replay.PassesAgainExactly | internal/relay/client.go:372-380 | given when a message's id was accepted and its timestamp, the message can expire from the duplicate filter and still be fresh if and only if it is stamped more than the time to live less the maximal age, four minutes, ahead of that moment |
| Path.AcceptableIsQueued | internal/relay/client.go:351-471 | from any state with an idle reader, no pause and a free slot, a new, fresh, signed, admitted message within limits can be queued, leaving only its own traces |
| Path.ReachSignatureCheck | internal/relay/client.go:359-380 | a new message in an unpaused client reaches the signature check |
| Path.ReachQueuePut | internal/relay/client.go:436-463 | an admitted instruction that passes the validator and the portfolio check comes as far as the queue |
| Path.AcceptableIsHeld | internal/relay/client.go:351-459 | so does every acceptable message the duplicate filter takes for new, whether or not the queue has room |
| Relay.Client.constructor | internal/relay/client.go:63-94 | a new client has capacity 1000 and five minutes in its duplicate filter, the validator's rate limit (30 if not positive), and an empty trace |
| Relay.Client.HandleInstruction | internal/relay/client.go:351-471 | handling one message extends the trace by a run of the transition system; the verdict is the one the old histories, the pause flag, the clock readings, the limits and the queue length determine, the queue gains the clamped instruction exactly when it is queued, and the connection is dropped exactly when a signature failure is the fifth within a minute |
| Relay.JudgeQueues | internal/relay/client.go:351-471 | that verdict is to queue if and only if the id is not live, the client not paused, the timestamp fresh, the signature verifies over the canonical text, fewer than the limit were admitted in the last minute, the instruction and its estimate are within limits, and fewer than 16 wait |
| Relay.JudgeDrops | internal/relay/client.go:351-395 | it is to drop silently if and only if the id is live, the client paused, the timestamp not fresh, or the signature not hexadecimal; all else is rejected with a result |
| Relay.Client.CheckNew | internal/relay/client.go:359-362 | passes exactly when the id is not live in the duplicate filter, else drops silently |
| Relay.Client.CheckPaused | internal/relay/client.go:364-370 | drops silently exactly when paused |
| Relay.Client.CheckAge | internal/relay/client.go:372-380 | passes exactly a positive timestamp at most 60 seconds old and at most 10 seconds ahead, in whole milliseconds |
| Relay.Client.VerifySignature | internal/relay/client.go:382-424 | passes exactly a non-empty, hexadecimal signature that verifies over the canonical text of the instruction; undecodable ones are dropped, missing and wrong ones rejected |
| Relay.Client.CheckSignature | internal/relay/client.go:382-424 | goes on, drops or rejects exactly as the signature demands, leaving the queue and the other guards alone |
| Relay.Client.RecordSigFailure | internal/relay/client.go:640-664 | disconnects exactly on the fifth failure within a minute |
| Relay.Client.CheckRate | internal/relay/client.go:426-434 | passes exactly when fewer than the limit were admitted in the last minute, else rejects with a result |
| Relay.Client.Validated | internal/relay/client.go:436-445 | accepts exactly the acceptable instructions and leaves their steps clamped |
| Relay.Client.CheckPortfolio | internal/relay/client.go:447-459 | rejects exactly when the estimate is positive and the snapshot check fails |
| Relay.Client.Offer | internal/relay/client.go:461-470 | appends to the queue when fewer than 16 wait, else rejects with a result and leaves the queue alone |
| Relay.Client.HandlePause | internal/relay/client.go:313-321 | sets the flag and nothing else, as a step of the transition system |
| Dedup.InstructionDedup.Check | internal/relay/dedup.go:23-58 | accepts exactly ids that are not live; stores the id, purges the expired entries only when full, then gives up a live one only if still full; and keeps the map, whatever the ids, consistent with the history of acceptances |
| Dedup.InstructionDedup.PurgeExpired | internal/relay/dedup.go:35-41 | removes exactly the expired entries, whatever the iteration order |
| Dedup.InstructionDedup.DropOldest | internal/relay/dedup.go:44-54 | removes the entry the scan chooses for some iteration order |
| Dedup.ScanExact | internal/relay/dedup.go:45-52 | the scan returns an oldest entry for every iteration order if and only if the empty id is not strictly the oldest |
| Dedup.CheckKeepsConsistent | internal/relay/dedup.go:23-58 | every call, whatever the id, keeps the map within its size, storing last acceptance times, and forgetting only what is expired, crowded out by maxSize other ids, or was accepted less than ttl after the empty id |
| Dedup.RunIsConsistent | internal/relay/dedup.go:23-58 | the same over every run of any ids; so accepting an id twice less than ttl apart takes at least maxSize distinct other ids in between, unless the empty id was accepted less than ttl before the first of the two |
| Dedup.EmptyIdBreaksSeparation | internal/relay/dedup.go:45-52 | for every size and time to live of at least two, a run in which an id is accepted again within its time to live after too few others |
| Dedup.SeparationExact | internal/relay/dedup.go:23-58 | all runs over arbitrary ids keep acceptances of one id within ttl apart by maxSize others if and only if maxSize or ttl is at most one |
| Dedup.NonEmptyIdsAreSeparated | internal/relay/dedup.go:23-58 | all runs over non-empty ids do, for every size and time to live |
| SlidingWindow.EvictBefore | internal/relay/client.go:620-625 | drops exactly the stored times before the cutoff |
| SlidingWindow.RateLimiter.constructor | internal/relay/client.go:603-611 | a limit that is not positive becomes 30 |
| SlidingWindow.RateLimiter.Allow | internal/relay/client.go:613-632 | the stored times are the admissions of the last minute, and a call is let through exactly when they are fewer than the limit |
| SlidingWindow.AdmissionKeepsHistory | internal/relay/client.go:627-631 | an admission keeps any limit + 1 consecutive admissions over a minute apart |
| SlidingWindow.WindowBound | internal/relay/client.go:613-632 | no closed window of one minute, wherever it starts, contains more than limit admissions |
| SlidingWindow.SigFailures.Record | internal/relay/client.go:640-664 | disconnects exactly on the fifth failure within a minute since the last disconnect, and then starts over |
| CircuitBreaker.Breaker.constructor | internal/relay/circuitbreaker.go:22-34 | negative thresholds disable, a cooldown that is not positive becomes half an hour |
| CircuitBreaker.Breaker.RecordSuccess | internal/relay/circuitbreaker.go:37-44 | appends a success; the counter is the failures since the last success or trip |
| CircuitBreaker.Breaker.RecordFailure | internal/relay/circuitbreaker.go:47-69 | trips exactly when enough failures are pending and the last trip is at least the cooldown old |
| CircuitBreaker.TripsAreApart | internal/relay/circuitbreaker.go:55-59 | any two trips are at least the cooldown apart |
| CircuitBreaker.TripHasCause | internal/relay/circuitbreaker.go:54-64 | a trip ends at least maxConsecutive failures in a row |
| CircuitBreaker.LongRunTrips | internal/relay/circuitbreaker.go:54-64 | conversely a run of failures that long, with no trip in it before the last and a cooldown after every earlier trip, ends in a trip |
| Executor.Worker.ExecuteInstruction | internal/relay/executor.go:12-69 | runs the steps up to the first failure, records every result in order with its time and error text, and tells the breaker about exactly the place_order steps |
| Executor.Worker.ExecuteStep | internal/relay/executor.go:71-158 | action by action, makes exactly the one call with the step's own arguments in their places (an empty grouping sent as "na"), or none for an unknown action; fails on an error reply, and on a batch of new orders when one of its orders failed |
| Executor.Worker.FeedBreaker | internal/relay/executor.go:39-46 | a place_order step appends its success or failure to the breaker's history, any other step leaves the breaker alone; the trips are counted |
| Executor.Worker.RecordTrade | internal/relay/executor.go:28-37 | the trade view's log grows by one record: time, market, action, success, error text ("order i/n failed: ..." with i from one) and signal |
| Executor.StopsAtFirstFailure | internal/relay/executor.go:25-57 | there is one result per step up to the first failure, and only the last may be a failure |
| Executor.RunMakesCallsInOrder | internal/relay/executor.go:25-57 | in closed form: the calls are those of the steps in order, one for each result but that of an unknown action, and each result is what the exchange replied to its call |
| Executor.FirstErrorIsFirst | internal/relay/executor.go:108-124 | the reported order status is the first with an error |
| Executor.ResultOf | internal/relay/executor.go:92-158 | a step succeeds exactly when its call was answered and, for a batch of new orders, no order failed; a failed batch reports its first failed order |
| Executor.WrittenIsOnScript | internal/relay/executor.go:25-57 | writing down one more step keeps a transcript part of the executor's run, and completes it at the last step or the first failure |
| Execution.ExecutionIsARun | internal/relay/executor.go:12-69 | for every exchange, the worker's steps in the transition system add up to the executor's run of the instruction: the same calls and results, one step for each, one result message, and the same outcomes for the breaker |
| Validator.RiskValidator.Validate | internal/relay/validator.go:41-58 | accepts exactly the acceptable instructions and clamps them in place; a refusal names the first offending step and reason, the steps before it already clamped, the rest untouched |
| Validator.RiskValidator.ValidateStep | internal/relay/validator.go:60-120 | checks one step, changes at most its leverage; a batch and a list of modifications pass exactly when each of their orders does, and a refusal points at the first that does not, with its reason |
| Validator.StepPassesExactly | internal/relay/validator.go:60-120 | action by action, which steps pass: leverage from one to the maximum, one to maxOrdersPerStep orders that all pass, modifications whose orders all pass, cancels that are not empty |
| Validator.RiskValidator.ValidateOrders | internal/relay/validator.go:114-118 | refuses at the first order that does not pass |
| Validator.RiskValidator.ValidatePortfolio | internal/relay/validator.go:184-230 | the exposure and positions check on one snapshot, the positions being those of the market whose size is not zero; no limits or no snapshot passes |
| Validator.RiskValidator.UpdateLimits | internal/relay/validator.go:35-39 | replaces the limits |
| Limits.OrderPassesExactly | internal/relay/validator.go:122-180 | an order passes if and only if its asset is known, its price and size parse and are not zero or less, its value (at the trigger price, if positive) is within the limit or NaN, and it lies within the allowed percentage of a usable oracle price, twice that for a trigger, whose price must then not be refused; NaN and infinite numbers included |
| Limits.OrderRefusedExactly | internal/relay/validator.go:122-180 | a refused order is refused for the first condition it violates |
| Limits.RaisingLimitsKeepsAcceptance | internal/relay/validator.go:41-230 | raising any limits, zero meaning none for the portfolio limits, never turns acceptance into refusal |
| Limits.ClampIsSafe | internal/relay/validator.go:88-105 | the clamp only lowers leverage, to the smaller of request and exchange maximum |
| Limits.RevalidationExact | internal/relay/validator.go:88-105 | a second validation changes nothing, and accepts if and only if nothing was clamped below one |
| Limits.AcceptedOnce | internal/relay/validator.go:95-102 | for all limits that allow a leverage step, an instruction accepted once, clamped to an exchange maximum of zero, and refused the second time |
| Limits.EstimateInstructionNotional | internal/relay/client.go:666-685 | the client's loops compute the sum of the validator's own order notionals over the place_order steps |
| Limits.PassingOrderNotional | internal/relay/validator.go:138-148 | an order that passes is valued in (0, MaxOrderSizeUSD], or not valued at all exactly when it involves NaN |
| Limits.EstimateBound | internal/relay/client.go:666-685 | the estimate of passing steps is NaN, zero without orders, or positive and bounded step by step |
| Limits.AcceptedEstimateIsSum | internal/relay/client.go:666-685 | the estimate of an accepted instruction without NaN orders is the sum of its placed orders' values, size times trigger price if that is positive, else times price |
| Limits.NotionalBoundExact | internal/relay/client.go:666-685 | the estimate of an accepted instruction is a number, not negative and at most steps x orders x size limits, if and only if no order is valued at NaN and, should that product be negative, an order is placed |
| Limits.AcceptedAboveNegativeCap | internal/config/config.go:167-169 | for limits with a negative number of orders per step, an accepted instruction without orders, estimated at zero, above the negative product |
| Limits.PortfolioCheckRunsExactly | internal/relay/client.go:447-459 | the portfolio check is made if and only if an order is placed and none is valued at NaN |
| Limits.NaNOrderPasses | internal/relay/validator.go:128-148 | an order priced at NaN passes under all limits |
| Limits.AcceptedUnvalued | internal/relay/client.go:447-459 | for all limits that allow an order, an accepted instruction that places one, is estimated at NaN and skips the portfolio check |
| Limits.EstimateOfClamped | internal/relay/client.go:447-449 | the clamp before the estimate does not change it |
| Limits.PortfolioSnapshot | internal/relay/validator.go:184-230 | on a fetched account the check refuses the exposure if and only if its magnitude plus the notional is above the limit, then the position if and only if the positions of that market with a size other than zero are as many as the limit, limits of zero or less not counting; NaN and infinite totals included |
| JsonText.QuoteUnique | internal/relay/canonical.go:100-114 | a quoted string can be read off the front of a text in only one way |
| JsonText.DecimalUnique | internal/relay/canonical.go:112-114 | so can a decimal integer |
| JsonText.EscapeExactly | internal/relay/canonical.go:100-114 | each character prints as itself, as a backslash and a letter, or as the four hexadecimal digits of its code |
| JsonText.PrintableUnescaped | internal/relay/canonical.go:100-114 | text without special characters stands between its quotes unchanged |
| JsonText.DecimalReadsBack | internal/relay/canonical.go:112-114 | the printed digits of an integer stand for it |
| KeyOrder.SortStrings | internal/relay/canonical.go:96 | sorting the keys of a map gives the one listing of the key set in which every key is a proper prefix of each later one or has the smaller character where they first differ, whatever order they came in |
| KeyOrder.LessExactly | internal/relay/canonical.go:96 | the recursive comparison is that order |
| KeyOrder.CollectKeys | internal/relay/canonical.go:92-95 | ranging over a map yields every key once, in any order |
| KeyOrder.ListingUnique | internal/relay/canonical.go:96 | a key set has only one sorted listing |
| Json.TextInjective | internal/relay/canonical.go:89-116 | two values with the same sorted-key text are the same value |
| Json.TextUnique | internal/relay/canonical.go:89-116 | a value can be read off the front of a text in only one way |
| Printers.SortedStringify | internal/relay/canonical.go:89-116 | the recursive printer gives the one sorted-key compact text, for every iteration order of every map |
| Printers.Marshal | internal/relay/canonical.go:112-114 | the streaming printer of the default branch gives the same text |
| Printers.StringifyRoot | internal/relay/canonical.go:72-75 | sending the steps through the default branch gives the text the recursive branches would |
| Float53.RoundsToNearestEven | internal/relay/canonical.go:77-87 | decoding an integer, negative or not, into a float64 yields the nearest multiple of its unit in the last place, the even one of two equally near |
| Float53.SignificandFits | internal/relay/canonical.go:77-87 | that unit leaves a significand of at most 53 bits, and of exactly 53 unless it is one |
| Float53.ExactIsUnchanged | internal/relay/canonical.go:77-87 | integers of magnitude at most 2^53 survive the trip through float64 |
| Float53.ExactRangeIsLargest | internal/relay/canonical.go:77-87 | integers bounded by a magnitude stay distinct if and only if it is at most 2^53 |
| Canonical.InstructionCanonical | internal/relay/canonical.go:12-75 | the encoder's maps, filled field by field, print as the canonical text of the instruction |
| Printed.CanonicalTextIsLayout | internal/relay/canonical.go:12-116 | the canonical text of every instruction written out: the members of the instruction, its steps, orders, cancels and modifications in their order, each with its own value, the absent ones left out |
| Canonical.CanonicalStep | internal/relay/canonical.go:26-70 | one step's map holds exactly the fields the encoding keeps |
| Canonical.StepFieldsExact | internal/relay/canonical.go:26-70 | two steps have the same map if and only if they agree on all kept fields, up to float64 rounding |
| Canonical.CanonicalTextExact | internal/relay/canonical.go:12-75 | two instructions have the same canonical text if and only if they agree on everything the encoding keeps |
| Signed.SameBytesActAlike | internal/relay/canonical.go:12-75 | equal canonical bytes mean steps that make the same calls, for integers of magnitude at most 2^53 |
| Signed.SignedBytesDetermineCalls | internal/relay/executor.go:71-158 | equal canonical bytes determine calls and results for every behaviour of the exchange, among instructions bounded by a magnitude, if and only if it is at most 2^53 |
| Signed.SignedBytesDetermineExecution | internal/relay/validator.go:41-105 | instructions with equal canonical bytes are accepted alike, and their clamped steps make the same calls |
| Signed.CollidingOrderIds | internal/relay/canonical.go:77-87 | two cancels with the same signed bytes and different calls, beyond 2^53 |
| Nonce.NoncesAreFresh | internal/hyperliquid/client.go:456-469 | for any number of threads and interleaving, issued nonces strictly increase in swap order and are at least their caller's clock reading; the k-th is at most k past the highest reading made so far if and only if that reading is at least one |
| Nonce.ZeroReadingIsPassed | internal/hyperliquid/client.go:459-465 | a run with a clock reading of zero, whose first nonce is past it |
| Nonce.StaleExactlyWhenIssued | internal/hyperliquid/client.go:460-468 | a swap succeeds if and only if no nonce was issued since the load |
| Nonce.FailureMeansProgress | internal/hyperliquid/client.go:465 | a failed swap means another thread succeeded since the load |
| Nonce.RunKeepsInv | internal/hyperliquid/client.go:456-469 | the invariant behind these holds in every state of every run |
| Assets.AssetTable.RefreshAssets | internal/hyperliquid/client.go:196-239 | the four maps are those of the main block followed by the usable dex blocks; a failed fetch leaves the table alone |
| Assets.AssetTable.RefreshBuilderDexAssets | internal/hyperliquid/client.go:241-280 | adds the blocks of all usable dexes from index 1, skipping the others |
| Assets.AssetTable.WriteBlock | internal/hyperliquid/client.go:226-233 | writes consecutive ids from the offset, with a price context where the reply has one |
| Assets.AssetIsListed | internal/hyperliquid/client.go:221-280 | when no two assets share a name, the refreshed table gives main asset p the id p, asset p of dex d the id 100000 + 10000 d + p, and each its own record and price context |
| Assets.ListedIsAsset | internal/hyperliquid/client.go:221-280 | and every listed name is an asset's, with its id and record, names unique or not |
| Assets.AssetTable.LookupRoundTrip | internal/hyperliquid/client.go:282-302 | on a table with distinct ids, looking up a market's id and that id's name leads back to the market |
| Assets.NameRoundTrip | internal/hyperliquid/client.go:221-233 | with distinct ids every name's id maps back to the name, duplicate names included |
| Assets.IdRoundTrip | internal/hyperliquid/client.go:221-233 | with distinct ids and names the maps are inverse |
| Assets.RoundTripExactly | internal/hyperliquid/client.go:221-233 | with distinct names, every name's id leads back to the name if and only if the ids are distinct |
| Assets.IdsDistinctExactly | internal/hyperliquid/client.go:269-278 | the ids of a refresh are distinct if and only if every block ends before the next non-empty one begins |
| Assets.ReservedSizesFit | internal/hyperliquid/client.go:269 | a main universe of at most 110000 and dexes of at most 10000 assets fit |
| KillSwitch.CloseAllPositions | internal/hyperliquid/client.go:394-450 | every position with a size other than zero, a known asset and a positive oracle price has an order that closes it, and there are as many orders as such positions, in their order; each is reduce-only on the opposite side, priced 5% past the oracle on the filling side, written with the asset's decimals, and leaves at most half a unit of the last decimal |
| KillSwitch.ClosableExactly | internal/hyperliquid/client.go:402-432 | a position can be closed if and only if its size parses to a number other than zero, its asset is known and the oracle price parses to a positive number |
| KillSwitch.FormatIsNearest | internal/hyperliquid/client.go:418 | fixed-point formatting yields a multiple of the last decimal off by at most half of it, the even one of two equally near, and the size itself when representable |
| TradeStore.TradeStore.constructor | cmd/bot/tradestore.go:27-32 | starts with an empty log |
| TradeStore.TradeStore.Add | cmd/bot/tradestore.go:34-43 | the log the ring stands for grows by the record |
| TradeStore.TradeStore.Recent | cmd/bot/tradestore.go:57-74 | returns the last min(n, kept) records ever added, oldest first |
| TradeStore.WalkReachesSlot | cmd/bot/tradestore.go:69-72 | the modular forward walk visits the slots of the last n records in order |

## Left out

- Canonical.CanonicalTextExact: beyond 2^53 the model prints the integer value of the rounded float, where Go prints its shortest digits; nil and empty slices are not told apart.
- Limits.NotionalBoundExact: finite float64 arithmetic is exact, so rounding and overflow are not modelled; NaN and the infinities are.
- KillSwitch.CloseAllPositions: prices are exact numbers, not their `%g` text; NaN and infinite sizes or prices are not modelled.
- Nonce.NoncesAreFresh: the counter is unbounded, so wrap-around of int64 is not modelled.
- Replay.SecondCopyNeeds: one clock serves both the monotonic readings of the duplicate filter and the wall-clock age check.
- Relay.Client.HandleInstruction: within one call only the clock moves; interleavings with the worker and the callback are in the transition system.
- CircuitBreaker.Breaker.RecordFailure: durations do not saturate, so a cooldown of centuries before the first trip is not modelled.
- Signature, hexadecimal and number-parsing functions are arbitrary; Ed25519, Keccak, EIP-712, the keystore and the exchange signer are not modelled.
- WebSocket and HTTP transport, reconnection, heartbeats and the wire parsing of messages: a message arrives parsed, and sending a result counts as a result even if the connection fails.
- Cancellation of the context is the worker's `Stop` between two instructions; timeouts are exchange errors.
- Locks are not modelled: each guard's method is one atomic step, as its mutex makes it for the duplicate filter, the limiter and the breaker.
- Validator.RiskValidator.Validate: one resolver answers all lookups of one validation, a simplification: the validator's lock covers the limits only, and a refresh of the asset table, which has a lock of its own, can fall between two lookups.
- `CancelAllOrders`, account queries, price refreshes and the text of the reader's error messages, which add no state to the pipeline.
- Total exposure over a whole run: the portfolio check sees one snapshot, and only that snapshot is spoken of.
- Configuration, terminal interface, notifications, audit log, health check and self-update.
