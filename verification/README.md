# Verified model of the guarded write path and its neighbours

A Dafny 4.11 model of the parts of the AI base service that keep state other parts rely on, with proofs of what
they promise. `dafny verify dfyconfig.toml` checks everything with Dafny's default options.

## What is modelled

**A write, from confirm to execution.** A write token is suspended, confirmed under a leased lock (twice for a
high-risk operation), turned into a real tool call, and gated by an idempotency row that callers race for.

- `IdempotencyGate` - the row operations, one function per SQL statement, and the table with `check`, `complete` and
  the nightly clean-up.
- `GateProtocol` - any number of callers on one key as program counters; every Redis command, SQL statement, tool
  execution, process death, sweep, purge and clock tick is one atomic event, so a run is any list of events. The bound
  `successes <= 1 + hazards` holds with no assumption; a hazard is a moment at which the gate gave its protection away
  (fail-open without database, a sweep of a claim still executing, a purge of a row still needed). The operating
  assumptions of the design - MySQL up, completions land, executions end inside the ten-minute sweep - are one
  predicate on events, `AllowedRun`, under which no hazard happens.
- `WriteGuard`, `TokenLock`, `WriteGuardProtocol` - the service over its two stores with Redis commands that may
  throw, the leased lock, and the interleaved protocol with the five second lease, whose assumption is `LeaseKeptRun`.
- `GuardedWrite`, `WriteTokens`, `WriteOwner` - guard and gate of one token together, with lapsed locks and store
  failovers as events; all tokens at once, each call routed to the row its key material names; and who may confirm.
- `ToolExecutor`, `RevokeWindow` - the order of the executor's gates, and the three-minute revoke window.
- `Canonical`, `KeyMaterial` - canonical JSON and the four kinds of idempotency key.

**Neighbours.** `CircuitBreaker`, `RateLimiter` (the in-process map, the Lua script and the Redis emulator),
`History` (WATCH / GET / EXEC), `SseStream`, `TextSplitter`, `VectorStore`, `DeadLetter`, `Billing`, `MemoryKey`,
`OutboundTarget` with `Ipv6` and `BlockedIpv6`. `Common` and `Bits` hold shared vocabulary: text as JavaScript trims,
splits and joins it, and bitwise operators with what masks and shifts mean.

Code that changes fields step by step is a class whose methods are proved against functions of the old state; code
that computes is functions. Protocols are pure step functions over a state, and their invariants are proved for one
step and carried over every run. Integers are unbounded, times are whole milliseconds, prices, token buckets and
vectors are reals.

## Where the code departs from its documentation, or from what a reader may expect

The model follows the code.

- `saveHistory` (src/brain/memory-manager.service.ts:45 and 201-202) says the last snapshot is written after the
  retries are used up; the code writes nothing (`History.SaveHistory`, `History.SavesLinearise`).
- The splitter's header promises chunks of at most the chunk size and an inherited overlap at the start of every new
  chunk (src/rag/text-splitter.service.ts:5-11). A chunk can be longer by up to the overlap
  (`TextSplitter.ChunkCanExceedChunkSize`), exactly when the sentence lengths say so (`ChunkTooLongIff`,
  `PromiseKeptIff`); and every new chunk inherits its overlap exactly when no sentence is longer than the chunk size
  (`OverlapInheritedIffNoLongSentence`).
- A token may be confirmed after its expiry, by a body that judged it before
  (`WriteGuardProtocol.GoAheadCanLandAfterExpiry`); exactly then (`ExpiredConfirmsIffJudgedBefore`), and by less than
  the lease (`GoAheadsAreJudgedInTime`).
- `complete` updates by id whatever the row's status, so an execution that outlives the stale sweep succeeds beside
  its own retry (`GateProtocol.SlowExecutionRunsTwice`).
- `executeConfirmed` also resets the token when the gate answers that the operation is in progress. A reset keeps the
  token's confirm count; nothing reads it.
- A replayed result registers a second revoke window for the same execution, which can then be revoked twice
  (`RevokeWindow.ReplayOpensASecondWindow`, `RevokedTwiceIffTwoOpen`).
- The clean-up of expired operations shows: the refusal reason a user sees (src/gateway/chat.controller.ts:371 and
  484) and the result a resumed graph takes over (src/brain/graph/graph-executor.service.ts:231) differ once it has
  met the operation past its window (`RevokeWindow.CleanupShowsIffSwept`, `LookupChangesIffSwept`). Whether a
  revocation is accepted does not.
- The in-process rate limiter's clean-up shows when the clock steps back behind the window of a dropped bucket
  (`RateLimiter.ClockStepBackShowsCleanup`).
- The comment at the NAT64 test names 64:ff9b::/96, the test covers 64:ff9b::/32
  (`BlockedIpv6.Nat64TestMatchesItsCommentIff`).
- A billing call of several chats that meets fewer free ones is served in full and charged for the few
  (`Billing.FreeCountPaysIffCovered`).
- A negative topK does not give an empty search but drops that many of the worst (`VectorStore.NegativeTopKDropsWorst`).
- The breaker's cooldown starts at the first question after the threshold was reached, not at the failure.
- `canonicalize` assigns into a plain object, so an argument named `__proto__` disappears.
- The in-memory Redis client has no `ping`, `watch` or `xgroup`, its MULTI chain no `expire`, and its `xreadgroup`
  takes other arguments than the replay service passes; on it those services fall back to their own degraded modes.

## Model

| member | source | states |
|---|---|---|
| IdempotencyGate.IdempotencyTable.Check | src/tools/idempotency-gate.service.ts:141-160 | `check` on the whole table: off means proceed and no row touched; a malformed explicit key is rejected; a database failure proceeds without a handle; otherwise, for every Redis answer, a new key is claimed, a failed row claimed again on its own id, a stored success replayed, and anything else is in progress |
| IdempotencyGate.IdempotencyTable.DecideFromRow | src/tools/idempotency-gate.service.ts:367-439 | a row as it was read decides replay, in progress, or re-claim; the re-claim writes only a row that is still failed, and a caller that loses the conditional UPDATE is told in progress and writes nothing |
| IdempotencyGate.IdempotencyTable.Complete | src/tools/idempotency-gate.service.ts:167-195 | exactly the row with the handle's id takes status, result and completion time, whatever its status was, and keeps its first-seen and creation times; a null handle writes nothing |
| IdempotencyGate.IdempotencyTable.CleanupExpired | src/tools/idempotency-gate.service.ts:203-254 | every row created within the last thirty days stays, as it was unless it is a claim out for more than ten minutes, which becomes failed; every older row is gone if the batches of 5000, at most 200 and no more than the database answers, reach that far; both figures count exactly what was done, and a failing statement is swallowed with what was done so far reported |
| IdempotencyGate.ExplicitKeyForm | src/tools/idempotency-gate.service.ts:52-66 | which explicit keys are accepted, character by character |
| GateProtocol.StepKeepsBound | src/tools/idempotency-gate.service.ts:260-356 | one step of any caller, sweep, purge, crash or clock keeps: successes so far plus successes still possible <= 1 + hazards |
| GateProtocol.SuccessesWithinHazards | src/tools/idempotency-gate.service.ts:203-439 | over every run, with no assumption at all, the successful executions of one key are at most one plus the times the gate gave its protection away |
| GateProtocol.HazardsAreUnprotectedMoments | src/tools/idempotency-gate.service.ts:203-439 | what is counted: a caller let through without the database or behind a row that is gone, a sweep of a claim that nobody lost, a purge of a row that is not failed - each once, and nothing else |
| GateProtocol.HazardsOnlyGrow | src/tools/idempotency-gate.service.ts:260-356 | protection given away is never taken back, so a run without hazards had none at any earlier moment |
| GateProtocol.StepKeepsFaithful | src/tools/idempotency-gate.service.ts:281-347 | while no hazard has happened, every step keeps one claim at most and one result everybody speaks of |
| GateProtocol.AtMostOneOutstanding | src/tools/idempotency-gate.service.ts:315-347 | over every run without hazard, at most one caller is between its claim and the write-back of its result |
| GateProtocol.AnswersCarryFirstResult | src/tools/idempotency-gate.service.ts:367-400 | every success a caller is told, run or replayed, is the first result; so is the stored one |
| GateProtocol.LaterCallersReplay | src/tools/idempotency-gate.service.ts:372-400 | once a success is stored the row never changes again and every later caller is replayed that result without running the tool |
| GateProtocol.PurgeGoesByAge | src/tools/idempotency-gate.service.ts:225-231 | the purge takes the row exactly when it was created more than thirty days ago |
| GateProtocol.RowLivesThirtyDays | src/tools/idempotency-gate.service.ts:225-231 | over every run a key keeps its row, the same one, for thirty days from its creation |
| GateProtocol.LostCompletionLeavesTheRow | src/tools/idempotency-gate.service.ts:167-195 | a completion that does not reach the database answers its caller all the same and leaves the row in flight |
| GateProtocol.StepKeepsAttended | src/tools/idempotency-gate.service.ts:203-223 | under the operating assumptions a row in flight belongs to a prompt live caller or to one that died before succeeding |
| GateProtocol.AssumptionsPreventHazards | src/tools/idempotency-gate.service.ts:203-223 | with MySQL up, completions landing before the stale sweep and no needed row purged, no hazard ever happens |
| GateProtocol.OneSuccessUnderAssumptions | src/tools/tool-executor.ts:165-270 | the design's promise under its own assumptions: one success, one outstanding claim, one answer |
| GateProtocol.LosersSeeInProgress | src/tools/idempotency-gate.service.ts:401-439 | in every run without a completion, sweep or purge of a row that is not failed, every caller whose conditional UPDATE reaches it is told in progress, and the row and its holder stay |
| GateProtocol.ExactlyOneReclaims | src/tools/idempotency-gate.service.ts:401-439 | between two completions of any run, whatever else happens in between: of the callers whose conditional UPDATE reaches the failed row exactly the first re-claims it, all others are told in progress; without any, the row stays failed |
| GateProtocol.FastPathInvisible | src/tools/idempotency-gate.service.ts:289-347 | for every row state and every Redis answer (fresh, duplicate, unavailable) a caller left alone decides as, and leaves the row of, a gate that only talks to MySQL |
| GateProtocol.FastPathSimulated | src/tools/idempotency-gate.service.ts:289-347 | every interleaving of any number of callers is matched by one in which Redis answers fresh to everybody: same row, claims, successes, hazards and answers |
| GateProtocol.SlowClaimIsSwept | src/tools/idempotency-gate.service.ts:203-223 | the run in which a claim still executing is swept as stale |
| GateProtocol.SlowExecutionRunsTwice | src/tools/idempotency-gate.service.ts:167-195 | the bound is tight: an execution slower than the sweep and its retry both succeed, with one hazard |
| Canonical.CanonicalizeIdempotent | src/tools/idempotency-gate.service.ts:550-579 | canonicalising twice is canonicalising once, with and without volatile fields |
| Canonical.EquivalentIffCanonicallyEqual | src/tools/idempotency-gate.service.ts:539-579 | canonical trees are equal exactly when the values agree up to key order, string padding and volatile fields, at every depth |
| Canonical.SortedUnique | src/tools/idempotency-gate.service.ts:570-579 | canonical members are determined by what each key maps to |
| Canonical.CanonicalLookup | src/tools/idempotency-gate.service.ts:559-579 | canonical members are in key order and map exactly the kept keys, each to its canonical value |
| Canonical.DroppedNames | src/tools/idempotency-gate.service.ts:74-82 | which argument names never reach the text, for the payload and for the declared fields |
| KeyMaterial.TextUnique | src/tools/idempotency-gate.service.ts:540-548 | the serialiser is prefix-free on canonical values, hence injective |
| KeyMaterial.EscapeForms | src/tools/idempotency-gate.service.ts:540-548 | the escapes of a printed string (section 7 of RFC 8259), by code point |
| KeyMaterial.CanonicalIsPrintable | src/tools/idempotency-gate.service.ts:550-579 | canonical trees only hold values the serialiser prints without loss |
| KeyMaterial.SameTextIffEquivalent | src/tools/idempotency-gate.service.ts:540-579 | two argument objects print alike after canonicalising exactly when they are equivalent |
| KeyMaterial.PickedFields | src/tools/idempotency-gate.service.ts:515-537 | the picked business fields are exactly the declared fields that are present, each once, with its argument |
| KeyMaterial.SourceInOrder | src/tools/idempotency-gate.service.ts:466-501 | exactly when each of the four key sources is taken: an explicit key, else a confirm token, else the declared fields if any is present, else the payload |
| KeyMaterial.SameFieldsIffEquivalentPicks | src/tools/idempotency-gate.service.ts:515-537 | picked objects are equivalent exactly when every declared field is present in both or neither with equivalent values |
| KeyMaterial.SameMaterialIffSameOperation | src/tools/idempotency-gate.service.ts:461-513 | key material is equal exactly when the calls are the same operation: same explicit key, same confirm token, same business fields, or equivalent payload, and never across the four sources |
| WriteGuard.WriteGuardService.Save | src/brain/write-guard.service.ts:564-596 | the record is stored and indexed in Redis, or in memory when Redis is off or its command throws; the other store and all other records stay |
| WriteGuard.WriteGuardService.Remove | src/brain/write-guard.service.ts:619-643 | exactly this record and its index entry go, from Redis, or from memory when Redis is off or its command throws |
| WriteGuard.WriteGuardService.Load | src/brain/write-guard.service.ts:598-617 | the record Redis holds, or the one memory holds when Redis is off or its command throws |
| WriteGuard.WriteGuardService.Get | src/brain/write-guard.service.ts:341-355 | a record is returned exactly when it is there and not expired, and then nothing changes; an expired one is deleted on the way and reported absent, with every Redis command that may throw on the way |
| WriteGuard.WriteGuardService.Confirm | src/brain/write-guard.service.ts:409-463 | the refusals in their order - missing or expired, a stranger, cancelled, confirmed - with the stores unchanged for every live record; else a first confirm or a go-ahead by risk, review and status, written out, and the record it leaves; a record read from memory is changed in place as well as saved |
| WriteGuard.JudgedRightly | src/brain/write-guard.service.ts:409-463 | exactly when a confirm is refused for which reason, asks for a second, or goes ahead, and the record it then writes |
| WriteGuard.WriteGuardService.ResetToPending | src/brain/write-guard.service.ts:470-482 | only a live confirmed token becomes pending, nothing else changes |
| WriteGuard.WriteGuardService.Cancel | src/brain/write-guard.service.ts:504-523 | a confirmed token cannot be cancelled, any other live one is deleted |
| WriteGuardProtocol.StepKeepsInv | src/brain/write-guard.service.ts:205-245 | one step of any caller inside its lease keeps: one body at a time, one unspent go-ahead, first confirm on record |
| WriteGuardProtocol.RunKeepsInv | src/brain/write-guard.service.ts:388-523 | the same over every run |
| WriteGuardProtocol.GoAheadsAreSingleAndSeconded | src/brain/write-guard.service.ts:388-463 | between a suspend or reset and the next reset at most one confirm goes ahead; on a high-risk or needsReview token it follows another caller's confirm that asked for a second |
| WriteGuardProtocol.GoAheadsAreRecorded | src/brain/write-guard.service.ts:388-463 | every caller that went ahead is one the theorem above speaks of |
| WriteGuardProtocol.CancelledStaysCancelled | src/brain/write-guard.service.ts:504-523 | after a cancel took effect no go-ahead is ever given |
| WriteGuardProtocol.GoAheadsAreJudgedInTime | src/brain/write-guard.service.ts:388-463 | over every run inside the leases each go-ahead ever given was judged at or before expiry and written before expiry plus the five second lease |
| WriteGuardProtocol.GoAheadCanLandAfterExpiry | src/brain/write-guard.service.ts:409-463 | the run, inside the lease, in which a token judged in its last millisecond is confirmed after it has expired |
| WriteGuardProtocol.ExpiredConfirmsIffJudgedBefore | src/brain/write-guard.service.ts:341-463 | lease or no lease, after any run: an expired token can still be confirmed if and only if some body has judged it confirmable and not yet written |
| WriteGuardProtocol.ExpiredStaysExpired | src/brain/write-guard.service.ts:341-355 | once the token has expired and no body is about to write a confirmation, no go-ahead is ever given again, lease or no lease |
| WriteGuardProtocol.OnlyTheOwnerFreesALock | src/brain/write-guard.service.ts:231-245 | a live lock goes away only by its owner's own release, so a late release never frees a successor's lock |
| WriteGuardProtocol.LeaseIsExclusive | src/brain/write-guard.service.ts:205-245 | until its lease is over a lock stays with its owner through every run in which that owner does not release it |
| TokenLock.LockStore.Get | src/common/redis-memory.client.ts:371-379 | an expired lock reads as absent and is deleted, no live lock changes |
| TokenLock.LockStore.Acquire | src/brain/write-guard.service.ts:205-229 | a live lock refuses, otherwise the caller gets it for five seconds; without Redis, or when it does not answer, the caller passes unlocked |
| TokenLock.LockStore.Release | src/common/redis-memory.client.ts:314-323 | a live lock goes away exactly when its own owner releases it, all others stay |
| WriteGuardProtocol.ResetReopensToken | src/brain/write-guard.service.ts:470-482 | after the reset the next confirm is judged as on a new token |
| WriteGuardProtocol.ConfirmsAlone | src/brain/write-guard.service.ts:388-463 | a confirm nobody interferes with answers and writes what the judgement of the live token says, and gives the lock back |
| WriteGuardProtocol.PendingIsConfirmable | src/brain/write-guard.service.ts:388-463 | on a pending token one confirm, or two by different callers when high-risk, end in a go-ahead |
| WriteGuardProtocol.LapsedLeaseDoublesGoAhead | src/brain/write-guard.service.ts:205-229 | the lease assumption is needed: a body that outlives its lock lets two callers go ahead |
| WriteOwner.StrangerIsRefused | src/brain/write-guard.service.ts:421-432 | a live write with another customer's name on it refuses the confirm whatever its state, and stays as it is |
| WriteOwner.RunKeepsOwned | src/brain/write-guard.service.ts:388-482 | every record, and every change about to be written, carries the customer the write was suspended for, over every run, lease or no lease |
| WriteOwner.OnlyTheCustomerConfirms | src/brain/write-guard.service.ts:409-463 | over every run, lease or no lease: whoever went ahead and whoever was told to confirm again had asked to confirm and, if the write belongs to a customer, as that customer |
| GuardedWrite.GateRunsItsView | src/tools/tool-executor.ts:165-201 | whatever the guard, the failovers and the resets do, the gate of the whole system runs as a gate on its own |
| GuardedWrite.OneSuccessPerToken | src/brain/confirmation.service.ts:417-489 | for the calls that meet on one row, in every interleaving, with lapsed locks and store failovers: successes never exceed one plus the gate's hazards, hence at most one under the gate's assumptions |
| GuardedWrite.ExecutionNeedsGoAhead | src/brain/confirmation.service.ts:378-415 | whoever is in the gate was given a go-ahead |
| GuardedWrite.HighRiskExecutionIsSeconded | src/brain/confirmation.service.ts:378-415 | without failover and inside leases, every execution of a high-risk token follows a go-ahead that followed another caller's first confirm |
| GuardedWrite.ResetLands | src/brain/confirmation.service.ts:448-489 | the reset after a failure makes the live token pending again and leaves lock, clock and gate alone |
| GuardedWrite.SuccessIsNotReset | src/brain/confirmation.service.ts:448-489 | a caller that was told of a success, its own or a replayed one, does not reset the token |
| GuardedWrite.SuccessSettlesTheToken | src/brain/confirmation.service.ts:417-489 | once a caller with a go-ahead was told of a success nobody else is ever given one, over every run inside leases and without failover |
| GuardedWrite.FailedExecutionCanBeRetried | src/brain/confirmation.service.ts:448-489 | after every run from the suspended token without failover and inside leases, in which a confirmed call ended badly - in a failed execution, a refusal by the gate or before it reached the gate - reset and the usual confirms (two for a high-risk token) before expiry bring a caller to the row, which it claims if the row is failed or was never made |
| WriteOwner.OnlyTheCustomerExecutes | src/brain/confirmation.service.ts:378-447 | end to end: every call of a customer's write that reaches the gate, hence every execution, was confirmed by that customer, and so was the first confirm of a high-risk one |
| WriteTokens.TokenCallsShareTheirRow | src/tools/idempotency-gate.service.ts:466-484 | without an explicit key the key material of two calls with ids `confirm-<token>` is equal exactly when the tokens are, whatever their arguments and key fields |
| WriteTokens.ExplicitKeysSplitAToken | src/tools/idempotency-gate.service.ts:466-474 | the assumption is needed: with explicit keys the material of one token's calls is equal exactly when the trimmed keys are |
| WriteTokens.StepMovesOneToken | src/brain/confirmation.service.ts:417-447 | an event of one token's call moves that token's guard and row and those of no other token |
| WriteTokens.EachTokenRunsAlone | src/brain/confirmation.service.ts:417-447 | however the calls of many tokens interleave, one token and its row go through a run of that token alone |
| WriteTokens.OneSuccessPerConfirmedToken | src/brain/confirmation.service.ts:417-489 | end to end over all tokens, from key material through guard and gate, when no call carries an explicit key: exactly the calls of a token reach its row, and the successes there never exceed one plus the hazards, hence at most one under the gate's assumptions |
| ToolExecutor.Executor.ExecuteToolCall | src/tools/tool-executor.ts:71-270 | unparsed arguments, an unknown tool, a missing tenant or a foreign scope are refused before the breaker and change nothing; an open breaker runs nothing and touches no row; a call it lets through has exactly the report and leaves exactly the row of the gate's specification, all other rows unchanged; a success clears the breaker's record of the tool, a failure is appended to it, a call that did not run leaves what the question left, and every other tool's record stays |
| ToolExecutor.Executor.RunGated | src/tools/tool-executor.ts:165-270 | behind the breaker: check, tool and completion for a returned and for a thrown result, and the one row they may touch |
| ToolExecutor.Executor.CheckGate | src/tools/tool-executor.ts:165-194 | the decision of the gate and the row it leaves for a real write: malformed key, gate off, database down and normal operation |
| ToolExecutor.OnlyOneRowCompleted | src/tools/tool-executor.ts:201-201 | completing a handle touches the row of its key and no other |
| ToolExecutor.WritesRunOnlyWhenConfirmed | src/tools/tool-executor.ts:93-108 | a tool that runs sees confirm=true exactly when the argument says so and, for a write, the call came over the confirm channel |
| ToolExecutor.RealWriteIff | src/tools/tool-executor.ts:93-108 | the gate looks at a call exactly when it is a write confirmed over the confirm channel |
| ToolExecutor.RunsUnlessTheGateStopsIt | src/tools/tool-executor.ts:165-201 | a call the breaker lets through is kept from running exactly when it is a confirmed write, the gate is on, and its explicit key is malformed or the database holds a row in flight or succeeded |
| ToolExecutor.RunReportsItsOutcome | src/tools/tool-executor.ts:196-270 | a call that runs reports what the tool returned or the failure it threw; a result without a run is the row's stored success |
| ToolExecutor.WithoutTheTable | src/tools/tool-executor.ts:165-201 | without a working table a real write runs and no row changes; with a malformed explicit key nothing runs and no row changes |
| ToolExecutor.RepeatReplaysSuccess | src/tools/tool-executor.ts:165-201 | a repeated real write returns the first success without running the tool and leaves the row, whatever its own outcome would be |
| ToolExecutor.RepeatRetriesFailure | src/tools/tool-executor.ts:241-270 | after a failure the same key runs the tool again on the same row |
| RevokeWindow.ConfirmationService.RegisterExecuted | src/brain/confirmation.service.ts:599-621 | the executed operation is recorded under a new id with a window of three minutes, written out |
| RevokeWindow.ConfirmationService.GetExecutedByConfirmation | src/brain/confirmation.service.ts:629-643 | the lowest-numbered recorded, unrevoked operation of that confirmation and tenant, or none if there is none |
| RevokeWindow.ConfirmationService.MarkRevoked | src/brain/confirmation.service.ts:703-731 | succeeds exactly for a recorded, unrevoked operation of the same tenant inside its window, and removes the record |
| RevokeWindow.ConfirmationService.MarkRevokeFailed | src/brain/confirmation.service.ts:738-762 | under the same condition it records the error and counts the attempt, otherwise it changes nothing |
| RevokeWindow.ConfirmationService.CleanupExpired | src/brain/confirmation.service.ts:574-589 | exactly the records whose window is over go, and the count is theirs plus the guard's |
| RevokeWindow.OnlyItsTenantInTime | src/brain/confirmation.service.ts:669-697 | over every run: what may be revoked was registered for the tenant that asks, at most three minutes ago |
| RevokeWindow.CleanupsKeepAnswers | src/brain/confirmation.service.ts:565-762 | over every run in time order, whether each revoke and revoke-failed was accepted does not depend on whether or how often the clean-up ran |
| RevokeWindow.CleanupShowsIffSwept | src/brain/confirmation.service.ts:574-697 | exactly what a clean-up does change: record and refusal reason of an operation differ from those without clean-ups if and only if some clean-up met it past its window, which is then over |
| RevokeWindow.LookupChangesIffSwept | src/brain/confirmation.service.ts:574-643 | the lookup by confirmation answers differently with clean-ups if and only if the operation it would have found was swept |
| RevokeWindow.RevokedAtMostOncePerRecord | src/brain/confirmation.service.ts:669-731 | until an execution is registered again, it is revoked at most once per record whose window is open, over every run |
| RevokeWindow.RevokedTwiceIffTwoOpen | src/brain/confirmation.service.ts:669-731 | one execution can be revoked twice without being registered again if and only if two of its records are open at once |
| RevokeWindow.ReplayOpensASecondWindow | src/brain/confirmation.service.ts:599-621 | the input that does it: a replayed result registers its execution a second time inside the window |
| RevokeWindow.RevokedAtMostOnce | src/brain/confirmation.service.ts:669-731 | an execution registered once is revoked at most once, over every run before and after |
| CircuitBreaker.CircuitBreakerService.FilterRecent | src/tools/circuit-breaker.service.ts:78-80 | the loop keeps exactly the failures younger than the window, each as often as it was there |
| CircuitBreaker.CircuitBreakerService.CanProceed | src/tools/circuit-breaker.service.ts:70-112 | an unknown tool goes ahead; an open record refuses until the cooldown is over and is then probed half-open with no failures; a closed one opens now exactly when its recent failures reach the threshold; every other tool untouched |
| CircuitBreaker.CircuitBreakerService.RecordSuccess | src/tools/circuit-breaker.service.ts:117-127 | a success closes this tool's record and clears its failures, and nothing else |
| CircuitBreaker.CircuitBreakerService.RecordFailure | src/tools/circuit-breaker.service.ts:133-154 | a failure is appended to this tool's record, counted, and re-opens it when half-open |
| CircuitBreaker.SuccessStartsAfresh | src/tools/circuit-breaker.service.ts:117-127 | whatever the record was, after a success every later sequence of calls is answered as for a tool never heard of |
| CircuitBreaker.RecentOfRecent | src/tools/circuit-breaker.service.ts:78-80 | filtering at every question loses nothing a later filter would keep |
| CircuitBreaker.ReplayKeepsInv | src/tools/circuit-breaker.service.ts:70-154 | over every sequential run without success the record agrees with the failures so far |
| CircuitBreaker.SpacedFewInWindow | src/tools/circuit-breaker.service.ts:90-112 | points a cooldown apart number at most ceil(width / cooldown) in a window |
| CircuitBreaker.FailuresPerWindow | src/tools/circuit-breaker.service.ts:70-154 | any window of length windowMs holds at most failureThreshold + ceil(windowMs / cooldownMs) failures, and probe failures are a cooldown apart |
| History.TruncateOnce | src/brain/memory-manager.service.ts:224-230 | last20(last20(a) + b) = last20(a + b) |
| History.SaveHistory | src/brain/memory-manager.service.ts:185-252 | without Redis nothing happens; otherwise the save lands on the first attempt nobody interferes with, on top of everything stored before; an attempt that throws ends it, with the write in place only if just the reply was lost; after the last conflict nothing is written |
| History.CommitExtendsLog | src/brain/memory-manager.service.ts:220-240 | a committed save is the last twenty of the log with it appended |
| History.RunKeepsInv | src/brain/memory-manager.service.ts:203-252 | over every run of saves, clears and expiries the store is the last twenty of the log |
| History.SavesLinearise | src/brain/memory-manager.service.ts:203-252 | the history is the last 20 messages of the saves committed since the last clear or expiry, in commit order, each once; a save that gave up is in no log and was overtaken at least four times |
| History.AttemptAloneLands | src/brain/memory-manager.service.ts:203-240 | an attempt nobody comes between stores the last twenty of what was there and what is added, and is in the log once |
| History.OvertakenAttempt | src/brain/memory-manager.service.ts:240-252 | an overtaken attempt writes nothing and is followed by another one, three more at most |
| History.FailureEndsTheSave | src/brain/memory-manager.service.ts:203-252 | whatever fails on the way ends the save; a lost reply leaves its write in place |
| RateLimiter.BucketStaysInRange | src/common/rate-limiter.ts:239-268 | the bucket stays within [0, capacity] on every request sequence |
| RateLimiter.GrantsInInterval | src/common/rate-limiter.ts:239-268 | on a clock that never goes back the tokens granted in [s, t] are at most capacity + (t - s) * refillPerMs |
| RateLimiter.ClockStepBackBreaksBound | src/common/rate-limiter.ts:239-268 | the clock assumption is needed: one step back and forth exceeds the bound |
| RateLimiter.IdleIsFull | src/common/rate-limiter.ts:150-156 | a bucket idle for a whole window is as good as none, for any capacity |
| RateLimiter.MemoryLimiter.CleanupStaleBuckets | src/common/rate-limiter.ts:273-280 | exactly the buckets idle for more than the window go |
| RateLimiter.MemoryLimiter.ConsumeMemory | src/common/rate-limiter.ts:239-268 | after the optional clean-up: a missing bucket is full, any other has gained capacity / window for each idle millisecond up to the capacity; the tokens go exactly if there are enough; what is left, rounded down, is reported |
| RateLimiter.ReplyServes | src/common/rate-limiter.ts:239-268 | the reference bucket serves each request by the same rule, written out |
| RateLimiter.MonotoneIsTame | src/common/rate-limiter.ts:273-280 | a clock that never goes back is tame: no bucket that has looked stale is used again within its window |
| RateLimiter.CleanupInvisible | src/common/rate-limiter.ts:239-280 | dropping idle buckets, at any threshold, changes no later answer on any request sequence with a tame clock |
| RateLimiter.ClockStepBackShowsCleanup | src/common/rate-limiter.ts:273-280 | the condition is needed: a clock that steps back behind the window of a dropped bucket grants what the bucket would have refused |
| RateLimiter.RedisMemoryClient.Get | src/common/redis-memory.client.ts:66-74 | an expired key reads as absent and is deleted, nothing else changes |
| RateLimiter.RedisMemoryClient.EvalTokenBucket | src/common/redis-memory.client.ts:326-355 | the emulator answers and stores what the script does |
| RateLimiter.ScriptRefills | src/common/rate-limiter.ts:49-76 | on a store that holds the reference buckets the script computes the reference's refill, expired keys included |
| RateLimiter.ScriptAnswersAlike | src/common/rate-limiter.ts:49-76 | one script call gives the reference's answer and keeps store and reference in step |
| RateLimiter.ExpiryInvisible | src/common/rate-limiter.ts:49-76 | letting keys expire at 120 s never changes an answer, whatever the clock does, with either engine's notion of the last millisecond |
| RateLimiter.ThreeImplementationsAgree | src/common/rate-limiter.ts:49-76 | Lua script and emulator answer every request sequence as the reference bucket does; the in-process map does too on every tame clock, so on every clock that never goes back |
| SseStream.MergeFragments | src/providers/openai-compat.provider.ts:257-276 | the fragment loop merges each fragment into the accumulator of its index |
| SseStream.Drain | src/providers/openai-compat.provider.ts:209-277 | the line loop handles exactly the complete lines of the buffer and leaves the rest |
| SseStream.Chat | src/providers/openai-compat.provider.ts:196-295 | for every way of cutting the text into chunks the generator gathers what one batch parse of the text up to `[DONE]` gathers: it yields the non-empty contents in order of arrival, the final content is all of them joined, finish reason and usage are the last ones sent |
| SseStream.LinesOfAppend | src/providers/openai-compat.provider.ts:207-211 | the lines of a concatenation are the lines of the first part and those of its residue with the second |
| SseStream.LinesInvertEnded | src/providers/openai-compat.provider.ts:207-211 | any newline-free lines, each ended by a newline, and the rest behind them are found again exactly |
| SseStream.ChunkingInvariant | src/providers/openai-compat.provider.ts:196-295 | two ways of cutting one text yield the same pieces, content, usage, finish reason and tool calls |
| SseStream.ByChunksIsBatch | src/providers/openai-compat.provider.ts:196-295 | from any point of the loop, reading on by chunks is parsing the buffer and the rest at once |
| SseStream.BatchSays | src/providers/openai-compat.provider.ts:236-255 | from the payloads before `[DONE]` alone: what is yielded, the final content, the last non-empty finish reason or "stop", and both token counts of the last usage |
| SseStream.CallsAreFragments | src/providers/openai-compat.provider.ts:257-276 | the gathered calls are the merge of all fragments of all payloads, in order |
| SseStream.AccumulatorsHoldFragments | src/providers/openai-compat.provider.ts:257-276 | one accumulator per index mentioned, holding exactly that index's argument texts joined in order |
| SseStream.SortSorts | src/providers/openai-compat.provider.ts:406-435 | the result's sort gives strictly increasing indexes and loses nothing |
| SseStream.FinishKeepsOrder | src/providers/openai-compat.provider.ts:406-435 | every finished call comes from a named accumulator, in order |
| SseStream.FinishKeepsNamed | src/providers/openai-compat.provider.ts:406-435 | no named accumulator is lost |
| SseStream.ToolCallsAreWhole | src/providers/openai-compat.provider.ts:196-435 | from the fragments of the text alone: exactly one call for every index that was given a name, strictly increasing by index, with the arguments joined in order of arrival and the id and name its fragments sent |
| SseStream.NoCallsIffNoFragments | src/providers/openai-compat.provider.ts:406-435 | the result has a list of tool calls exactly if any fragment arrived |
| TextSplitter.PartsKeepSubstance | src/rag/text-splitter.service.ts:107-118 | cutting into sentences loses only white space and delimiters |
| TextSplitter.SentencesAreCuts | src/rag/text-splitter.service.ts:107-118 | the sentences are exactly the stretches from a character behind a delimiter (or the beginning) through the next delimiter (or the end), in order, trimmed, blank ones dropped, and all of them |
| TextSplitter.LostIffExtraDelimiter | src/rag/text-splitter.service.ts:109-109 | a character is in no such stretch exactly if it is a delimiter that opens the text or follows another |
| TextSplitter.ClosedRunsAreSentences | src/rag/text-splitter.service.ts:107-118 | a text made of trimmed runs each closed by one visible delimiter is cut into exactly these runs, punctuation included |
| TextSplitter.CutHard | src/rag/text-splitter.service.ts:75-82 | the hard-cut loop terminates and cuts full chunks off the front |
| TextSplitter.AddSentence | src/rag/text-splitter.service.ts:60-91 | one round of the sentence loop does one step of the specification |
| TextSplitter.Split | src/rag/text-splitter.service.ts:37-99 | blank text gives no chunk, a non-positive size one chunk, otherwise the chunks of the specification |
| TextSplitter.AddAllIsProper | src/rag/text-splitter.service.ts:60-96 | every chunk is proper and the own parts concatenate to the sentences added so far |
| TextSplitter.ChunksConserveSentences | src/rag/text-splitter.service.ts:37-99 | without inherited prefixes the chunks are the sentences in order; each begins its own part with a piece of a sentence of the text and inherits the last min(overlap, length) characters of the chunk before, or nothing if that sentence is longer than chunkSize; every length is from 1 to chunkSize + overlap |
| TextSplitter.ChunksKeepSubstance | src/rag/text-splitter.service.ts:37-118 | from document to chunks every character that is neither white space nor delimiter survives in order |
| TextSplitter.ChunksAreGreedy | src/rag/text-splitter.service.ts:52-96 | every chunk after the first begins with a sentence that did not fit any more, or goes on behind a cut of exactly chunkSize characters of the same sentence |
| TextSplitter.OverlapInheritedIffNoLongSentence | src/rag/text-splitter.service.ts:60-91 | for a positive overlap every chunk after the first inherits it if and only if no sentence of the text is longer than chunkSize |
| TextSplitter.ChunkTooLongIff | src/rag/text-splitter.service.ts:60-91 | a text has a chunk longer than chunkSize if and only if the lengths of its sentences alone say so: one that fits a chunk of its own opens one behind an overlap that leaves it no room |
| TextSplitter.RoomForOverlapKeepsPromise | src/rag/text-splitter.service.ts:37-99 | if every sentence of the text that fits a chunk also fits behind an overlap, no chunk is longer than chunkSize |
| TextSplitter.PromiseKeptIff | src/rag/text-splitter.service.ts:60-91 | for all lists of sentences up to a length that fits a chunk: none exceeds chunkSize if and only if that length and the overlap together fit |
| TextSplitter.GrowFollows | src/rag/text-splitter.service.ts:60-91 | the lengths of the previous and the open chunk after a sentence depend on those before and on the sentence's length only |
| TextSplitter.ChunkCanExceedChunkSize | src/rag/text-splitter.service.ts:83-90 | the text "aaaa", line feed, "bbbb" with chunkSize 4 and overlap 1 has a chunk longer than chunkSize |
| VectorStore.CosineSimilarity | src/rag/vector-store.service.ts:365-381 | the loop's result times both norms is the dot product; zero for unequal lengths, an empty or a zero vector |
| VectorStore.DotOfUnit | src/rag/vector-store.service.ts:371-376 | the accumulated product with a unit vector is the coordinate |
| VectorStore.DotIsLinear | src/rag/vector-store.service.ts:371-376 | the accumulated product is linear, which together with the unit vectors determines it |
| VectorStore.CauchySchwarz | src/rag/vector-store.service.ts:371-376 | dot(a,b)^2 <= dot(a,a) * dot(b,b), by one more coordinate at a time |
| VectorStore.CosineInRange | src/rag/vector-store.service.ts:365-381 | similarity lies in [-1, 1] |
| VectorStore.CosineSymmetric | src/rag/vector-store.service.ts:365-381 | similarity is symmetric, and 1 of a non-zero vector to itself |
| VectorStore.SortIsOrderedPermutation | src/rag/vector-store.service.ts:234-234 | the sort is a descending permutation |
| VectorStore.SearchReturnsBest | src/rag/vector-store.service.ts:224-241 | for every topK as many stored chunks as it asks for and there are, each at most as often as stored, best first, and no omitted one scores above a returned one |
| VectorStore.NegativeTopKDropsWorst | src/rag/vector-store.service.ts:235-235 | a negative topK drops exactly that many chunks: the rest comes best first and none of the dropped scores above it |
| VectorStore.VectorStoreService.RemoveDoc | src/rag/vector-store.service.ts:194-199 | the tenant's list loses exactly this document's chunks, other tenants keep theirs |
| VectorStore.VectorStoreService.AddChunks | src/rag/vector-store.service.ts:150-189 | the old chunks go, the new ones are appended and numbered from zero |
| VectorStore.UploadOverwrites | src/rag/vector-store.service.ts:150-199 | after an upload the document is exactly the new chunks, every other document is as before, and the last upload wins |
| DeadLetter.DeadLetterReplayService.Enqueue | src/ops/dead-letter-replay.service.ts:105-155 | an entry is appended to the stream and counted; a failing append is counted as failed, answers false and changes nothing else |
| DeadLetter.DeadLetterReplayService.ProcessEntry | src/ops/dead-letter-replay.service.ts:268-338 | limit before backoff before insert; acknowledgement and counters as in each of the four outcomes |
| DeadLetter.DeadLetterReplayService.Consume | src/ops/dead-letter-replay.service.ts:170-244 | a round reads pending entries, then new ones, processes each, and counts each in exactly one figure that matches the tries and the entries given up |
| DeadLetter.ProcessedActsOnOneSlice | src/ops/dead-letter-replay.service.ts:268-338 | processing an entry acts on that entry alone |
| DeadLetter.ProcessedKeepsInv | src/ops/dead-letter-replay.service.ts:268-338 | every outcome keeps each entry in exactly one place and its counters true |
| DeadLetter.DeliveredKeepsInv | src/ops/dead-letter-replay.service.ts:188-216 | reading a batch makes each new entry pending once and reads no entry twice |
| DeadLetter.EveryEntryIsAccountedFor | src/ops/dead-letter-replay.service.ts:170-338 | after any run an entry is exactly one of undelivered, pending with only failed tries, persisted by exactly one try, or given up once after exactly maxAttempts failed tries; tries n and n + 1 are at least backoff(n) apart |
| DeadLetter.RoundProcesses | src/ops/dead-letter-replay.service.ts:170-244 | a round of the protocol is a round of the service, also when nothing new has arrived: the oldest pending entries first, as many as the batch allows |
| DeadLetter.ProcessingMakesProgress | src/ops/dead-letter-replay.service.ts:281-338 | processing puts the entry off and changes nothing, or strictly lowers what remains to be tried |
| DeadLetter.BackoffGrows | src/ops/dead-letter-replay.service.ts:356-366 | the first pause is the base, each next one doubles up to the cap, and none is shorter than the one before |
| DeadLetter.OverlappingRoundsPersistTwice | src/ops/dead-letter-replay.service.ts:188-220 | two rounds that overlap on one pending entry write it to the table twice |
| Billing.BillingService.TakeFree | src/tenant/billing.service.ts:135-147 | the conditional UPDATE takes from a positive free count, never below zero, and reports whether it matched |
| Billing.BillingService.Charge | src/tenant/billing.service.ts:155-160 | the balance falls by the cost, never below zero |
| Billing.BillingService.Deduct | src/tenant/billing.service.ts:110-168 | over the account as it was: disabled pays nothing; a free chat pays if there is one; else monthly pays nothing and any other plan its price times tokens over a thousand, down to zero; and a call nobody interleaves with does what its steps in the protocol do |
| Billing.StepShiftsTogether | src/tenant/billing.service.ts:135-160 | what one step of one call does to the row is what it adds to the sums over the calls |
| Billing.AnyInterleavingBalances | src/tenant/billing.service.ts:110-168 | under any interleaving, plan changes and crashes included: neither counter is negative, the balance is max(0, initial - total charged) in any order, initial free + forgiven = final free + served |
| Billing.FreeCountIsConserved | src/tenant/billing.service.ts:135-147 | with one chat a call: initial free count = final free count + number of 'ok' calls |
| Billing.FreeCountPaysIffCovered | src/tenant/billing.service.ts:135-141 | with any number of chats a call the free count pays for all of them if and only if each 'ok' call met a count of at least its own chats |
| Billing.LastFreeChatForgivesTheRest | src/tenant/billing.service.ts:135-147 | a call of more chats than are left is served in full: the rest is neither counted nor charged |
| Billing.ChargedByTheRules | src/tenant/billing.service.ts:110-168 | under any interleaving: a call is charged only if the account it read was enabled and not monthly and its UPDATE found no free chat, and then exactly its tokens at the price it read; it is free only if there was a free chat; skipped only if disabled, or monthly without a free chat |
| Billing.ThreeStepsSettle | src/tenant/billing.service.ts:110-168 | a call that takes its three steps and does not die ends exactly as these rules say |
| Billing.EventsFromOutside | src/tenant/billing.service.ts:91-107 | a database error ends an unfinished call without touching money; a change of plan touches no call |
| Billing.OutcomesAreFinal | src/tenant/billing.service.ts:110-168 | a call lands in one outcome and keeps it |
| Billing.ThreeStepsFinish | src/tenant/billing.service.ts:110-168 | three steps of its own finish a call whatever others do between them |
| MemoryKey.DecodeInvertsEncode | src/brain/memory-manager.service.ts:380-380 | decoding an encoded part gives it back, so percent-encoding over UTF-8 is injective |
| MemoryKey.EscapedForm | src/brain/memory-manager.service.ts:380-380 | letters, digits and nine signs stay as they are, everything else becomes the percent-encoded octets of its UTF-8 form |
| MemoryKey.Utf8Shape | src/brain/memory-manager.service.ts:380-380 | how many octets a code point takes and what each of them looks like (section 3 of RFC 3629) |
| MemoryKey.EncodeURIComponent | src/brain/memory-manager.service.ts:380-380 | an encoded part contains no colon |
| MemoryKey.EncodesIffWellFormed | src/brain/memory-manager.service.ts:380-380 | encoding throws exactly on a surrogate without its partner |
| MemoryKey.KeySplitsIntoParts | src/brain/memory-manager.service.ts:370-383 | splitting a key at its colons gives back the prefix and the encoded parts |
| MemoryKey.KeysAreInjective | src/brain/memory-manager.service.ts:370-383 | two keys are equal exactly when tenant, session and customer are, an empty customer counting as none; a staff key is never a customer key |
| MemoryKey.KeyExistsIffWellFormed | src/brain/memory-manager.service.ts:370-383 | a key exists exactly when no part has a lone surrogate |
| OutboundTarget.ParseIntReads | src/common/outbound-target.guard.ts:282-283 | which texts each part of an IPv4 text is read from: white space, at most one sign, the longest run of digits; without a digit nothing |
| OutboundTarget.BlockedIpv4IsListed | src/common/outbound-target.guard.ts:282-301 | an IPv4 text is refused exactly when it does not parse or its address lies in one of the ten listed networks, by leading bits |
| Ipv6.ParseGroups | src/common/outbound-target.guard.ts:367-379 | the group loop computes the segment's groups, or nothing at the first malformed part |
| Ipv6.Ipv6Groups | src/common/outbound-target.guard.ts:329-365 | zone dropped, dotted tail rewritten, split at the double colon, zeros filled in: the steps of the specification |
| Ipv6.RewriteUndots | src/common/outbound-target.guard.ts:334-347 | rewriting a dotted tail gives the text of the same address in hexadecimal |
| Ipv6.SplitAtGap | src/common/outbound-target.guard.ts:348-351 | splitting at the double colon gives back the two halves |
| Ipv6.ParseInvertsText | src/common/outbound-target.guard.ts:329-379 | every legal text of an address (RFC 4291, sections 2.2 and 2.5.5), with any compression, dotted tail or zone, parses to exactly the address it denotes |
| BlockedIpv6.GroupsAreAddress | src/common/outbound-target.guard.ts:329-365 | whatever parses is eight groups below 65536 |
| BlockedIpv6.MasksArePrefixes | src/common/outbound-target.guard.ts:314-316 | the mask tests are fc00::/7, fe80::/10 and ff00::/8 by leading bits |
| BlockedIpv6.MappedTextParses | src/common/outbound-target.guard.ts:318-323 | printing the last 32 bits in dotted decimal and parsing them gives them back |
| BlockedIpv6.BlockedIpv6IsListed | src/common/outbound-target.guard.ts:304-326 | an IPv6 text is refused exactly when it does not parse, its address lies in a network the code looks for, or it embeds a listed IPv4 address |
| BlockedIpv6.Nat64TestMatchesItsCommentIff | src/common/outbound-target.guard.ts:317-317 | the NAT64 test agrees with the range its comment names exactly for addresses outside 64:ff9b::/32 and those whose groups three to six are zero |
| BlockedIpv6.Nat64TestIsWider | src/common/outbound-target.guard.ts:317-317 | 64:ff9b:1:: is refused although it is in no network the comments name |
| BlockedIpv6.EmbeddedAgreesWithIpv4 | src/common/outbound-target.guard.ts:318-323 | with 80 leading zero bits an IPv6 text is refused exactly when the IPv4 address in its last 32 bits is |
| BlockedIpv6.MappedAgreesWithIpv4 | src/common/outbound-target.guard.ts:318-323 | ::ffff:a.b.c.d is refused exactly when a.b.c.d is |

## Left out

- IdempotencyGate.IdempotencyTable.CleanupExpired: the error text column and its cut at 512 characters are not stored; which rows of a batch the database deletes first is open.
- IdempotencyGate.IdempotencyTable.Check: sha256 is an injective function, so the key is the key material itself; metrics and failure reports are not modelled.
- Canonical.EquivalentIffCanonicallyEqual: keys are ordered by code point and integer-like keys are not moved to the front, which changes the printed order but not which objects print alike; JSON `undefined` and lone surrogates do not occur.
- KeyMaterial.PickedFields: fields inherited from the object prototype are not looked up.
- WriteGuardProtocol.GoAheadsAreSingleAndSeconded: assumes that confirm and cancel bodies end inside the five second lease and that the store does not fail over; without the lease it fails (LapsedLeaseDoublesGoAhead). On the in-memory store there is no lock: each body there judges and changes the record without giving way, which is one call of `WriteGuardService.Confirm` or `Cancel`.
- WriteTokens.OneSuccessPerConfirmedToken: for calls without an explicit idempotency key, which replaces the token's own key (ExplicitKeysSplitAToken); tenant and tool name, which precede the material in the key, are fixed by the token.
- CircuitBreaker.FailuresPerWindow: sequential runs only; the code does not count half-open probes, so concurrent callers can fail more often. Manual reset and status listing are not modelled.
- History.SavesLinearise: one save in flight per connection, since two saves on one connection share its WATCH. The cut of long messages when a history is loaded, archives and the TTL value are not modelled.
- RateLimiter.ExpiryInvisible: requests and key expiry go by one clock.
- RateLimiter.GrantsInInterval: rounding of floating-point numbers is not modelled; the switch between Redis and the in-process map starts from an empty map and is a separate bucket.
- SseStream.Chat: JSON parsing is a parameter and UTF-8 decoding of network chunks is done before; a payload of a shape that makes the source throw is not modelled.
- TextSplitter.ChunkTooLongIff: lengths and cuts count Unicode characters where the source counts UTF-16 units, so a cut inside a surrogate pair is not modelled.
- VectorStore.SearchReturnsBest: chunk ids, creation times, the MySQL copy and its loading at start are not modelled; the square root is any function that inverts squaring on positive reals.
- DeadLetter.EveryEntryIsAccountedFor: acknowledgements succeed, the stream is not trimmed, the process is not restarted and rounds do not overlap; entries added before the consumer group exists and the fields of an entry are not modelled.
- Billing.AnyInterleavingBalances: the row exists and amounts are exact; creation of a missing row, decimal rounding and the quota check before a call are not modelled. An UPDATE reports the rows its WHERE matched.
- Ipv6.ParseInvertsText: texts are in lower case, as the callers make them; `isIP`, which runs before, and DNS resolution are not modelled.
- WriteGuard.WriteGuardService.Remove: the periodic sweep of the in-memory store is not a method of its own; dropping expired records at any moment is the `Evict` event of the protocol.
- RevokeWindow.RevokedAtMostOnce: operation ids are fresh numbers where the source draws random ones; the executors of a revocation are not modelled.
- WriteOwner.OnlyTheCustomerExecutes: whatever record a store brings up after a failover still names the same customer.
- HTTP, WebSocket and Electron transport, controllers, guards, JWT checks, module wiring, migrations: no state worth proving.
- LLM calls, prompts, intent and tone heuristics, and the matching of confirm and cancel words.
- The `deepseek`, `glm` and `ollama` providers, whose stream loop is a near copy of the modelled one.
- Price engine, unit conversion, ACL lookup, plan-step matching, evolution version states, readiness probe: they would add only easy members.
- Listings (`listPending`, `status`, `listKnowledge`) and start-up probing of Redis.
