# Vireo: a verified model of its stateful core

Vireo is a single-threaded Reactor in front of a worker pool. What is hard about it is state: bytes
that arrive in any chunks must be framed as if they had arrived at once; work that has been handed
over must not be handed over again when a later step fails; a slot that is reused must not honour an
old lease; a logout must also reach the session resumes that are still on their way. This project
models those parts in Dafny and proves what holds after every step of every run.

## How it is organised

Each stateful component comes in two files. A *model* file (`ConnectionModel`, `SessionModel`,
`ConsumerModel`, `HeadModel`, `AsyncModel`, `PoolModel`, `ConnectionPoolModel`, `DeadlineModel`,
`LogSinkModel`, `ConfigModel`) gives the component as a value, one function per operation, and proves
the invariants and whole-run theorems about runs: a `Step` or `Apply` function over a datatype of
events, a `Run` over a list of them, an invariant every step keeps. A *class* file (`Connections`,
`Sessions`, `Consumers`, `Heads`, `AsyncHeads`, `Pools`, `ConnectionPools`, `Deadlines`, `LogSinks`,
`ConfigParsers`) has the fields, arrays and loops of the source, and every method is proved to change
the object's abstract value (`View()`) exactly as the model function says, so the theorems carry over.

- `Base` has result codes, leases and the checked arithmetic; `Framing` the reference parser and the
  bounded peek; `Buffers` the byte buffer; `ConsumerRuns` any number of response consumers over one
  session table and `ConsumerDelivery` what one call achieves; `PoolIdentity` the lock-free pool identity counter; `LogFormat` and `LogWriter` the
  log line as text and the two-pass writer; `ConfigRoundTrip` a configuration written out and read back.
- Dependencies answer through parameters: a schedule of kernel results, a code per call, or an `Env`
  record with one answer for each dependency a call may consult. Theorems hold for all of them. The
  contracts assumed are those the source states: a refused enqueue, consume, re-arm or modify changes
  nothing, and a handed-over task leaves nothing behind.
- The header codec and the frame checksum are uninterpreted functions of the bytes they look at.
- History (bytes received, frames taken, frames enqueued, leases issued) is kept in model fields or
  ghost fields; no operation reads it.
- In each model `InitialInv` (or `FreshInv`, `FreshAgrees`) and `RunInv` put every reachable state under
  the invariant, so a lemma whose only precondition is the invariant holds in every reachable state.

`dafny verify dfyconfig.toml` checks everything.

## Model

| member | source | states |
|---|---|---|
| Base.CheckedMul | src/base/checked.c:33-48 | Overflow exactly when the true product does not fit, otherwise the product |
| Base.CheckedAlignUp | src/base/checked.c:142-164 | the least multiple of the alignment not below the value; Overflow exactly when no multiple fits a machine word |
| Buffers.Buffer.Append | src/base/buffer.c:140-158 | the readable bytes are extended by exactly the new bytes, or nothing changes; everything written outside the readable window stays zero |
| Buffers.Buffer.Consume | src/base/buffer.c:171-188 | drops exactly the requested prefix and wipes it, or changes nothing |
| Buffers.Buffer.Compact | src/base/buffer.c:190-204 | same readable bytes at the front of the same storage, vacated positions zero |
| Buffers.Buffer.ReplaceStorage | src/base/buffer.c:223-244 | same readable bytes in fresh storage, the old storage entirely zero, or nothing changes without memory |
| Buffers.Buffer.Reserve | src/base/buffer.c:246-278 | on success the requested tail is free, within the hard cap, with the same readable bytes; the exact result code for every input |
| Buffers.Buffer.Shrink | src/base/buffer.c:280-292 | exactly the requested capacity with the same readable bytes, or nothing changes |
| Framing.ParseReassembles | src/net/connection.c:915-1006 | frames followed by the rest are the stream, byte for byte |
| Framing.ParseExtends | src/net/connection.c:915-1006 | parsing a longer stream resumes where the shorter stopped; a fault once present stays where it is with its diagnosis |
| Framing.ParseSound | src/net/connection.c:915-1006 | every frame found has a header declaring exactly its size, a size within the limit and a good checksum, and nothing more could be cut off the rest |
| Framing.ParseUnique | src/net/connection.c:915-1006 | good frames followed by bytes that yield nothing more are found exactly as they are: there is no other way to cut a stream |
| Framing.PeekOne | src/net/connection.c:860-1008 | a peek for one frame reports that frame, its fault, or what is missing, and nothing else |
| Framing.PeekAgreesWithParse | src/net/connection.c:860-1008 | a peek reports leading frames of the reference parse, all of them unless a budget stopped it, and faults exactly where and how the reference does |
| Framing.PeekStopsAtBudget | src/net/connection.c:915-1006 | a budget is named as the reason only when the next header or frame would not fit it |
| Framing.PeekRespectsBudgets | src/net/connection.c:915-1006 | message, output and byte budgets are never exceeded |
| Framing.ScanFrames | src/net/connection.c:915-1006 | the loop computes the specified peek and the total of the bytes it covers |
| ConnectionModel.AbsorbBounds | src/net/connection.c:742-796 | byte, call and space limits hold and each stop reason means what it says |
| ConnectionModel.AbsorbKeepsEveryByte | src/net/connection.c:742-796 | every byte the kernel handed over is kept, in order |
| ConnectionModel.PushCountsEveryByte | src/net/connection.c:1102-1148 | the count removed from the queue is exactly what the transport took |
| ConnectionModel.ReceiveExact | src/net/connection.c:709-797 | a receive is refused only for a zero budget or a closing connection; otherwise it appends exactly what the calls brought and says why it ended |
| ConnectionModel.EnqueueExact | src/net/connection.c:1010-1049 | bytes are accepted exactly while the connection is open and they fit |
| ConnectionModel.SendExact | src/net/connection.c:1082-1149 | a connection not yet ready, draining included, is never refused a send, and exactly what the transport took leaves the queue |
| ConnectionModel.DrainFinishes | src/net/connection.c:1082-1149 | once the transport takes what is queued, one send and one close refresh make a draining connection Ready with every accepted byte sent |
| ConnectionModel.FramingIgnoresChunking | src/net/connection.c:709-1008 | for every stream and interleaving, frames taken followed by frames on offer are a prefix of the one-shot parse of all bytes received |
| ConnectionModel.PeekFaultExplained | src/net/connection.c:860-1008 | a peek faults only at the position and for the reason the one-shot parse of everything received gives |
| ConnectionModel.SameFaultHoweverSplit | src/net/connection.c:860-1008 | two runs over one stream under one frame limit raise the same oversize, codec or truncation fault at the same stream position however the bytes were split |
| ConnectionModel.SameCodecFaultHoweverSplit | src/net/connection.c:915-1006 | codec faults agree in position and diagnosis even when the two runs use different frame limits |
| ConnectionModel.TakenAreConsumed | src/net/connection.c:811-820 | frames on offer can be taken, and the bytes consumed are the taken frames end to end |
| ConnectionModel.NoStallOnHalfFrame | src/net/connection.c:1392-1492 | when a successful configure or refresh leaves read pressure on, every legal peek yields a frame or a protocol error |
| ConnectionModel.IdleOnlyWhenDone | src/net/connection.c:1419-1451 | the interest set is empty only when nothing is queued and either input has ended or read pressure holds with something to handle now |
| ConnectionModel.PressureExact | src/net/connection.c:1392-1395 | hysteresis: on at the high mark, off at the low mark, unchanged in between |
| ConnectionModel.FlowExact | src/net/connection.c:1419-1451 | both pressures and exactly the interests they leave are published, or nothing |
| ConnectionModel.ConfigureExact | src/net/connection.c:1453-1527 | options are accepted exactly when the frame limit and both pairs of marks fit the buffers |
| ConnectionModel.PeekExact | src/net/connection.c:860-914 | a peek is refused exactly for limits that do not fit the connection |
| ConnectionModel.BindingExact | src/net/connection.c:1272-1359 | interests are registered, replaced and dropped exactly when allowed and the event loop agrees |
| ConnectionModel.RunAdvances | src/net/connection.c:1568-1646 | over any run the first close reason is permanent, Immediate is never downgraded, Ready absorbs, end of input is final |
| ConnectionModel.CloseExact | src/net/connection.c:1595-1627 | every legal close request takes effect: mode, first reason, draining exactly while something is queued, whatever the event loop answers |
| ConnectionModel.CloseRefreshExact | src/net/connection.c:1629-1646 | a refresh moves a closing connection on exactly as far as its queue allows |
| ConnectionModel.LosslessDrain | src/net/connection.c:1010-1149 | bytes the transport took followed by the queue are the concatenation of accepted enqueues; Ready under Drain means all were sent |
| Connections.Connection.Receive | src/net/connection.c:709-797 | the in-place receive loop refines the model's receive |
| Connections.Connection.FramesPeek | src/net/connection.c:860-1008 | reports the specified peek of the buffered bytes and consumes nothing |
| Connections.Connection.WriteEnqueue | src/net/connection.c:1010-1049 | all bytes queued or nothing, with the exact code |
| Connections.Connection.SendPending | src/net/connection.c:1082-1149 | the in-place send loop refines the model's send |
| Connections.Connection.ApplyFlow | src/net/connection.c:1419-1451 | pressures, options and interests are published together, or all stay as they were |
| Connections.Connection.SyncClose | src/net/connection.c:1568-1593 | the close state is settled before the loop is asked and survives its refusal |
| Connections.Connection.AskClose | src/net/connection.c:1595-1627 | first reason kept, mode never downgraded, state settled |
| SessionModel.StepInv | src/net/auth_session.c:47-158 | handles bound or reserved stay non-zero and pairwise distinct; serial, cutoff and resume watermark never fall |
| SessionModel.SerialsStrictlyIncrease | src/net/auth_session.c:47-73 | of two reservations in one run the later has the larger serial |
| SessionModel.TicketTakesEffectOnce | src/net/auth_session.c:77-96 | in any run a ticket's commits and aborts succeed at most once together |
| SessionModel.TicketTouchesOnlyItsReservation | src/net/auth_session.c:77-96 | an effective ticket acts on the reservation it was issued for and leaves every other slot alone |
| SessionModel.CommitMakesVisible | src/net/auth_session.c:86-108 | a reservation answers no lookup before its commit, its identity after it, and none after an abort |
| SessionModel.LogoutRevokesEverywhere | src/net/auth_session.c:110-158 | after a logout no lookup returns that session and every resume noted so far is refused |
| SessionModel.LogoutSparesOthers | src/net/auth_session.c:110-158 | revoking or logging out one session leaves every lookup and every reservation of another session as it was |
| SessionModel.ForgetEndsOne | src/net/auth_session.c:121-128 | forgetting a client ends its binding and reservation and nobody else's |
| SessionModel.ReserveKeepsLookups | src/net/auth_session.c:47-73 | a reservation disturbs no lookup unless the slot passes to a new client |
| SessionModel.LookupMeans | src/net/auth_session.c:97-109 | a lookup succeeds exactly for the bound handle of that very client, unrevoked and unexpired, and returns its identity |
| SessionModel.NoteAccepted | src/net/auth_session.c:141-151 | a resume above the watermark is always noted and then passes the check |
| SessionModel.NotedResumePasses | src/net/auth_session.c:141-158 | a resume noted after the last logout passes the check until the next one: the fence blocks nothing newer |
| Sessions.SessionTable.ReserveHandle | src/net/auth_session.c:47-73 | the scan and slot update refine the model's reservation, every refusal included |
| Sessions.SessionTable.RevokeSession | src/net/auth_session.c:110-120 | one pass marks exactly the bindings and reservations of that session |
| Sessions.SessionTable.LogoutSession | src/net/auth_session.c:152-158 | raises the cutoff to the watermark and revokes, found or not |
| ConsumerRuns.ApplyInv | src/net/auth_response_consumer.c:47-252 | every step of any number of consumers, under every failure, keeps the joint invariant of receipts, table and history |
| ConsumerRuns.OneFrameOneEffect | src/net/auth_response_consumer.c:47-149 | a completion puts at most one frame in a FIFO, a logout takes effect once per completion and before its client is matched |
| ConsumerRuns.HandleVisibleOnlyAfterFrame | src/net/auth_response_consumer.c:101-128 | a handle answers a lookup only after a success frame carrying it was wholly enqueued to that client |
| ConsumerRuns.HandleBelongsToItsCompletion | src/net/auth_response_consumer.c:101-128 | in every run whoever a lookup finds is exactly the user, session and lifetime of a completion that arrived for that client and granted a handle |
| ConsumerRuns.FrameAnswersItsCompletion | src/net/auth_response_consumer.c:79-122 | every frame goes to the client of a completion that arrived, with a status that completion allows and a handle only for a grant |
| ConsumerRuns.NotedBelowWatermark | src/net/auth_session.c:141-145 | every resume noted in a run lies at or below the watermark a logout fences off |
| ConsumerRuns.SettledReceiptLeavesNothing | src/net/auth_response_consumer.c:214-252 | an acknowledged or abandoned receipt leaves no reservation of its own |
| ConsumerRuns.LogoutFence | src/net/auth_response_consumer.c:47-128 | once an event makes a logout take effect, every lookup that succeeds afterwards finds the identity of a completion that arrived for that client, and if that completion is for the session logged out it is no resume noted before, whether it was unprocessed, reserved, enqueued or bound |
| ConsumerDelivery.AnswerDelivered | src/net/auth_response_consumer.c:71-208 | with every dependency answering, one call applies a due logout, sends one frame with the deserved status, binds a deserved handle and leaves a receipt that can be acknowledged |
| ConsumerDelivery.GrantVisible | src/net/auth_response_consumer.c:101-128 | a deserved login or resume is visible under the handle it was sent, with its own identity, until it expires |
| ConsumerDelivery.RetryCompletes | src/net/auth_response_consumer.c:124-136 | a call that stopped after the enqueue is completed later without a second frame |
| ConsumerDelivery.RetryDelivers | src/net/auth_response_consumer.c:189-202 | a call that stopped before anything was reserved is completed later as if it were the first |
| ConsumerDelivery.GoneSettles | src/net/auth_response_consumer.c:178-188 | a completion whose client or request is gone has its logout applied and disappears without a frame |
| ConsumerDelivery.AbandonSettles | src/net/auth_response_consumer.c:221-252 | giving up applies a due logout, frees a held reservation and leaves nothing |
| ConsumerDelivery.AbandonRefuses | src/net/auth_response_consumer.c:224-239 | nothing to give up, or a foreign completion, is refused without change |
| ConsumerDelivery.ReserveExact | src/net/auth_session.c:47-73 | the exact conditions under which a handle is reserved |
| ConsumerDelivery.StepRefuses | src/net/auth_response_consumer.c:166-174 | calls that must be refused are, in source order, without change |
| ConsumerDelivery.ForeignReceiptRefused | src/net/auth_response_consumer.c:190-196 | a receipt begun for one completion is never used for another |
| ConsumerDelivery.FailuresAreReported | src/net/auth_response_consumer.c:79-139 | a failing step is reported as it is and changes nothing |
| ConsumerDelivery.RefusedFrameWaits | src/net/auth_response_consumer.c:116-122 | a refused frame leaves the completion waiting with its reservation kept and nothing sent |
| ConsumerDelivery.RefusedReservationWaits | src/net/auth_response_consumer.c:101-106 | a refused reservation is reported and nothing is sent |
| ConsumerDelivery.UnknownResumeRefused | src/net/auth_response_consumer.c:84-89 | a resume never noted is an error, not an answer |
| ConsumerDelivery.UnmatchedWaits | src/net/auth_response_consumer.c:178-188 | an in-flight store that cannot answer leaves the completion in place, its logout applied |
| Consumers.Consumer.Effects | src/net/auth_response_consumer.c:47-59 | applies a due logout once and records it, or changes nothing |
| Consumers.Consumer.Send | src/net/auth_response_consumer.c:71-139 | the staged send refines the model's phases, each failure keeping the prefix done |
| Consumers.Consumer.Step | src/net/auth_response_consumer.c:151-208 | one call refines the model's step |
| Consumers.Consumer.AbandonReceipt | src/net/auth_response_consumer.c:221-252 | refines the model's abandonment, the due effect included |
| HeadModel.StatusExact | src/net/auth_request_rejection.c:32-47 | for each wire status, exactly the submissions it is given for |
| HeadModel.EveryFrameSubmittedOnce | src/net/auth_request_head.c:85-176 | frames submitted are, in order without gaps or repeats, leading frames of the one-shot parse; each is removed at most once and only the one under receipt is not yet removed |
| HeadModel.NextFrameIsSubmitted | src/net/auth_request_head.c:121-159 | with an empty receipt the next complete frame is submitted, exactly once, with its own command and sequence; without one nothing is |
| HeadModel.TurnHandlesNext | src/net/auth_service.c:139-164 | with every dependency answering one turn takes the next frame all the way: handed over, or answered by its own rejection |
| HeadModel.AllFramesAreHandled | src/net/auth_request_head.c:96-197 | as many turns as there are frames waiting handle all of them, in order |
| HeadModel.SubmitRefuses | src/net/auth_request_head.c:104-141 | a standing receipt or a task not dropped blocks the next submission; a failed look at the input changes nothing |
| HeadModel.ExactlyOneOutcome | src/net/auth_service.c:139-164 | whenever the receipt is empty, each submission ended in exactly one way: handed over, or one rejection at its own place in the queue |
| HeadModel.NeverBoth | src/net/auth_request_rejection.c:100-146 | mid-way too, a transferred task has no rejection and an untransferred one at most one |
| HeadModel.SettlesIffSettleable | src/net/auth_service.c:139-164 | with every dependency answering, one turn settles a head if and only if it was transferred or is a failed auth command without a retained record |
| HeadModel.UnsettledBlocks | src/net/auth_service.c:139-164 | a head that cannot be settled is never acknowledged and nothing more is submitted for that client |
| HeadModel.FinishReportsFailures | src/net/auth_service.c:139-164 | each failure on the way is reported as it is and keeps the receipts; only a full response queue ends a turn well |
| HeadModel.BlockedReplyWaits | src/net/auth_service.c:157-159 | a full response queue is no error: the receipt waits and nothing was enqueued |
| HeadModel.ForeignRejectionRefused | src/net/auth_request_rejection.c:54-61 | a rejection receipt written for another head is neither continued nor acknowledged |
| Heads.ClientHead.SubmitReadHead | src/net/auth_request_head.c:96-159 | refines the model's submission: receipt saved before the consume |
| Heads.ClientHead.Reject | src/net/auth_request_rejection.c:100-146 | refines the model's rejection: enqueue recorded before the refresh, never repeated |
| Heads.ClientHead.AcknowledgeBoth | src/net/auth_request_rejection.c:153-166 | clears both receipts together or neither |
| Heads.ClientHead.Finish | src/net/auth_service.c:139-164 | refines the model's completion of an open head |
| AsyncModel.HandedIsTakenPlusPending | src/net/async_request_head.c:95-171 | in every run frames handed over are the frames removed plus exactly the pending one; both are leading frames of the one-shot parse |
| AsyncModel.NextFrameIsOffered | src/net/async_request_head.c:125-156 | with nothing pending the next frame is offered; handed over, the record stands for exactly that frame until consumed; otherwise nothing changes |
| AsyncModel.SubmitRefuses | src/net/async_request_head.c:113-130 | a standing record, a task not dropped or an impossible limit blocks the next submission |
| AsyncModel.ResumeExact | src/net/async_request_head.c:95-105 | resuming consumes exactly the pending frame or keeps the record |
| AsyncModel.ResumeRefuses | src/net/async_request_head.c:158-171 | without a record, or with a malformed one, nothing is consumed |
| AsyncModel.RecoveryNeverRepeats | src/net/async_pending_recovery.c:45-86 | feeding the reported step back never calls a step again once it has succeeded, and steps only go forward |
| AsyncModel.DoneMeansAllSucceeded | src/net/async_pending_recovery.c:68-85 | the final step is reported only when consume, refresh and schedule have each succeeded |
| AsyncModel.RecoveryCompletes | src/net/async_pending_recovery.c:68-85 | from wherever it stands, one call with every dependency answering completes and leaves nothing pending |
| AsyncModel.CheckExact | src/net/async_pending_recovery.c:50-67 | a recovery is let through exactly when its step fits the record and the client |
| AsyncModel.RecoverStopsAtFailure | src/net/async_pending_recovery.c:68-85 | a recovery goes exactly as far as its dependencies let it and says where it stopped |
| AsyncModel.RefusedStaysRefused | src/net/async_pending_recovery.c:50-68 | no step is reported exactly when the checks fail, and feeding that back makes no call until the caller begins anew |
| AsyncHeads.AsyncHead.SubmitReadHead | src/net/async_request_head.c:107-156 | refines the model's submission: pending record only for a task really handed over |
| AsyncHeads.AsyncHead.ResumePending | src/net/async_pending_recovery.c:45-86 | refines the model's recovery from any step |
| PoolModel.LayoutExact | src/base/pool.c:43-76 | Overflow exactly when the true aligned stride or total does not fit, Range exactly when it fits but exceeds the budget |
| PoolModel.LayoutRefusals | src/base/pool.c:48-53 | arguments are refused exactly when one is zero or the alignment is no power of two |
| PoolModel.SizeExact | src/base/pool.c:136-161 | the size of a whole pool: Overflow exactly when storage, records or their total do not fit, Range exactly when they exceed a limit |
| PoolModel.FreeListExact | src/base/pool.c:190-201 | following the links visits exactly the slots not in use, once each, and ends; visited plus in use is the capacity |
| PoolModel.AcquireAddsOne | src/base/pool.c:229-260 | the live leases gain exactly one, of a generation never issued before |
| PoolModel.ReleaseRemovesOne | src/base/pool.c:262-287 | release succeeds exactly for a live lease and removes only that one, otherwise nothing changes |
| PoolModel.ReleaseCodes | src/base/pool.c:266-278 | why a lease is not taken back, for every lease |
| PoolModel.AcceptedAtMostOnce | src/base/pool.c:262-287 | in any run any lease value, genuine or forged, is accepted back at most once, slot reuse included |
| PoolModel.IssuedIncrease | src/base/pool.c:229-260 | generations handed out in a run strictly increase |
| PoolModel.ObjectsDisjoint | src/base/pool.c:242-249 | objects of two live leases are in bounds, aligned and share no byte |
| PoolIdentity.IdsAreDistinct | src/base/pool.c:111-125 | under every weak-exchange interleaving with stale reads, ids are non-zero and pairwise distinct, every id passed has an owner, and a creator gives up only at exhaustion |
| PoolIdentity.ExchangeClaims | src/base/pool.c:119-122 | an exchange claims the next id exactly when the value held is still the counter's and it does not fail for no reason |
| PoolIdentity.ClaimIdentity | src/base/pool.c:111-125 | the retry loop ends with an id only through an exchange that moved the counter from the id before it |
| Pools.ObjectPool.constructor | src/base/pool.c:190-198 | every slot threaded on the free list, first to last |
| Pools.ObjectPool.Take | src/base/pool.c:229-260 | refines the model's acquire in place |
| Pools.ObjectPool.GiveBack | src/base/pool.c:262-287 | refines the model's release in place |
| Pools.CreatePool | src/base/pool.c:127-202 | the exact result for every set of options, and a fresh valid pool on success |
| ConnectionPoolModel.LookupExact | src/net/connection_pool.c:506-531 | lookup succeeds exactly for the leases held, returns their connection and never reports Internal |
| ConnectionPoolModel.AdoptRefines | src/net/connection_pool.c:586-672 | adopting binds one lease never used before and disturbs no other; a refusal changes nothing |
| ConnectionPoolModel.AdoptExact | src/net/connection_pool.c:605-671 | a connection is adopted exactly when it is whole, idle and open, its bytes fit, and a slot and a generation are left; counts and bytes follow |
| ConnectionPoolModel.GiveBackCounts | src/net/connection_pool.c:719-731 | giving back restores the counts and exactly the bytes that connection brought |
| ConnectionPoolModel.GiveBackRefines | src/net/connection_pool.c:692-738 | removes exactly that lease, exactly when it is held and its connection was destroyed; a busy connection changes nothing |
| ConnectionPoolModel.InspectNeverInternal | src/net/connection_pool.c:404-431 | the two sets of books agree, so the Internal branch cannot be reached |
| ConnectionPoolModel.FreshAgrees | src/net/connection_pool.c:367-378 | a new pool starts with both sets of books in agreement |
| ConnectionPoolModel.LookupIffAdoptedNotReleased | src/net/connection_pool.c:586-738 | over any run a lookup succeeds exactly for leases adopted and not released since, with that connection; the byte total is the sum over live entries and within its maximum |
| ConnectionPools.ConnectionIndex.AdoptConnection | src/net/connection_pool.c:586-672 | refines the model's adoption over the object pool, in place |
| ConnectionPools.ConnectionIndex.GiveBackConnection | src/net/connection_pool.c:692-738 | refines the model's release over the object pool, in place |
| ConnectionPools.ConnectionIndex.InspectPool | src/net/connection_pool.c:404-431 | always finds the books in agreement |
| DeadlineModel.InstallTimers | src/net/auth_service_deadline.c:36-45 | a new deadline pair and its timer are installed together or, on any failure, both stay as they were |
| DeadlineModel.InstallExact | src/net/auth_service_deadline.c:36-45 | deadlines are installed exactly when the wheel takes them and both lie ahead |
| DeadlineModel.OverdueCloses | src/net/auth_service_deadline.c:88-136 | an overdue client is closed by guard, activity, frame update and turn alike before anything else, its deadlines untouched; one in time is not closed |
| DeadlineModel.StartSets | src/net/auth_service_deadline.c:76-87 | a new client gets the unauthenticated deadline counted from now |
| DeadlineModel.GuardSets | src/net/auth_service_deadline.c:88-114 | a client in time is left alone, and one whose session is gone falls back to the unauthenticated deadline from now |
| DeadlineModel.GuardReportsFailures | src/net/auth_service_deadline.c:91-108 | a clock, session or sum that fails is reported as it is |
| DeadlineModel.ActivitySets | src/net/auth_service_deadline.c:115-131 | the idle deadline restarts exactly for a newly bound session or an authenticated submission |
| DeadlineModel.TurnSucceeds | src/net/auth_service_deadline.c:132-165 | a turn over well-formed input succeeds with a frame deadline exactly for an incomplete last frame; malformed input is a protocol error |
| DeadlineModel.CancelFrees | src/net/auth_service_deadline.c:166-173 | an accepted cancel frees timer, route and binding |
| DeadlineModel.SlotsAreReused | src/net/auth_service.c:52-137 | a free slot takes a client in and a cleaned-up client leaves it free |
| DeadlineModel.FireReachesItsClient | src/net/auth_service_deadline.c:174-191 | a timer that fires reaches exactly the client it was armed for; the route lookup never goes wrong |
| DeadlineModel.ArmedTimerIsEarliest | src/net/auth_service_deadline.c:19-45 | in every run, rollbacks included, an armed timer holds the earlier of its client's phase and frame deadlines and its route leads back |
| DeadlineModel.TimersBelongToOne | src/net/auth_service_deadline.c:166-191 | every timer on the wheel belongs to exactly one client |
| DeadlineModel.FrameDeadlineNeverExtended | src/net/auth_service_deadline.c:132-165 | without errors a frame deadline exists exactly while the read buffer ends in an incomplete frame, is the one set in the turn that brought that frame's first byte, and is never set again for that frame |
| DeadlineModel.ReceiveKeeps | src/net/auth_service.c:193-216 | receiving and then updating the frame deadline keeps this, whatever arrived |
| Deadlines.FindBoundary | src/net/auth_service_deadline.c:141-150 | the scan finds where the incomplete frame at the end begins, as the reference parse does |
| Deadlines.DeadlineService.Replace | src/net/auth_service_deadline.c:109-113 | write, synchronise, restore on failure: refines an installation that is all or nothing |
| Deadlines.DeadlineService.CheckFrames | src/net/auth_service_deadline.c:132-165 | refines the model's frame update |
| Deadlines.DeadlineService.GuardClient | src/net/auth_service_deadline.c:88-114 | refines the model's guard: expiry before anything else, then a lost session |
| Deadlines.DeadlineService.HandleExpired | src/net/auth_service_deadline.c:174-191 | refines the model's expiry, stale notices ignored |
| LogFormat.LinesAreUnambiguous | src/base/log.c:179-214 | distinct valid records, timestamps or thread ids render to distinct lines |
| LogFormat.LineLayout | src/base/log.c:179-214 | every field stands behind its own label in the documented order |
| LogFormat.EscapeRoundTrip | src/base/log.c:110-133 | an independent reader of the escaped text gets back exactly the bytes logged |
| LogFormat.YearLength | src/base/log.c:135-149 | the month lengths add up to a calendar year, leap years included |
| LogFormat.OneLineFeed | src/base/log.c:110-214 | exactly one line feed, at the end; every other character is printable ASCII |
| LogFormat.LineAlwaysFits | src/base/log.c:243-245 | no valid record can exceed the line limit, so that limit never refuses one |
| LogFormat.StartsWithDateTime | src/base/log.c:135-214 | every line starts with a date-time of section 5.6 of RFC 3339 whose digits are the timestamp's fields |
| LogWriter.Writer.Append | src/base/log.c:62-75 | counts or copies, and an overflowing count stops everything after it |
| LogWriter.Writer.AppendNumber | src/base/log.c:85-100 | exactly the padded decimal is appended, measured and written alike |
| LogWriter.Writer.AppendSpan | src/base/log.c:110-133 | exactly the quoted and escaped span is appended, measured and written alike |
| LogWriter.VerdictExact | src/base/log.c:219-236 | which arguments are refused, and how, with every limit spelled out |
| LogWriter.Format | src/base/log.c:216-261 | succeeds exactly when the arguments are valid and line and terminator fit; then the buffer starts with the line, otherwise it is untouched |
| LogSinkModel.WriteAllBounds | src/base/log.c:673-688 | the write loop ends whatever the kernel does, within seventeen calls per byte, and succeeds exactly when the whole line is out |
| LogSinkModel.WriteAllExact | src/base/log.c:673-688 | on success the calls together accepted exactly the line |
| LogSinkModel.WriteAllFailure | src/base/log.c:673-688 | a line is given up only for an error, an impossible count or seventeen interruptions in a row |
| LogSinkModel.FileGetsLine | src/base/log.c:698-838 | a line that fits is appended; one that does not goes to a new file with the old one archived whole; a failed rotation writes nothing |
| LogSinkModel.SinksAreIndependent | src/base/log.c:825-852 | a broken file is given up for good and standard error still gets the line |
| LogSinkModel.CreateExact | src/base/log.c:512-609 | a logger comes into being exactly when options and system allow, with exactly the sinks asked for |
| LogSinkModel.WritesStayInBounds | src/base/log.c:698-865 | for every run and failure no write takes the active file past its maximum; a failed sink and an archived file are never written again |
| LogSinkModel.ClosedExactlyOnce | src/base/log.c:496-665 | each descriptor obtained is held or has been closed once; without a logger each was closed exactly once |
| LogSinks.WriteLine | src/base/log.c:673-688 | the loop with its retry counter computes the specified write |
| LogSinks.LogSystem.PrepareFile | src/base/log.c:698-775 | refines the model's check and rotation, descriptor handover included |
| LogSinks.LogSystem.CreateLogger | src/base/log.c:512-609 | refines the model's creation with rollback |
| ConfigModel.DecimalExact | src/base/config.c:356-391 | Overflow exactly when the digits read are worth more than 64 bits hold, a syntax error exactly for a non-digit before that, otherwise the value |
| ConfigModel.DecimalRoundTrip | src/base/config.c:356-391 | what the log formatter prints as a number is read back as that number |
| ConfigModel.UnitsExact | src/base/config.c:492-627 | sizes and durations are digits times the unit, Overflow exactly when the true product exceeds 64 bits |
| ConfigModel.AddressesAreRfc3986 | src/base/config.c:665-708 | accepted addresses are exactly the IPv4address strings of section 3.2.2 of RFC 3986 |
| ConfigModel.InterpretExact | src/base/config.c:1038-1120 | address, directory and flag fields take exactly these texts |
| ConfigModel.ValueRefused | src/base/config.c:1043-1060 | empty, overlong and unprintable values are refused for every field alike |
| ConfigModel.LineExact | src/base/config.c:1270-1348 | a line says nothing, sets a field or is refused for exactly these reasons |
| ConfigModel.AssignKeepsValid | src/base/config.c:1038-1203 | every accepted assignment keeps a valid configuration valid |
| ConfigModel.DefaultsValid | src/base/config.c:1361-1381 | the built-in defaults pass the same check as any configuration |
| ConfigModel.AcceptedIff | src/base/config.c:1270-1358 | lines are accepted exactly when each is sound by itself and no field is set twice |
| ConfigModel.AcceptedReads | src/base/config.c:1270-1358 | each field has what the lines say about it, or what the base had |
| ConfigModel.RejectionNamesFirst | src/base/config.c:1509-1535 | a rejection names the first wrong line, counting from one, and why it is wrong |
| ConfigModel.TextRefused | src/base/config.c:1493-1502 | an invalid base, an overlong text or too many entries are refused before any line |
| ConfigModel.PermutedTextsAgree | src/base/config.c:1481-1545 | texts made of the same lines in any order are accepted alike and give the same configuration |
| ConfigModel.FinalCheckNeverRefuses | src/base/config.c:1384-1545 | the check after the last line cannot fail, and what is accepted is valid |
| ConfigModel.LinesRoundTrip | src/base/config.c:1509-1535 | lines written out with line feeds are split into the same lines |
| ConfigModel.CrlfRoundTrip | src/base/config.c:1509-1525 | lines ended by carriage return and line feed are the same lines |
| ConfigRoundTrip.BlanksDoNotMatter | src/base/config.c:1291-1345 | a setting reads the same however many blanks surround its parts |
| ConfigRoundTrip.CommentsSayNothing | src/base/config.c:1291-1301 | comments and blank lines say nothing |
| ConfigRoundTrip.UnitsSpelledOut | src/base/config.c:492-627 | each unit multiplies by its own factor, exactly up to 64 bits |
| ConfigRoundTrip.RangesSpelledOut | src/base/config.c:1123-1175 | each numeric field takes exactly its range |
| ConfigRoundTrip.TextReadBack | src/base/config.c:1481-1545 | any valid configuration written out as text is read back as itself but for blanks at the end of its directories |
| ConfigRoundTrip.TextRoundTrip | src/base/config.c:1481-1545 | the round trip is exact if and only if no directory ends in a blank |
| ConfigRoundTrip.EnvironmentReadBack | src/base/config.c:1548-1629 | the same through environment entries |
| ConfigModel.EnvironmentOverrides | src/base/config.c:1548-1629 | the environment overrides exactly the fields it names and leaves a valid configuration |
| ConfigParsers.TrimSpan | src/base/config.c:194-208 | the two scanning loops remove exactly the blanks at both ends |
| ConfigParsers.ParseDecimal | src/base/config.c:356-391 | the digit loop computes the specified decimal |
| ConfigParsers.CheckIpv4 | src/base/config.c:665-708 | the scanning loops decide the specified address check |
| ConfigParsers.ParseLine | src/base/config.c:1270-1358 | one line against candidate and seen fields, as specified |
| ConfigParsers.ParseConfigText | src/base/config.c:1481-1545 | the accepted configuration is published; any failure leaves the output unchanged |
| ConfigParsers.ApplyEntries | src/base/config.c:1548-1629 | the same for environment entries |

## Where code and documentation differ

- `include/vireo/net/auth_request_rejection.h` lists the status mapping without the session-check
  stage; the code maps that stage separately (`src/net/auth_request_rejection.c:35-39`), and
  `HeadModel.StatusExact` follows the code.
- The line limit of the log formatter and the Internal branches of the connection pool are guards that
  can never trigger on valid objects (`LogFormat.LineAlwaysFits`,
  `ConnectionPoolModel.InspectNeverInternal`, `ConnectionPoolModel.EnterAgrees`).
- A directory that ends in a blank is a valid configuration but cannot be written in a text or an
  environment entry: trimming removes the blank (`ConfigRoundTrip.TextRoundTrip`).
- A recovery whose checks fail reports no step and so forgets how far it had come
  (`AsyncModel.RefusedStaysRefused`); the caller has to remember the step itself.

## Left out

- TLS: every TLS branch of `src/net/connection.c`, TLS qualification before an enqueue and TLS errors; only raw transport is modelled and qualification is one answer of the environment.
- The header codec, CRC32C, timer wheel, event loop, in-flight store, thread pool and random source: uninterpreted functions or answers under their stated contracts.
- NULL arguments, `errno` preservation, diagnostic stage and error records, allocator hooks, SIGPIPE masking and secure clearing: one-branch facts.
- Callback re-entrancy (`callback_active`), `vireo_connection_forget_destroyed_loop`, peer queries and object destruction other than the logger's: only easy members.
- Option checks of the auth head, async head and consumer (distinct operation numbers, positive budgets): fixed by the service at start-up.
- A codec that answers `Internal` inside a frame peek: the codec is a total function here.
- `size_t` is 64 bits wide; other widths are not modelled.
- PoolModel.SizePool: the control block and slot record sizes (136 and 24 bytes) are those of a 64-bit ABI.
- ConnectionPools.ConnectionIndex.AdoptConnection: the branches for an inconsistent slot are proved unreachable in the model (`ConnectionPoolModel.EnterAgrees`) and not repeated in the method.
- ConnectionPoolModel.GiveBackRefines: a connection destructor that reports success and keeps the connection is excluded, as its contract says.
- DeadlineModel.FrameDeadlineNeverExtended: after a failed call for a client nothing is claimed about its frame deadline, since the service then closes the client or stops.
- DeadlineModel.ArmedTimerIsEarliest: the wheel is a map from handle to deadline; tick rounding and delivery order are not modelled.
- Deadline timeout counters, `vireo_auth_service_enable_deadlines` and the pump's budgets: bookkeeping.
- HeadModel.Turn: the REMOVE, MOVE, MKDIR, LIST, ROOT and STAT branches, reservations of the directory features, audit offers and the quiescing flag of `application` are not modelled.
- LogSinkModel.Emit: formatting, clock and lock failures happen before any sink is touched and are left out; file attributes are one answer of the environment, and the log directory is the logger's own.
- ConfigModel.ParseText: text is a sequence of characters; issue codes are kept, field and column diagnostics are not. File loading is not modelled.
- LogWriter.Writer.RenderAll: the fields are a table walked by a loop where the source has one call per field.
- Orchestration rounds, admission, the worker runtimes, start-up and signal handling: mostly sequencing.
