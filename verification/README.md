# A verified model of the HTTP runtime and the exporters

This project models the stateful parts of the HTTP client and of the observability
exporters, and one codec, and proves what they promise over every run. It covers
the hashed timing wheel, the permit pool, the life of a request over that pool, the
effect interpreter and its copy in request batching, request batching itself, the
export queue with its retry loop and span bookkeeping, and the trace context headers.

Each stateful component appears twice. A `...Spec` module (or `HttpRequests`,
`EffectRunners`, `SpanExport`) gives the operations as functions on values, the
invariant, and the theorems over every sequence of events. A class repeats the source's
own form, with fields changed in place, linked entries and loops, and each of its
methods is proved equal to the function on values. So the theorems hold of the
imperative code. The interpreter is the exception. Its source recurses over closures,
and a cancellation or an answer may come in the middle of a call, so `EffectRun` keeps
the call stack of the host as one more field and makes one step of it at a time. Only
`done`, `currentCancel` and the order of their updates are those of the source, and what
the interpreter computes rests on `Adequacy`, which relates the steps to the recursion.

| file | content |
|---|---|
| `Prelude.dfy`, `JsString.dfy` | stock definitions; `trim`, `split`, `join`, lower case |
| `TimerWheelSpec.dfy`, `TimerWheelEffects.dfy`, `TimerWheelTiming.dfy`, `SlotMask.dfy`, `TimerWheel.dfy` | the wheel on values, what each call means for the timers, when exactly they run, its bit arithmetic, and the intrusive doubly linked lists |
| `HttpPoolSpec.dfy`, `HttpPoolOwnership.dfy`, `HttpPool.dfy` | the pool of one key, who owns what after a step, and the class with one state per key |
| `HttpStats.dfy`, `HttpRequests.dfy`, `HttpStepEffects.dfy`, `HttpRequestState.dfy`, `HttpDirectRequest.dfy` | counters, the protocol of one request, what each of its steps reports and changes, and requests over and beside the pool in place |
| `HttpClientRuns.dfy`, `HttpLeakExample.dfy` | all requests and all keys together, and the run that leaks a permit |
| `Effect.dfy`, `EffectLaws.dfy`, `EffectMachine.dfy`, `EffectRunner.dfy` | causes and the meaning of effects, that meaning as rules, the interpreter with an explicit stack, and the two runners with callbacks and cancellers |
| `BatchingSpec.dfy`, `BatchingSafety.dfy`, `BatchingEffects.dfy`, `Batching.dfy` | request batching on values, its invariant, what each event does to the requests, and the class |
| `ExportSpec.dfy`, `ExportPipeline.dfy`, `SpanExport.dfy` | the export queue, the flush and retry loops, and span bookkeeping |
| `HexIds.dfy`, `Traceparent.dfy`, `PercentCoding.dfy`, `Baggage.dfy`, `TraceHeaders.dfy` | ids, `traceparent`, percent coding over UTF-8, `baggage`, and injecting and extracting |

The theorems over runs start from any state that has the invariant; `InitKeeps`,
`StartKeeps`, `FreshKeeps` and the two named `EmptyKeeps` say that the fresh states have
it. An event that is not possible where it stands changes nothing, so they hold of every
sequence of events.

How the parts of the host appear:

- Time is a real number passed to each step and never runs backwards. A timeout runs no
  earlier than its delay after it was set.
- Callbacks, grants, answers and cancellations are entries of a log. The host's
  asynchrony is the order of events, which is arbitrary.
- A signal becoming aborted and its listener running are two steps, because the pool
  looks at the signal before the listener may have run.
- Functions stored in an effect are named by labels. A world says what each call does,
  depending on how many calls were made before, so nothing is assumed about purity.
- Strings are sequences of characters, that is, well-formed UTF-16. Lower case is ASCII
  lower case: no other character has a lower-case form among the letters of the header
  names and of hexadecimal digits.

## What the code does not promise

These properties are false of the code. Each has a lemma with a run or an input on which
it fails, and one with the exact condition under which the code meets it.

- A timer can run later than one tick after its deadline (`LateByMoreThanATick`): the
  slot is counted from the current tick, which may have begun long ago, so its only
  visit may come just before the deadline and the next one a rotation later. The
  property test `src/http/__tests__/timerWheel.property.test.ts` states the stronger
  bound. If ticks come on time, the tick at which a timer runs is known when it is
  scheduled (`RunsExactlyAt`), and with it whether the bound holds
  (`CoarseWithinATickIff`, `FineWithinATickIff`). In the usual case the timer is less
  than a tick late iff the part of the running tick already gone is no more than what
  rounding its timeout up to whole ticks has added (`RunsThenOrARotationLater`); on an
  idle wheel, which is what those tests try, it always is (`IdleWheelIsPrompt`).
  Whatever the ticks do, `CoarseLateness` holds.
- The constructor of the wheel may not return (`NeverReturns`), because `<<=` works on 32
  bits, or may throw. `ConstructionIff` says exactly when, for every slot count that a
  double can hold. Above 2^53 the subtraction in its test is rounded, so that there even
  a count with one bit among its lower 32 can loop for ever (`RoundedAway`).
- A permit is lost when a grant is already posted, the external signal aborts, and the
  transport then started suspends although its signal is already aborted
  (`LeaksAPermit`). `QuietIffNoneStranded` says by the events of the run exactly when
  every permit comes back. Nor does such a request ever call the canceller of its
  transport. Every other finished request whose transport gave a canceller and never
  answered has called it exactly once (`FinishedHoldNothing`).
- A runner's canceller calls the stored canceller of the wrong Async when an Async
  completed while its register call was on the stack (`StaleCanceller`). And it calls
  none when it comes while the register call of the Async in flight is on the stack: the
  canceller which that call then returns is stored on a stopped runner and never called
  (`CancelDuringRegister`). `CancelReachesInFlight` gives the exact condition at every
  moment of every run. If no Async completes synchronously, it is that no call is on the
  stack (`CancelInvokesInFlightOnce`).
- The copy of the runner in batching can run a user function after cancellation
  (`BatchResumesAfterStop`). `BatchCallsAfterStop` says how many, and that there is none
  iff no late answer is taken by a continuation; `TakenIff` says which answers are.
- A group whose last member is cancelled while a newer batch of the same key is pending
  keeps running for nobody (`StrandingHappens`, `NewerBatchStrands`, `StrandedForever`).
  `CancelStopsGroupIff` gives the exact condition.
- A baggage key `__proto__` is lost on parsing (`ProtoIsLost`), the only valid key that is
  (`RoundTripIff`). A stale `tracestate` header survives injecting a context without
  one, even with `overwrite` (`StaleStateComesBack`, `StaleTraceState`).

## Model

| member | source | states |
|---|---|---|
| TimerWheels.TimerWheel.Create | src/http/timerWheel.ts:49-74 | for every configured slot count, fractional and huge ones too: it throws iff making the array throws, and otherwise gives the fresh wheel |
| TimerWheels.TimerWheel.constructor | src/http/timerWheel.ts:49-74 | the fresh wheel: clamped tick lengths, the least power of two of slots, empty lists |
| TimerWheels.TimerWheel.Schedule | src/http/timerWheel.ts:82-164 | pushing an entry on the slot or fine list of the heap is the schedule of the abstract wheel, and keeps lists acyclic with mutually inverse links |
| TimerWheels.TimerWheel.Cancel | src/http/timerWheel.ts:116-124 | unlinking a pending entry, and nothing for one that ran, was cancelled or destroyed |
| TimerWheels.TimerWheel.Tick | src/http/timerWheel.ts:167-192 | the loop over one slot with its saved next removes and runs exactly the due entries, in list order |
| TimerWheels.TimerWheel.FineTick | src/http/timerWheel.ts:195-219 | the same for the fine list |
| TimerWheels.TimerWheel.Destroy | src/http/timerWheel.ts:252-288 | both loops leave every list empty and every entry dead |
| TimerWheels.TimerWheel.Unlink | src/http/timerWheel.ts:291-304 | removing one entry from its list in constant time removes that number and keeps the rest linked |
| SlotMask.RoundSlots | src/http/timerWheel.ts:60-70 | the slot count is the least power of two that is at least one and at least the configured count, or making the array throws |
| SlotMask.RoundUp | src/http/timerWheel.ts:64-66 | the doubling loop reaches the least power of two at or above its target |
| SlotMask.RoundingNeededIff | src/http/timerWheel.ts:62 | for every double, which counts the test on 32 bits lets through: from one up to 2^53 those whose 32 bits are zero or a power of two, above it, where subtracting one is rounded, those whose 32 bits are zero, or two while below 2^54 |
| SlotMask.ConstructionIff | src/http/timerWheel.ts:60-70 | exactly which doubles make the constructor loop for ever, and which make it throw |
| SlotMask.RoundedAway | src/http/timerWheel.ts:62-66 | 2^53 + 4 has one bit among its lower 32, and loops for ever |
| SlotMask.NeverReturns | src/http/timerWheel.ts:64-66 | every count strictly between 2^30 and 2^31 makes it loop for ever |
| SlotMask.RoundingEndsIff | src/http/timerWheel.ts:64-67 | the doubling loop reaches a target iff the target is at most 2^30 |
| SlotMask.MaskIsModulo | src/http/timerWheel.ts:169 | masking with a power of two less one is the remainder |
| SlotMask.PowerOfTwoTest | src/http/timerWheel.ts:62 | the bit test holds of the powers of two and nothing else |
| TimerWheelSpec.StepKeeps | src/http/timerWheel.ts:90-288 | every operation keeps the whole invariant: lists without repetition, each entry in its slot, counters, log, punctuality |
| TimerWheelSpec.Conservation | src/http/timerWheel.ts:116-288 | in every reachable state scheduled is fired plus cancelled plus destroyed plus pending, and a timer is armed iff its count is positive |
| TimerWheelSpec.TickFiresExactly | src/http/timerWheel.ts:167-192 | a tick settles and logs a timer iff it is pending in the slot reached and its deadline has come |
| TimerWheelSpec.FineTickFiresExactly | src/http/timerWheel.ts:195-219 | the same for a fine tick |
| TimerWheelSpec.SettledForGood | src/http/timerWheel.ts:116-288 | over any run no timer runs twice, or after it was cancelled or destroyed |
| TimerWheelEffects.ScheduleAdds | src/http/timerWheel.ts:90-164 | scheduling adds one pending timer with the deadline asked for to the list it belongs to, starts its timeout, and touches no other timer |
| TimerWheelEffects.CancelSettles | src/http/timerWheel.ts:116-159 | cancelling a pending timer settles it as cancelled, takes it off its list and out of its count, and touches no other; cancelling a settled one does nothing |
| TimerWheelEffects.CancelledNeverRuns | src/http/timerWheel.ts:116-219 | over any later run a timer that was cancelled while pending stays cancelled and its callback never runs |
| TimerWheelEffects.DestroySettles | src/http/timerWheel.ts:252-288 | destroying settles every pending timer and no other, empties all lists and stops both timeouts |
| TimerWheelEffects.DestroyedNeverRuns | src/http/timerWheel.ts:167-288 | over any later run none of the timers it settled runs |
| TimerWheelSpec.CoarseLateness | src/http/timerWheel.ts:90-192 | a coarse timer never runs early, and runs by the tick numbered its own ticks plus the slots after scheduling |
| TimerWheelSpec.FineLateness | src/http/timerWheel.ts:130-219 | a fine timer never runs early, and runs by the fine tick after those its timeout asks for |
| TimerWheelSpec.MissedTurnWaitsARotation | src/http/timerWheel.ts:167-192 | an entry left behind in the slot just visited runs no earlier than a full rotation later |
| TimerWheelSpec.LateByMoreThanATick | src/http/timerWheel.ts:90-192 | a run with punctual ticks in which a callback comes 19 ms after its deadline with 10 ms ticks |
| TimerWheelTiming.RunsExactlyAt | src/http/timerWheel.ts:90-192 | in every run whose ticks are on time, a coarse timer that runs does so at the tick and the time that follow from its scheduling, and is not pending after that tick |
| TimerWheelTiming.FirstVisitIsLeast | src/http/timerWheel.ts:92-176 | that tick is the first one that visits the slot of the timer and comes at or after its deadline |
| TimerWheelTiming.CoarseWithinATickIff | src/http/timerWheel.ts:90-192 | a coarse timer runs less than a tick after its deadline, or no more than one, iff a condition on the slot and the arming time known at scheduling |
| TimerWheelTiming.RunsThenOrARotationLater | src/http/timerWheel.ts:90-192 | with a positive timeout on a wheel armed no later than now: at the tick the timeout asks for iff that one is due, otherwise exactly a rotation later; and less than a tick late iff now less the arming time is at most what rounding has added |
| TimerWheelTiming.IdleWheelIsPrompt | src/http/timerWheel.ts:90-192 | on a wheel with nothing pending, always less than a tick late |
| TimerWheelTiming.FineWithinATickIff | src/http/timerWheel.ts:130-219 | a fine timer runs at the first fine tick that is due, and within one of its deadline iff the fine list was armed no later than the deadline |
| HttpPools.PoolState.TryAcquireSync | src/http/pool.ts:163-174 | the state and result of the synchronous acquire |
| HttpPools.PoolState.Acquire | src/http/pool.ts:213-252 | grant, rejection, abort or enqueueing, with the listener and the timer attached |
| HttpPools.PoolState.Release | src/http/pool.ts:312-329 | the lease counts once, and the queue is drained |
| HttpPools.PoolState.Drain | src/http/pool.ts:331-344 | the loop serves or turns away waiters from the front as the specification does |
| HttpPools.PoolState.AbortListener | src/http/pool.ts:233-238 | the abort listener of a waiter: clean up, leave the queue, count, reject |
| HttpPools.PoolState.QueueTimeout | src/http/pool.ts:242-247 | the queue timeout of a waiter |
| HttpPools.PoolState.RemoveWaiter | src/http/pool.ts:403-406 | the splice removes that waiter and keeps the order of the rest |
| HttpPools.ClampInt | src/http/pool.ts:84-87 | a configured bound is rounded down, raised to the minimum, and replaced by the fallback when absent or not finite |
| HttpPools.NormalKeyIs | src/http/pool.ts:295 | a key is known by its first 160 characters once the blanks around it are gone, a blank one as `global` |
| HttpPools.LawfulStep | src/http/pool.ts:163-406 | an event of one key keeps the invariant of every key |
| HttpPools.HttpConcurrencyPool.Release | src/http/pool.ts:312-329 | a release changes the state of its own key only |
| HttpPools.HttpConcurrencyPool.TryAcquireSync | src/http/pool.ts:163-174 | the synchronous acquire changes the state of its own key only |
| HttpPools.HttpConcurrencyPool.Acquire | src/http/pool.ts:213-252 | the asynchronous acquire changes the state of its own key only |
| HttpPools.HttpConcurrencyPool.GetState | src/http/pool.ts:293-310 | a new key starts with the empty state and no other key changes |
| HttpPoolSpec.PoolSafety | src/http/pool.ts:163-344 | in every reachable state of a key: capacity and queue bounds, no free slot while somebody waits, running is acquired minus released and the number of open leases, every waiter is granted, aborted, timed out or queued, and whoever waits has its listener, and its timer where timeouts are configured |
| HttpPoolSpec.PoolFairness | src/http/pool.ts:228-344 | grants follow arrival: an earlier waiter is never still queued, and its lease is older |
| HttpPoolSpec.SyncNeverOvertakes | src/http/pool.ts:163-174 | the synchronous acquire succeeds only while nobody waits |
| HttpPoolSpec.AcquireAnswers | src/http/pool.ts:213-252 | which answer an acquire gives, exactly when, and all it changes: a lease, a place at the end of the queue with listener and timer, a counted rejection, or nothing |
| HttpPoolSpec.SyncAnswers | src/http/pool.ts:163-174 | the synchronous acquire gives a lease exactly when the asynchronous one would at once, and changes the same |
| HttpPoolSpec.LeavingAnswers | src/http/pool.ts:233-247 | the listener turns its waiter away as aborted and the timer as timed out, each in its own counter, and nothing else changes |
| HttpPoolSpec.SignalMarks | src/http/pool.ts:239-336 | a signal that becomes aborted is seen at its own waiter, which stays queued until its listener runs or its turn comes |
| HttpPoolSpec.ReleaseCountsOnce | src/http/pool.ts:316-328 | the first release of a lease is counted, and a second does nothing |
| HttpPoolSpec.ReleaseKeeps | src/http/pool.ts:312-344 | releasing keeps the invariant, and the guard on running never bites |
| HttpPoolSpec.ReleaseServesFirstLive | src/http/pool.ts:331-344 | a freed slot goes to the first waiter whose signal is live, those ahead are turned away, the rest stay |
| HttpPoolSpec.SettledOnce | src/http/pool.ts:228-344 | over any run a waiter settles at most once and a released lease stays released |
| HttpPoolOwnership.ReleaseEvolves | src/http/pool.ts:312-344 | a release closes its own lease only, and a new lease is granted only to a waiter that was queued |
| HttpStatistics.FinishedKeepsBalance | src/http/client.ts:260-297 | every outcome keeps started equal to the sum of the outcomes and in flight, and pool errors within failures |
| HttpStatistics.FinishedCounts | src/http/client.ts:260-297 | which counters go up by one for which outcome, the others unchanged, and in flight down |
| HttpStatistics.HttpStats.OnFinish | src/http/client.ts:260-297 | the counters after an outcome |
| HttpRequestState.PoolRequestState.Register | src/http/client.ts:785-914 | the body of register: counting, the pre-aborted signal, the acquire and the first start of the transport |
| HttpRequestState.PoolRequestState.AcquirePermit | src/http/client.ts:870-899 | the synchronous acquire, and otherwise the promise of the asynchronous one |
| HttpRequestState.PoolRequestState.Finish | src/http/client.ts:645-666 | the guard on done, the clean-up and the one callback |
| HttpRequestState.PoolRequestState.RunTransportInner | src/http/client.ts:699-756 | the transport answers at once or suspends; the lease is released before the finish |
| HttpRequestState.PoolRequestState.OnTimeout | src/http/client.ts:822-832 | release, finish, abort, cancel, in that order |
| HttpRequestState.PoolRequestState.AbortFromPrevious | src/http/client.ts:683-697 | abort, eager release, and a queued microtask with the captured canceller |
| HttpRequestState.PoolRequestState.OnGrant | src/http/client.ts:877-882 | a granted lease is given back when done and otherwise runs the transport |
| HttpRequestState.PoolRequestState.OnReject | src/http/client.ts:883-886 | a refused promise fails the request unless it is done |
| HttpRequestState.PoolRequestState.OnCompletion | src/http/client.ts:718-728 | the completion callback of the transport |
| HttpRequestState.PoolRequestState.RunAbortTask | src/http/client.ts:693-696 | the queued microtask finishes the request and calls the captured canceller |
| HttpRequestState.PoolRequestState.Cancel | src/http/client.ts:889-897 | the canceller of the caller |
| HttpDirectRequest.DirectRequestState.Register | src/http/client.ts:403-481 | a request beside the pool makes the same first step as one over the pool without a key |
| HttpDirectRequest.DirectRequestState.OnCompletion | src/http/client.ts:468-476 | its completion callback |
| HttpDirectRequest.DirectRequestState.AbortFromPrevious | src/http/client.ts:444-453 | its external abort |
| HttpDirectRequest.DirectRequestState.RunAbortTask | src/http/client.ts:449-452 | its queued microtask |
| HttpDirectRequest.DirectRequestState.Cancel | src/http/client.ts:483-490 | its canceller |
| HttpRequests.StepSound | src/http/client.ts:645-913 | every step of a request keeps it sound and changes the pool only as its owner may |
| HttpStepEffects.StepReports | src/http/client.ts:645-914 | what each step calls the callback of an unfinished request with, once, and that it is counted; a step of a finished request calls and counts nothing |
| HttpStepEffects.StepContinues | src/http/client.ts:645-914 | what each step does to the controller, the timer, the listener, the wait, the transport, its canceller and the microtask |
| HttpStepEffects.RegisterReports | src/http/client.ts:785-914 | what becomes of a new request at once: counted, armed, and started, waiting, refused or only to be aborted, exactly when |
| HttpStepEffects.AnsweredHoldsNothing | src/http/client.ts:699-715 | a transport that answers while it is started leaves no permit behind |
| HttpRequests.LateOnlyByLateStart | src/http/client.ts:877-882 | only a transport started on an aborted signal that suspends makes a request late |
| HttpRequests.StrandingStep | src/http/client.ts:693-696 | the one step that strands a lease is the abort microtask of an unfinished request whose transport was started late; that transport has then not answered and holds the lease |
| HttpClientRuns.EventKeeps | src/http/client.ts:774-915 | every event of many requests over many keys keeps the whole invariant: leases and queue places have distinct owners and every open one has an owner |
| HttpClientRuns.FinishedHoldNothing | src/http/client.ts:645-757 | in every run a request's callback runs once iff it is done, and a done request holds an open permit iff it is stranded; its transport's canceller is called at most once, exactly once when the transport never answered, unless the request is stranded, and then never |
| HttpClientRuns.ClientAccounting | src/http/client.ts:255-297 | in every run started is in flight plus succeeded, failed, aborted and timed out; in flight counts the unfinished requests, and every other counter those whose callback got an outcome of its kind |
| HttpClientRuns.StrandedIffAbandoned | src/http/client.ts:683-882 | a request ends stranded iff in the run its transport was started on an aborted signal and suspended, and its abort microtask came before it was finished |
| HttpClientRuns.QuietIffNoneStranded | src/http/client.ts:683-913 | once nothing is left to run, a key has an empty queue, and no running permit iff no request of the key was abandoned in that way |
| HttpClientRuns.PromptRunsGiveEverythingBack | src/http/client.ts:645-913 | when transports answer an already aborted signal at once, no key has a running permit once everything is quiet |
| HttpLeakExample.LeaksAPermit | src/http/client.ts:683-882 | a run of six events that leaves a running permit with nothing left to run |
| Effects.CauseHelpers | src/core/types/effect.ts:147-214 | the tests on causes and the search for the first failure, in terms of the leaves from left to right |
| Effects.FailureOnlyMeansEveryLeaf | src/core/types/effect.ts:220-222 | failure-only holds iff every leaf is a failure, and then the first failure exists and is the leftmost |
| Effects.MeaningIsUnique | src/http/effectRunner.ts:22-98 | an effect has at most one meaning |
| EffectLaws.PureRules | src/http/effectRunner.ts:29-88 | a success and a failure end as such without a call, and a fork ends at once |
| EffectLaws.SyncRule | src/http/effectRunner.ts:35-41 | a thunk ends with its value, or with what it throws as a defect |
| EffectLaws.AsyncRule | src/http/effectRunner.ts:42-50 | an Async ends with its answer, if ever; what register throws is not caught |
| EffectLaws.FlatMapRule | src/http/effectRunner.ts:51-64 | a FlatMap ends as its continuation does iff its first effect succeeds, and otherwise as its first effect |
| EffectLaws.FoldRule | src/http/effectRunner.ts:65-85 | a Fold calls the handler with the leftmost error iff every leaf of the cause is a failure, the other continuation on success, and otherwise ends as its first effect |
| EffectLaws.WrapperRules | src/http/effectRunner.ts:89-96 | the wrappers change nothing, and a mask is what its body returns |
| EffectMachines.Adequacy | src/http/effectRunner.ts:22-100 | the interpreter finishes with an outcome iff that outcome is the meaning of the effect, for every effect and every behaviour of the user functions, throws included |
| EffectRunners.RunnersAreAdequate | src/http/effectRunner.ts:15-100 | what an uncancelled run of either runner delivers or throws is the meaning, once at most, and a run with nothing left to do has delivered it |
| EffectRunners.RunsEnd | src/http/effectRunner.ts:22-100 | a run of an effect that has a meaning is bounded in length |
| EffectRunners.RunnersAgree | src/http/batching.ts:231-306 | both runners deliver the same exit, whatever order calls and answers came in |
| EffectRunners.OneCallback | src/http/effectRunner.ts:15-20 | with callbacks repeated and cancellers called at any time, the top callback runs at most once, exactly once when stopped, and at most one canceller is invoked |
| EffectRunners.NothingRunsAfterStop | src/http/effectRunner.ts:26-70 | a stopped runner calls no user function and no canceller |
| EffectRunners.CancelDeliversInterrupt | src/http/effectRunner.ts:102-112 | cancelling delivers the interrupt exactly once, whatever the canceller does |
| EffectRunners.CancelCallsStored | src/http/effectRunner.ts:102-112 | cancelling at any moment of a run that has delivered nothing calls the stored canceller, if any, once, and nothing later calls another |
| EffectRunners.CancelReachesInFlight | src/http/effectRunner.ts:42-112 | at every moment with an Async in flight, cancelling calls exactly its canceller, then and ever after, iff it has one and the stack has just come back to where it was below its register call; when idle, iff it was not registered inside another register call |
| EffectRunners.CancelInvokesInFlightOnce | src/http/effectRunner.ts:102-112 | if no Async completes synchronously, cancelling at any moment before the end calls the in-flight canceller exactly once if its register call has returned one, and no canceller otherwise |
| EffectRunners.CancelDuringRegister | src/http/effectRunner.ts:42-50 | a run without synchronous completion in which a cancellation while register runs misses the canceller it returns, for ever |
| EffectRunners.StaleCanceller | src/http/effectRunner.ts:43-48 | a run in which the canceller of a completed Async is invoked instead |
| EffectRunners.BatchNeverCallsBackAfterStop | src/http/batching.ts:231-312 | once cancelled, the runner of batching registers nothing, calls no canceller and never calls back |
| EffectRunners.BatchResumesAfterStop | src/http/batching.ts:253-273 | a run that registers, is cancelled and is then answered, in which a user function runs after the cancellation |
| EffectRunners.BatchDeliveryAfterStop | src/http/batching.ts:261-291 | a continuation called after cancellation runs to its end and makes one user call iff a frame takes the exit, none otherwise, and changes nothing else |
| EffectRunners.BatchCallsAfterStop | src/http/batching.ts:261-312 | over any run after cancellation the user calls are those owed then and one for each late answer taken; none iff nothing was owed and no late answer is taken |
| EffectRunners.TakenIff | src/http/batching.ts:261-285 | a success is taken iff there is a continuation, a failure iff every leaf of its cause is a failure and there is a handler |
| EffectRunners.EffectRun.Advance | src/http/effectRunner.ts:22-98 | one step of the call on top of the stack, with done and currentCancel changed in place |
| EffectRunners.EffectRun.OnAnswer | src/http/effectRunner.ts:43-47 | a callback clears the stored canceller and resumes only while not done |
| EffectRunners.EffectRun.Cancel | src/http/effectRunner.ts:102-112 | the returned canceller up to its call of the stored one |
| EffectRunners.EffectRun.OnEvent | src/http/effectRunner.ts:7-113 | every event does in place what the step on values does, so every theorem over runs is about these variables |
| BatchingSpec.EachGetsItsOwn | src/http/batching.ts:175-187 | the completing loop settles each member with the reply at its position and touches nobody else |
| Batching.RequestBatcher.Register | src/http/batching.ts:83-106 | the batch and timer tables after a request enters |
| Batching.RequestBatcher.OnTimer | src/http/batching.ts:92-141 | the tables after a timer fires |
| Batching.RequestBatcher.Flush | src/http/batching.ts:134-154 | filter, encode, and the new group or the failed members |
| Batching.RequestBatcher.OnAnswer | src/http/batching.ts:157-178 | decode and completion, or one error for all |
| Batching.RequestBatcher.CompleteAll | src/http/batching.ts:175-187 | the loop over a group completes each member at its position |
| Batching.RequestBatcher.FailEntries | src/http/batching.ts:189-194 | the loop fails every unsettled member with one error |
| Batching.RequestBatcher.StopIfSettled | src/http/batching.ts:126-131 | the test over all members and the call of the downstream canceller |
| Batching.RequestBatcher.CancelEntry | src/http/batching.ts:108-132 | the tables after a cancellation, the early return included |
| BatchingSafety.StepKeeps | src/http/batching.ts:81-178 | every event keeps the invariant of entries, batches, groups and timers |
| BatchingSafety.EveryRequestHasOnePlace | src/http/batching.ts:81-187 | in every run a settled request has exactly one callback and no other has any; the unsettled are exactly those in a pending batch or active in a running group, in one only; in a running group settled means cancelled |
| BatchingSafety.GroupsInBounds | src/http/batching.ts:89-140 | flushed batches have 1 to maxBatchSize members, pending ones fewer and an armed timer, and a downstream canceller is called at most once and only when all members are settled |
| BatchingSafety.TimerFlushesItsBatch | src/http/batching.ts:91-143 | a firing timer flushes the batch that armed it, all of its members, in order |
| BatchingEffects.AnswersAreAligned | src/http/batching.ts:157-206 | the i-th encoded request gets the i-th decoded response unless cancelled; otherwise all unsettled members get one error, and which; nobody else hears of it |
| BatchingEffects.FlushSends | src/http/batching.ts:134-154 | a flush sends the whole batch of its key as the encoding of its requests in their order, or fails them all if encoding throws, and touches no other batch, timer or request |
| BatchingEffects.RegisterSendsWhenFull | src/http/batching.ts:81-106 | a request waits behind those of its key and the first starts the timer, until one fills the batch, which is then sent at once |
| BatchingEffects.CancelInterrupts | src/http/batching.ts:108-112 | cancelling interrupts an unsettled request, once, and does nothing to a settled one |
| BatchingEffects.CancelLeavesBatch | src/http/batching.ts:114-123 | a cancelled request leaves its batch, the others keep their order, and an empty batch is gone with its timer |
| BatchingEffects.EveryGroupSendsItsMembers | src/http/batching.ts:134-154 | in every run what a group sent is the encoding of its members' requests in their order |
| BatchingSafety.CancelStopsGroupIff | src/http/batching.ts:108-132 | downstream is cancelled iff the last unsettled member leaves and no newer batch of the key is pending |
| BatchingSafety.SettledForGood | src/http/batching.ts:183-187 | a settled request is never called back again |
| BatchingSafety.NewerBatchStrands | src/http/batching.ts:114-123 | cancelling the last member while a newer batch waits leaves its group running for nobody |
| BatchingSafety.StrandedForever | src/http/batching.ts:108-132 | nothing but its own answer ever ends such a group |
| BatchingSafety.StrandingHappens | src/http/batching.ts:114-123 | such a group is reachable |
| ExportPipelines.ExportPipeline.constructor | src/observability/exportPipeline.ts:71-77 | defaults, flooring and clamping of the tuning |
| ExportPipelines.ExportPipeline.Enqueue | src/observability/exportPipeline.ts:88-125 | the splices leave what the policy keeps, report what it drops, and say how many were accepted |
| ExportPipelines.ExportPipeline.Flush | src/observability/exportPipeline.ts:127-186 | the flush loop and its result, every batch exported by the retry loop while items arrive: numbers, attempts, the last response and the error |
| ExportPipelines.ExportPipeline.FlushBatch | src/observability/exportPipeline.ts:141-171 | one batch: taken from the front, and, as the retry loop succeeds or gives up, exported in order or put back in front of what arrived meanwhile |
| ExportPipelines.ExportPipeline.PutBack | src/observability/exportPipeline.ts:160-167 | a failed batch goes in front of what is queued |
| ExportPipelines.ExportWithRetry | src/observability/exportPipeline.ts:196-223 | the result is the first success within the attempts, or the last error; one sleep between attempts |
| ExportPipelines.DelaysDouble | src/observability/exportPipeline.ts:242-243 | delays start at the initial one and double up to the maximum |
| ExportPipelines.JitterIsBounded | src/observability/exportPipeline.ts:244-246 | jitter moves a delay by at most its ratio, up to rounding |
| ExportPipelines.JitterFollowsRandom | src/observability/exportPipeline.ts:242-247 | the delay is the nearest whole number to the point of its spread that the random number picks |
| ExportPipelines.RetrySettings | src/observability/exportPipeline.ts:204-207 | the defaults and bounds of the retry settings |
| ExportSpec.EveryRun | src/observability/exportPipeline.ts:81-171 | over every interleaving of producers and the flusher: offered is exported, dropped, in flight and queued as multisets; what is left is in offer order; the queue bounds hold |
| ExportSpec.OfferKeeps | src/observability/exportPipeline.ts:88-125 | an offer keeps conservation, order and bounds, also from an over-full queue |
| ExportSpec.OfferLeaves | src/observability/exportPipeline.ts:88-125 | nothing is dropped while all fits; on overflow drop-oldest leaves exactly the newest that fit and drop-newest the whole queue, filled up from the front of the offer; and what was dropped is the rest |
| ExportSpec.BeginTakes | src/observability/exportPipeline.ts:141 | a batch is the front of the queue, as long as a batch may be |
| ExportSpec.AcceptedItemsStay | src/observability/exportPipeline.ts:105-113 | under drop-newest an accepted item keeps its place until it is exported |
| ExportSpec.NewestItemsEnter | src/observability/exportPipeline.ts:115-124 | under drop-oldest the newest offered items, as many as fit, end the queue |
| ExportSpec.NothingTwice | src/observability/exportPipeline.ts:81-163 | distinct items are exported, dropped or waiting, each in one place and once |
| ExportSpec.FlushKeeps | src/observability/exportPipeline.ts:138-171 | a flush keeps the invariant and leaves nothing in flight |
| ExportSpec.QuietFlushDrains | src/observability/exportPipeline.ts:138-159 | with no arrivals, deadline or failure, a flush exports the whole queue in order |
| SpanExport.SpansExportedOnce | src/observability/setup.ts:299-362 | in every run the queued ids are those in the pipeline, no span is offered or exported twice, and exactly the exported or dropped spans are pruned |
| SpanExport.StepKeeps | src/observability/setup.ts:299-432 | every step of tracer, collector and flush keeps the bookkeeping invariant |
| SpanExport.CollectOffers | src/observability/setup.ts:301-352 | a collection offers every finished span that does not wait already, in order, and the tracer keeps all that was not dropped |
| SpanExport.ShippedForgets | src/observability/setup.ts:321-328 | an exported batch, and nothing else, leaves the tracer |
| SpanExport.NoSpanIsLost | src/observability/setup.ts:299-362 | in every run in which the tracer evicts nothing, every finished span is with the tracer, exported or dropped |
| SpanExport.TraceExport.Release | src/observability/setup.ts:321-338 | the loops over the two id sets and the pruning |
| SpanExport.TraceExport.Collect | src/observability/setup.ts:344-352 | marking and offering the pending spans, drops included |
| SpanExport.TraceExport.OnExported | src/observability/setup.ts:321-328 | the bookkeeping of an exported batch |
| SpanExport.TraceExport.Begin | src/observability/exportPipeline.ts:141 | the next batch is taken for export |
| SpanExport.TraceExport.OnFailed | src/observability/exportPipeline.ts:160-167 | a failed batch goes back and ends the flush |
| SpanExport.TraceExport.Flush | src/observability/setup.ts:422-432 | a flush called while one runs shares it |
| HexIds.NormalizedIsValid | src/observability/traceContext.ts:190-225 | for every string the id has the wanted length, is lower-case hexadecimal and not all zero |
| HexIds.NormalizeTwice | src/observability/traceContext.ts:190-195 | normalising twice is normalising once |
| HexIds.HexDigitsStay | src/observability/traceContext.ts:190-211 | a string of digits is cut to its first ones or filled up with zeros in front, and an all-zero id ends in 1 |
| HexIds.OthersAreIgnored | src/observability/traceContext.ts:191 | any character that is no digit makes no difference as long as there is a digit |
| HexIds.DigestParts | src/observability/traceContext.ts:213-225 | for ids without a digit, which digests follow one another |
| HexIds.DigestVectors | src/observability/traceContext.ts:214-220 | published test vectors of the 32-bit FNV-1a digest |
| HexIds.ComputeStableHex | src/observability/traceContext.ts:213-225 | the digest loop ends and computes the digest |
| HexIds.CheckAllZero | src/observability/traceContext.ts:183-188 | the loop finds whether all characters are zero |
| Traceparents.GrammarIsParsed | src/observability/traceContext.ts:22-41 | every header the grammar allows is parsed to its ids in lower case, sampled iff the last digit of its flags is odd |
| Traceparents.ParsedIsGrammar | src/observability/traceContext.ts:22-41 | nothing else is parsed |
| Traceparents.ParseOfFormat | src/observability/traceContext.ts:43-45 | a formatted trace is a header of version 00 that the grammar allows, and parsing it gives the normalised trace |
| Traceparents.ParseFormatParse | src/observability/traceContext.ts:22-45 | parsing gives valid ids, and formatting and parsing again changes nothing |
| PercentCoding.DecodeOfEncode | src/observability/traceContext.ts:197-207 | decoding undoes encoding for every string |
| PercentCoding.DecodesIff | src/observability/traceContext.ts:197-203 | a text decodes to another iff it falls into pieces that stand for its characters: themselves, or the percent form of their UTF-8 bytes; so exactly which texts do not decode |
| PercentCoding.EncodeIs | src/observability/traceContext.ts:205-207 | unreserved characters stand for themselves, all others are written in percent form with capital digits |
| PercentCoding.Utf8Examples | src/observability/traceContext.ts:197-207 | the examples of section 7 of RFC 3629 |
| Baggages.ReadBaggage | src/observability/traceContext.ts:86-103 | the loop over members computes the parser |
| Baggages.MemberAssigns | src/observability/traceContext.ts:91-99 | what any member with an equals sign assigns, blanks and properties left out, its value decoded, or verbatim if that is not possible; and when it assigns nothing |
| Baggages.MemberWithoutValue | src/observability/traceContext.ts:91-95 | a member without an equals sign assigns nothing |
| Baggages.OneMoreMember | src/observability/traceContext.ts:90-100 | one more member is one more assignment, so that of two with one key the later counts |
| Baggages.OnlyMember | src/observability/traceContext.ts:86-103 | a header without a comma is one member |
| Baggages.ParseOfFormat | src/observability/traceContext.ts:86-112 | parsing formatted baggage, in any order of its members, gives the valid keys with their values, without `__proto__` |
| Baggages.RoundTripIff | src/observability/traceContext.ts:86-112 | the valid part comes back whole iff it has no key `__proto__` |
| Baggages.ProtoIsLost | src/observability/traceContext.ts:89-102 | baggage with that key alone comes back as none |
| Baggages.ParseFormatParse | src/observability/traceContext.ts:86-112 | formatting and parsing parsed baggage again gives the same |
| TraceHeaders.InjectTraceContext | src/observability/traceContext.ts:60-84 | the record after injection, step by step |
| TraceHeaders.ReadAfterSet | src/observability/traceContext.ts:138-177 | a header set under any letter case is read back, and the others read as before |
| TraceHeaders.ReadAfterInject | src/observability/traceContext.ts:60-84 | what the three headers read as after injecting, with and without overwrite; headers with a traceparent stay as they are without it |
| TraceHeaders.ExtractAfterInject | src/observability/traceContext.ts:47-84 | extracting after injecting, with and without overwrite, for every context and every set of headers |
| TraceHeaders.StaleTraceState | src/observability/traceContext.ts:75-77 | a context without trace state comes back without one iff the headers carried none |
| TraceHeaders.StaleStateComesBack | src/observability/traceContext.ts:75-77 | headers on which a context without trace state comes back with one |
| TraceHeaders.InjectPreserves | src/observability/traceContext.ts:60-84 | other headers keep place, name and value, and without overwrite so does every header |
| TraceHeaders.InjectTwice | src/observability/traceContext.ts:60-84 | injecting again changes nothing that is read back |
| TraceHeaders.PutHeader | src/observability/traceContext.ts:173-177 | the loop finds the first header of that name in any letter case, or appends |

## Left out

- Callbacks that re-enter the wheel, the pool or the batcher: callbacks are log entries. A callback of the wheel that cancels the entry saved as next would unlink it twice.
- The WebAssembly permit engine, the adaptive limiter and its leases, and the circuit breaker: foreign calls or single-branch code around the modelled protocol.
- Sockets, fetch, the abort controller, promises and timers of the host: replaced by events in any order.
- The streaming client and the preflight of URLs and headers: they add no new protocol.
- SlotMask.RoundSlots: requires a count for which the constructor ends (`ConstructionIff`), because for the others the loop of the code runs for ever and no method can say what it returns.
- TimerWheels.TimerWheel.constructor: requires a count for which making the array does not throw; `Create` covers both cases.
- TimerWheelTiming.RunsExactlyAt: a host whose timeouts run late is covered by `CoarseLateness` only.
- EffectRunners.RunnersAreAdequate: assumes that the top callback does not throw, and that register either throws or returns but does not call back and then throw.
- Downstream clients that throw instead of failing, and observers of batching events: an exception would leave a group without an effect.
- Batch entries are records in a table, known by their registration number, instead of shared objects.
- Batching.RequestBatcher.Register: the bypass for requests without a key calls the next client unchanged and is not modelled.
- ExportSpec.EveryRun: assumes one flush at a time, which `flush` of src/observability/setup.ts ensures; calling the pipeline's own flush or shutdown beside it would add a second batch in flight.
- Export attempts that succeed after their timeout, metrics of the pipeline, and the log and metric exporters.
- PercentCoding.DecodeOfEncode: strings are well-formed UTF-16; on a lone surrogate `encodeURIComponent` throws, so formatting such baggage throws.
- Header carriers with a getter or an iterator: `readHeader` treats them as one more list of headers.
- NaN and infinite numbers in configurations, and wall clocks.
- SlotMask.ConstructionIff: requires that the count is a double (`IsNumber`), which every number of the host is. Elsewhere the rounding of times and durations is not modelled: they are real numbers.
- Spans share no id: finishing a second span with an id already used is not a possible event.
