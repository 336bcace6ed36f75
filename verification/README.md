# Verified bookkeeping of the inference engine

This project models the bookkeeping of the `qwen38-staticduo7` serving overlay in Dafny and proves what it is meant to
guarantee: the scheduler's step protocol and budgets, the cache-block structures, memory planning, the adaptive draft
depth, the global dial, and the small kernels and tables that prepare a batch. Tensor mathematics is not modelled.

`dafny verify dfyconfig.toml` checks everything.

The project follows the program's own shape. Objects that the source updates step by step are classes whose methods
change the same fields; each such method is proved equal to a transition on plain values, and the laws of whole runs are
proved about those transitions. Loops that fill lists, tables or arrays are loops here too. What only computes is a
function. Fields marked as history exist for the statements alone.

| module | what it models |
|---|---|
| `StepProtocol`, `StepScheduler` | steps issued and retired, preemption, the fence for returning blocks, the token ledgers |
| `RunningLoop` | one pass of `schedule()` over the running requests: budgets, victims, grants |
| `SpecTokens` | one request's token counters under speculation, preemption and stale output |
| `MambaSplit` | where a prefill chunk may end |
| `InvalidBlocks` | recovery from failed cache loads |
| `FreeBlockQueue` | the intrusive doubly linked free list |
| `BlockHasher` | extra keys, chained block hashes, coarser views, packed group ids |
| `GlmLayout` | grouping of Mamba layers over pipeline stages and the aliasing cache layout |
| `Capacity` | auto-fit, admission check and agreement on block counts |
| `SurvivalEstimator`, `DepthController` | the censored acceptance estimate and the depth state machine |
| `GlobalDial` | setters and readers of the dial as interleaved tasks |
| `DraftPrefill`, `DraftDecode` | the draft-preparation kernels and the drafting loop |
| `CudaGraphIndex` | candidate table, adapter table and lookup of captured graphs |
| `TokenLambda` | the per-token buffer, the slot table and its mirror |
| `Arithmetic`, `Wrappers` | shared definitions |

## Where the code does not do what one would expect

Each of these is proved with the exact condition under which the expectation holds; where that condition does not show
a failing input by itself, a lemma gives one.

- A request id that is used again while a step still runs for its predecessor makes the in-flight count negative
  (`StepProtocol.ReusedIdGoesNegative`, `StepProtocol.AddKeepsLedgerIff`).
- A copy source that waits for a step to run its copy holds up what is satisfied behind it in the queue
  (`StepProtocol.CopyHoldsUpOthers`). Once all steps are processed the queue is empty if and only if no copies were
  taken by a `schedule()` call without tokens that no step has followed (`StepProtocol.NothingWaitsIff`).
- Under the priority policy, encoder budget given back by a preemption can be overwritten
  (`RunningLoop.EncoderBudgetCanBeLost`). For a whole step the budget is exact if and only if no visited request with
  encoder inputs gets its blocks by evicting a request that was granted some (`RunningLoop.EncoderBudgetIsExactIff`).
  Tokens and inputs always balance.
- A chunk that is split at a boundary and then pushed back by the look-ahead reservation may never be scheduled
  (`MambaSplit.LookaheadCanStarve`); that is so if and only if no more than the look-ahead is left and a boundary lies
  in between (`MambaSplit.StarvesIff`).
- Drafts may be handed over for any unfinished request. Those that come early can be scheduled ahead of output that is
  still to come, and that output, or theirs, is then delivered at a wrong position (`SpecTokens.EarlyDraftMisplaces`). A
  proposal can lead to that if and only if it is not ignored and the request waits, with room for a token beyond those
  it has and is owed, or is being sampled, with more drafts than are just being checked and room beyond those
  (`SpecTokens.ProposalMisplacesIff`). Runs without such proposals are in order (`SpecTokens.RunKeeps`).
- The long-prefill threshold can cut into the padding of an admitted decode and so violate the step's own check
  (`SpecTokens.ThresholdCutsPadding`, `SpecTokens.PaddingIsCutIff`).
- Hashing a growing request in pieces can miss a multimodal feature: the comment in the source speaks of blocks completed
  with generated tokens, but a partial prompt block can hold more than one feature
  (`BlockHasher.TwoInputsInThePartialBlock`, `BlockHasher.InPiecesIsAtOnceIff`). Two prompts that differ in a missed
  feature only then share their hashes (`BlockHasher.MissedInputCollides`, `BlockHasher.SamePieceIff`).
- An adapter name in the key of a first block reads like a cache salt, so two different requests can share its hash
  (`BlockHasher.AdapterReadsLikeSalt`); equal keys mean equal adapter, salt and dial if and only if the same of the
  three are present (`BlockHasher.KeysTellPartsIff`).
- A negative index into the coarser view reads an unaligned hash unless the fine hashes fill the coarse blocks
  (`BlockHasher.NegativeIndexIff`).
- The reported number of affected tokens leaves out the step's tokens of requests that go back to a block of their own;
  it is exact if and only if none of these had tokens in the step (`InvalidBlocks.TotalIsExactIff`).
- The balanced group count need not fit a stage if Mamba layers are not dealt in model order
  (`GlmLayout.OutOfOrderOverflows`). It fits, whatever slots the stage has within the count's reach, if and only if no
  group has more than its even share of the stage's layers (`GlmLayout.FitsWhateverTheSlotsIff`); model order gives that
  (`GlmLayout.ModelOrderIsEven`).
- Ranks that need different numbers of blocks may agree on too few (`Capacity.UnequalNeedsCanFail`). All can serve a
  request of full length if and only if each rank's memory holds, in its own blocks, what any rank needs
  (`Capacity.AllServeIff`).
- The dial accepts values whose readback in fewer bits cannot match; such a setter ends with the dial blocked
  (`GlobalDial.LegalValueBlocks`, `GlobalDial.UndisturbedSucceedsIff`).
- The graph lookup only considers the least size of either mode (`CudaGraphIndex.LargerGraphIsMissed`). A graph that
  would do is missed if and only if each such graph has a smaller one of its mode and case that holds the tokens
  (`CudaGraphIndex.MissesIff`).
- A count of zero ends the expansion of the token buffer early (`TokenLambda.ZeroCountEndsEarly`). All rows are right if
  and only if no request behind the first zero has rows in the batch and a value other than the common one
  (`TokenLambda.ExactIff`).
- Adding a request without value to a used slot leaves the old value in the mirror
  (`TokenLambda.SlotAddedMirrorsIff`); the runner frees the slot first, so it never does that.

## Model

| member | source | states |
|---|---|---|
| `StepProtocol.BlocksSafeInEveryRun` | mods/qwen38-staticduo7-7f1a5398/overlays/v1/core/sched/scheduler.py:2628-2670 | in every run with deferral on, no block that a step in flight uses or copies from is in the pool, references are exactly those of requests and waiting entries, and no drained queue begins with a satisfied fence or is more than one step out of order |
| `StepProtocol.NoBlockInUseIsPooled` | mods/qwen38-staticduo7-7f1a5398/overlays/v1/core/sched/scheduler.py:2635-2644 | a block used by an unprocessed step, or read by a copy it runs, still has a holder |
| `StepProtocol.KeepsRefs` | mods/qwen38-staticduo7-7f1a5398/overlays/v1/core/sched/scheduler.py:2635-2670 | every event conserves references: a block goes back once for each time it was taken, and deferred entries are neither lost nor released twice |
| `StepProtocol.KeepsFence` | mods/qwen38-staticduo7-7f1a5398/overlays/v1/core/sched/scheduler.py:1436-1444 | every event keeps what each unprocessed step uses or copies from guarded: held by its request or waiting for that step |
| `StepProtocol.DrainExact` | mods/qwen38-staticduo7-7f1a5398/overlays/v1/core/sched/scheduler.py:2657-2670 | draining releases a prefix of the queue whose fences have passed and keeps the rest in order, beginning with a pending one |
| `StepProtocol.GuardDrain` | mods/qwen38-staticduo7-7f1a5398/overlays/v1/core/sched/scheduler.py:2657-2670 | a drain never releases an entry that waits for a later step, even behind satisfied ones |
| `StepProtocol.OrderedDrain` | mods/qwen38-staticduo7-7f1a5398/overlays/v1/core/sched/scheduler.py:2657-2664 | fences at most one out of order stay so under a drain, and every entry still held then has at least the processed number |
| `StepProtocol.LedgersExactInEveryRun` | mods/qwen38-staticduo7-7f1a5398/overlays/v1/core/sched/scheduler.py:1973-1983 | in every run that reuses no id in flight, the in-flight count is the sum over steps in flight and the stale count the sum over those issued before the last preemption |
| `StepProtocol.KeepsLedger` | mods/qwen38-staticduo7-7f1a5398/overlays/v1/core/sched/scheduler.py:1569-1578 | scheduling, processing, preemption, resumption and finishing all keep both counts exact |
| `StepProtocol.StaleExactly` | mods/qwen38-staticduo7-7f1a5398/overlays/v1/core/sched/scheduler.py:1979-1983 | output is found stale exactly when the request was preempted after the step was issued, and neither counter becomes negative |
| `StepProtocol.DeliveredNotResumed` | mods/qwen38-staticduo7-7f1a5398/overlays/v1/core/sched/scheduler.py:901-910 | output that is delivered belongs to the current stretch of the request: nothing it covers has been computed again since |
| `StepProtocol.AddKeepsLedgerIff` | mods/qwen38-staticduo7-7f1a5398/overlays/v1/core/sched/scheduler.py:2492-2518 | adding a request keeps the ledgers exact if and only if no step in flight names its id |
| `StepProtocol.ReusedIdGoesNegative` | mods/qwen38-staticduo7-7f1a5398/overlays/v1/core/sched/scheduler.py:1973-1977 | a concrete run in which an aborted id is used again in flight and its count becomes negative |
| `StepProtocol.FreedInEveryRun` | mods/qwen38-staticduo7-7f1a5398/overlays/v1/core/sched/scheduler.py:2635-2644 | in every run that reuses no id in flight, a preemption, a finish without delay and the freeing of delayed blocks leave the request holding nothing; its blocks return at once, and the queue is as before, if deferral is off or no unprocessed step runs for it; otherwise, unless there are none, exactly they wait behind all others for the newest step |
| `StepProtocol.FreeingLetsGo` | mods/qwen38-staticduo7-7f1a5398/overlays/v1/core/sched/scheduler.py:1560-1562 | the same for one event from any state whose numbers are in order |
| `StepProtocol.CanFreeIff` | mods/qwen38-staticduo7-7f1a5398/overlays/v1/core/sched/scheduler.py:2628-2633 | the blocks of a request can be freed exactly if deferral is off or no unprocessed step runs for it |
| `StepProtocol.HoldsItsGrants` | mods/qwen38-staticduo7-7f1a5398/overlays/v1/core/sched/scheduler.py:2635-2644 | in every run a request holds exactly the blocks it was given since it last let go of them, in order |
| `StepProtocol.NothingWaitsIff` | mods/qwen38-staticduo7-7f1a5398/overlays/v1/core/sched/scheduler.py:2657-2670 | once every issued step is processed nothing waits any more if and only if no copies wait for a step to run them |
| `StepProtocol.OnlyHeldBlocksAreOut` | mods/qwen38-staticduo7-7f1a5398/overlays/v1/core/sched/scheduler.py:2635-2670 | then a block is out of the pool exactly if some request was given it and has not let go since: preempted and ended requests keep nothing out |
| `StepProtocol.CopyHoldsUpOthers` | mods/qwen38-staticduo7-7f1a5398/overlays/v1/core/sched/scheduler.py:1436-1444 | from any such state, a run in which a waiting copy keeps the blocks of a preempted request waiting although their step is processed |
| `StepProtocol.CopiesAreRun` | mods/qwen38-staticduo7-7f1a5398/overlays/v1/core/sched/scheduler.py:1436-1444 | in every run, the first step from the call on that took copies reads all their sources, so these are guarded until it is processed |
| `StepProtocol.OthersUntouched` | mods/qwen38-staticduo7-7f1a5398/overlays/v1/core/sched/scheduler.py:1543-1586 | an event leaves the fields, blocks and queue place of every request it does not concern as they are |
| `StepProtocol.EventsLeadOn` | mods/qwen38-staticduo7-7f1a5398/overlays/v1/core/sched/scheduler.py:1543-1586 | what is added can be admitted, what is admitted can be scheduled or preempted, what is preempted can be admitted again unless output is still to be delivered; what has ended is gone, or can be freed if delayed |
| `StepProtocol.DroppedInEveryRun` | mods/qwen38-staticduo7-7f1a5398/overlays/v1/core/sched/scheduler.py:1569-1586 | in every run stale output is dropped exactly if some preemption asked for it and the request has had stale output ever since |
| `StepScheduler.Scheduler.constructor` | mods/qwen38-staticduo7-7f1a5398/overlays/v1/core/sched/scheduler.py:387-392 | begins with no request, no step and no deferred block |
| `StepScheduler.Scheduler.FreeRequestBlocks` | mods/qwen38-staticduo7-7f1a5398/overlays/v1/core/sched/scheduler.py:2635-2644 | takes exactly the transition that frees at once or queues behind the current step |
| `StepScheduler.Scheduler.FreeCowRetainedBlocks` | mods/qwen38-staticduo7-7f1a5398/overlays/v1/core/sched/scheduler.py:2646-2655 | takes exactly the transition that releases copy sources or queues them behind the next step |
| `StepScheduler.Scheduler.DrainDeferredFrees` | mods/qwen38-staticduo7-7f1a5398/overlays/v1/core/sched/scheduler.py:2657-2670 | the loop releases exactly the entries before the first pending one |
| `StepScheduler.Scheduler.PreemptRequest` | mods/qwen38-staticduo7-7f1a5398/overlays/v1/core/sched/scheduler.py:1543-1586 | takes exactly the transition that frees, resets and marks all output in flight stale |
| `StepScheduler.Scheduler.UpdateAfterSchedule` | mods/qwen38-staticduo7-7f1a5398/overlays/v1/core/sched/scheduler.py:1588-1605 | the loop advances exactly the counters of the scheduled requests, whatever their order |
| `StepScheduler.Scheduler.TakeBlockCopies` | mods/qwen38-staticduo7-7f1a5398/overlays/v1/core/sched/scheduler.py:1436-1444 | takes exactly the transition that lets copy sources go behind the step that runs the copies |
| `StepScheduler.Scheduler.DispatchStep` | mods/qwen38-staticduo7-7f1a5398/overlays/v1/core/sched/scheduler.py:1515-1522 | a non-empty step advances the fence and the counters together |
| `StepScheduler.Scheduler.IssueStep` | mods/qwen38-staticduo7-7f1a5398/overlays/v1/core/sched/scheduler.py:1436-1522 | the end of a schedule() call, empty or not, is exactly the issue transition |
| `StepScheduler.Scheduler.SettleOutput` | mods/qwen38-staticduo7-7f1a5398/overlays/v1/core/sched/scheduler.py:1973-1983 | the loop drains in-flight and stale shares of exactly the requests of the step |
| `StepScheduler.Scheduler.UpdateFromOutput` | mods/qwen38-staticduo7-7f1a5398/overlays/v1/core/sched/scheduler.py:1940-1983 | processing the oldest step is exactly the retire transition |
| `StepScheduler.Scheduler.FreeBlocks` | mods/qwen38-staticduo7-7f1a5398/overlays/v1/core/sched/scheduler.py:2615-2618 | frees and forgets a finished request, as the transition says |
| `StepScheduler.Scheduler.FinishRequest` | mods/qwen38-staticduo7-7f1a5398/overlays/v1/core/sched/scheduler.py:2584-2613 | ends a request, with its blocks kept when a connector still sends them |
| `RunningLoop.RunIsConsistent` | mods/qwen38-staticduo7-7f1a5398/overlays/v1/core/sched/scheduler.py:626-857 | over the whole loop, for any queue of different requests, also with drafts in flight, with any preemptions: given tokens, inputs and draft slots plus what is left make up the initial budgets, none is overdrawn; the queue is the old one without the victims in the old order; every grant is in front of the index, for its own request and within what it asked |
| `RunningLoop.StepIsConsistent` | mods/qwen38-staticduo7-7f1a5398/overlays/v1/core/sched/scheduler.py:1355-1367 | what schedule() asserts after the loop, for any queue and budgets: sums, non-negative budgets, no more grants than running requests, and no victim holds a grant |
| `RunningLoop.StepTurnByTurn` | mods/qwen38-staticduo7-7f1a5398/overlays/v1/core/sched/scheduler.py:622-857 | a whole step under either policy is a sequence of turns: each request in the order of the queue is passed over, only if the step skips it or schedules nothing for it, or gets blocks, after victims if need be, and is granted what was worked out before; the loop ends only with the queue, with a budget, or when no blocks are to be had |
| `RunningLoop.RunIs` | mods/qwen38-staticduo7-7f1a5398/overlays/v1/core/sched/scheduler.py:626-857 | the same for the rest of the loop from any sound point of it, every point of which is sound |
| `RunningLoop.AllocateIs` | mods/qwen38-staticduo7-7f1a5398/overlays/v1/core/sched/scheduler.py:743-814 | getting blocks is a sequence of failed attempts, each followed by the loss of one victim whose blocks help, and ends with an attempt that succeeds, with pending frees, with a victim whose blocks do not help, or with the request itself |
| `RunningLoop.NumNewCounts` | mods/qwen38-staticduo7-7f1a5398/overlays/v1/core/sched/scheduler.py:671-720 | the count for a request is the clipped least of what it asks for, the threshold, both budgets and its room, and nothing if that is negative |
| `RunningLoop.VictimIs` | mods/qwen38-staticduo7-7f1a5398/overlays/v1/core/sched/scheduler.py:760-771 | the victim is the last request, or under priorities the one with the greatest priority number, of those the last to arrive, and of those the first in the queue |
| `RunningLoop.EvictionMakesRoom` | mods/qwen38-staticduo7-7f1a5398/overlays/v1/core/sched/scheduler.py:760-807 | one eviction takes out exactly the victim and what it was granted, and the index still points to the request served |
| `RunningLoop.FcfsNeverRevokes` | mods/qwen38-staticduo7-7f1a5398/overlays/v1/core/sched/scheduler.py:767-807 | first come, first served never takes a grant back, so a victim was never scheduled in this step |
| `RunningLoop.EvictKeepsBalance` | mods/qwen38-staticduo7-7f1a5398/overlays/v1/core/sched/scheduler.py:774-798 | a victim that was scheduled gives back exactly its tokens, its draft slots and its encoder inputs |
| `RunningLoop.EvictKeepsShape` | mods/qwen38-staticduo7-7f1a5398/overlays/v1/core/sched/scheduler.py:760-807 | a priority victim outranks nobody who stays or is preempted later; the others keep place, order and grants |
| `RunningLoop.AllocateKeepsRequest` | mods/qwen38-staticduo7-7f1a5398/overlays/v1/core/sched/scheduler.py:741-814 | after any number of preemptions a successful allocation is for the request the index points to, with no more requests left behind it, so the loop ends |
| `RunningLoop.Lowest` | mods/qwen38-staticduo7-7f1a5398/overlays/v1/core/sched/scheduler.py:762-766 | the first request with the greatest priority and arrival time |
| `RunningLoop.FewerGrantsThanRunning` | mods/qwen38-staticduo7-7f1a5398/overlays/v1/core/sched/scheduler.py:1361-1366 | scheduled requests are different requests in front of the index |
| `RunningLoop.EncoderBudgetIsExactIff` | mods/qwen38-staticduo7-7f1a5398/overlays/v1/core/sched/scheduler.py:798-852 | for a whole step: the encoder budget left is the initial one less what was granted if and only if no visited request with encoder inputs gets its blocks by evicting one that holds granted encoder inputs |
| `RunningLoop.RunLosesIff` | mods/qwen38-staticduo7-7f1a5398/overlays/v1/core/sched/scheduler.py:743-852 | the same for the rest of the loop from any point of it |
| `RunningLoop.LostExactly` | mods/qwen38-staticduo7-7f1a5398/overlays/v1/core/sched/scheduler.py:791-852 | one booking loses exactly the encoder inputs that its preemptions took from other requests |
| `RunningLoop.EncoderBudgetCanBeLost` | mods/qwen38-staticduo7-7f1a5398/overlays/v1/core/sched/scheduler.py:798-852 | a concrete step that ends with five units of encoder budget missing |
| `RunningLoop.RunningScheduler.CountNew` | mods/qwen38-staticduo7-7f1a5398/overlays/v1/core/sched/scheduler.py:671-720 | the count for a request after every clip; a negative one becomes zero |
| `RunningLoop.RunningScheduler.FindLowest` | mods/qwen38-staticduo7-7f1a5398/overlays/v1/core/sched/scheduler.py:762-766 | the scan finds the first of the requests ranking lowest |
| `RunningLoop.RunningScheduler.PreemptAt` | mods/qwen38-staticduo7-7f1a5398/overlays/v1/core/sched/scheduler.py:774-807 | takes the victim out with everything the step granted it, as the eviction says |
| `RunningLoop.RunningScheduler.AllocateSlots` | mods/qwen38-staticduo7-7f1a5398/overlays/v1/core/sched/scheduler.py:743-814 | the retry loop is exactly the sequence of attempts and evictions, and it ends |
| `RunningLoop.RunningScheduler.BookGrant` | mods/qwen38-staticduo7-7f1a5398/overlays/v1/core/sched/scheduler.py:816-852 | books a grant in both budgets and overwrites the encoder budget as the source does |
| `RunningLoop.RunningScheduler.Schedule` | mods/qwen38-staticduo7-7f1a5398/overlays/v1/core/sched/scheduler.py:626-857 | the whole loop, in place, ends in exactly the state of the specification |
| `SpecTokens.RunKeeps` | mods/qwen38-staticduo7-7f1a5398/overlays/v1/core/sched/scheduler.py:671-689 | in every run of scheduling, admission, preemption, output and proposals, these at any time and for any request unless they can overtake output: early drafts aside, between steps fewer tokens are computed than there are, while a step samples exactly tokens plus drafts, stale chunks come first and only the last chunk samples |
| `SpecTokens.ComputedAllButTheLast` | mods/qwen38-staticduo7-7f1a5398/overlays/v1/core/sched/scheduler.py:2006-2024 | after a sampling step that is not stale and does not stop the request, everything but the newest token is computed, for any truncation and any number of accepted drafts |
| `SpecTokens.OutputContinuesTheRequest` | mods/qwen38-staticduo7-7f1a5398/overlays/v1/core/sched/scheduler.py:1985-1999 | delivered output, stale or not, was sampled for the position at which the request stands: nothing twice, nothing out of order, no gap |
| `SpecTokens.PositionsFit` | mods/qwen38-staticduo7-7f1a5398/overlays/v1/core/sched/scheduler.py:683-689 | every scheduled chunk is appended behind those in flight with the tokens it computes; no position passes the model length; it samples exactly if it reaches the end of the tokens, and then has a row for each draft and one more |
| `SpecTokens.NeverStuck` | mods/qwen38-staticduo7-7f1a5398/overlays/v1/core/sched/scheduler.py:671-689 | a running request that is not being sampled always has a token to schedule and room for it |
| `SpecTokens.NoSecondStepWhileSampling` | mods/qwen38-staticduo7-7f1a5398/overlays/v1/core/sched/scheduler.py:671-675 | while its drafts are being checked a request asks for minus their number and for drafts that came early, which with the room left is nothing, and the reservation makes it zero, so it is granted nothing |
| `SpecTokens.PaddingIsCutIff` | mods/qwen38-staticduo7-7f1a5398/overlays/v1/core/sched/scheduler.py:1095-1117 | padded rows are complete except exactly when the threshold cuts into them and no block split notices |
| `SpecTokens.ThresholdCutsPadding` | mods/qwen38-staticduo7-7f1a5398/overlays/v1/core/sched/scheduler.py:1322-1326 | a concrete admission with two rows for four |
| `SpecTokens.ProposalMisplacesIff` | mods/qwen38-staticduo7-7f1a5398/overlays/v1/core/sched/scheduler.py:2426-2445 | from any state of such a run, a proposal can lead to output at a wrong position if and only if it is not ignored and finds the request waiting with room for a token beyond those it has and is owed, or being sampled, with more drafts than are just being checked and room for a token beyond those |
| `SpecTokens.EarlyDraftMisplaces` | mods/qwen38-staticduo7-7f1a5398/overlays/v1/core/sched/scheduler.py:2426-2445 | for any prompt with room, a run in which a draft is proposed while the first output is still to come and output sampled for the end of the prompt is delivered one position behind it |
| `SpecTokens.DraftsAreScheduled` | mods/qwen38-staticduo7-7f1a5398/overlays/v1/core/sched/scheduler.py:2426-2445 | in every run, a proposal for a running request that nothing samples for, and that is not in the middle of its prefill, has it ask for as many tokens more as there are drafts, and a chunk of all it asks for samples and carries every draft; in the middle of its prefill it asks for no more |
| `SpecTokens.EndsForGood` | mods/qwen38-staticduo7-7f1a5398/overlays/v1/core/sched/scheduler.py:1985-1999 | in every run, a request that was aborted or has stopped stays finished and gets no more tokens or drafts |
| `SpecTokens.ProcessingIs` | mods/qwen38-staticduo7-7f1a5398/overlays/v1/core/sched/scheduler.py:1973-2024 | in every run, output is thrown away exactly if the request is finished or the output stale and to be dropped; otherwise tokens are appended up to the first stop, all of them if there is none, and of the drafts checked exactly those accepted stay computed |
| `SpecTokens.PreemptionIs` | mods/qwen38-staticduo7-7f1a5398/overlays/v1/core/sched/scheduler.py:1565-1578 | in every run, a preemption takes back all that was computed and proposed, makes all output in flight stale, and has it dropped exactly if that is asked for or older output is still being dropped |
| `SpecTokens.AdmissionIs` | mods/qwen38-staticduo7-7f1a5398/overlays/v1/core/sched/scheduler.py:1085-1145 | a waiting request is admitted with the most tokens that demand, budget, threshold and block split allow; it waits exactly if the budget is short of its padding or of a prefill that may not be split, or the block split refuses |
| `SpecTokens.Kept` | mods/qwen38-staticduo7-7f1a5398/overlays/v1/core/sched/scheduler.py:2377-2386 | of the sampled tokens those up to and including the first stop are kept |
| `SpecTokens.TrackedRequest.constructor` | mods/qwen38-staticduo7-7f1a5398/overlays/v1/core/sched/scheduler.py:2492-2518 | a fresh request has computed nothing |
| `SpecTokens.TrackedRequest.UpdateAfterSchedule` | mods/qwen38-staticduo7-7f1a5398/overlays/v1/core/sched/scheduler.py:1598-1608 | advances the computed count and launches the chunk |
| `SpecTokens.TrackedRequest.ScheduleRunning` | mods/qwen38-staticduo7-7f1a5398/overlays/v1/core/sched/scheduler.py:826-842 | launches the chunk with the drafts it reaches and forgets the others |
| `SpecTokens.TrackedRequest.AdmitWaiting` | mods/qwen38-staticduo7-7f1a5398/overlays/v1/core/sched/scheduler.py:1317-1326 | admits at a prefix hit, padded or not |
| `SpecTokens.TrackedRequest.PreemptRequest` | mods/qwen38-staticduo7-7f1a5398/overlays/v1/core/sched/scheduler.py:1565-1578 | resets the counters and marks output in flight |
| `SpecTokens.TrackedRequest.Append` | mods/qwen38-staticduo7-7f1a5398/overlays/v1/core/sched/scheduler.py:2369-2386 | the loop appends exactly the tokens up to the first stop, and says whether there was one |
| `SpecTokens.TrackedRequest.UpdateWithOutput` | mods/qwen38-staticduo7-7f1a5398/overlays/v1/core/sched/scheduler.py:2369-2386 | a stop ends the request |
| `SpecTokens.TrackedRequest.RollBack` | mods/qwen38-staticduo7-7f1a5398/overlays/v1/core/sched/scheduler.py:2006-2022 | takes back exactly the rejected drafts, and none for stale output |
| `SpecTokens.TrackedRequest.UpdateFromOutput` | mods/qwen38-staticduo7-7f1a5398/overlays/v1/core/sched/scheduler.py:1973-2024 | processing one chunk is exactly the specified transition |
| `SpecTokens.TrackedRequest.UpdateDraftTokens` | mods/qwen38-staticduo7-7f1a5398/overlays/v1/core/sched/scheduler.py:2426-2445 | drafts are ignored for prefill chunks and finished requests |
| `MambaSplit.ChunkEnds` | mods/qwen38-staticduo7-7f1a5398/overlays/v1/core/sched/scheduler.py:410-523 | one chunk never jumps over the last cacheable boundary, the tail boundary or, from mid-block, the next block boundary; an end before the prefill end is cacheable or inside a block wider than the chunk limit |
| `MambaSplit.SplitIsLargest` | mods/qwen38-staticduo7-7f1a5398/overlays/v1/core/sched/scheduler.py:410-523 | a chunk is the largest legal one within the offer, with or without an internal checkpoint, and empty if there is none: it ends with the prefill, at a block boundary, inside a block that is too wide for one chunk if the offer gets to no boundary, or at a stop that applies, and never jumps over such a stop |
| `MambaSplit.DecodeIsNotSplit` | mods/qwen38-staticduo7-7f1a5398/overlays/v1/core/sched/scheduler.py:432-434 | behind the prefill nothing is clipped |
| `MambaSplit.PrefillObeysLaw` | mods/qwen38-staticduo7-7f1a5398/overlays/v1/core/sched/scheduler.py:410-523 | every chunk of a whole prefill, under any offers, obeys the law of single chunks |
| `MambaSplit.PrefillEndsCacheable` | mods/qwen38-staticduo7-7f1a5398/overlays/v1/core/sched/scheduler.py:410-523 | under any offers, each chunk end before the prefill end is the start of the prefill, cacheable, or inside the block, wider than a chunk may be, in which an earlier chunk began |
| `MambaSplit.PrefillRealigns` | mods/qwen38-staticduo7-7f1a5398/overlays/v1/core/sched/scheduler.py:464-520 | a chunk end inside a block is made up for: a prefill that passes the next block boundary ends a chunk there |
| `MambaSplit.PrefillVisitsStops` | mods/qwen38-staticduo7-7f1a5398/overlays/v1/core/sched/scheduler.py:487-523 | a prefill that passes the last cacheable boundary, the tail boundary or the shared-prefix junction ends a chunk there |
| `MambaSplit.PrefillProgresses` | mods/qwen38-staticduo7-7f1a5398/overlays/v1/core/sched/scheduler.py:410-523 | if every offer is at least a block, every chunk moves on |
| `MambaSplit.StallsIff` | mods/qwen38-staticduo7-7f1a5398/overlays/v1/core/sched/scheduler.py:464-523 | a positive offer is refused exactly when it reaches neither the prefill end nor a boundary although a block would fit |
| `MambaSplit.BlockOfferProgresses` | mods/qwen38-staticduo7-7f1a5398/overlays/v1/core/sched/scheduler.py:464-523 | an offer of a block is never refused |
| `MambaSplit.LastCacheAligned` | mods/qwen38-staticduo7-7f1a5398/overlays/v1/core/sched/scheduler.py:436-442 | the last cacheable boundary is the last block boundary of the request, or the one before it |
| `MambaSplit.JunctionStored` | mods/qwen38-staticduo7-7f1a5398/overlays/v1/core/sched/scheduler.py:492-503 | a junction that decides a chunk end lies at the shared prefix or whole blocks away from an aligned start |
| `MambaSplit.Earliest` | mods/qwen38-staticduo7-7f1a5398/overlays/v1/core/sched/scheduler.py:521-523 | the least stop strictly inside the chunk, or its end |
| `MambaSplit.ReserveIsLargest` | mods/qwen38-staticduo7-7f1a5398/overlays/v1/core/sched/scheduler.py:537-556 | the result is the largest chunk, not above the one asked for, that ends outside the look-ahead window |
| `MambaSplit.CombinedStallsIff` | mods/qwen38-staticduo7-7f1a5398/overlays/v1/core/sched/scheduler.py:537-556 | split and reservation together schedule nothing exactly when the split does not or all it leaves lies in the window |
| `MambaSplit.CombinedProgressIff` | mods/qwen38-staticduo7-7f1a5398/overlays/v1/core/sched/scheduler.py:464-556 | with no more than the look-ahead left, both together schedule something exactly if the offer reaches the end and no boundary is ahead; with more left, exactly if the split does |
| `MambaSplit.StarvesIff` | mods/qwen38-staticduo7-7f1a5398/overlays/v1/core/sched/scheduler.py:464-556 | every offer yields nothing if and only if no more than the look-ahead is left and a boundary is ahead |
| `MambaSplit.CombinedOfferProgresses` | mods/qwen38-staticduo7-7f1a5398/overlays/v1/core/sched/scheduler.py:464-556 | otherwise an offer of all that is left, or of a block while more than the look-ahead is left, is never refused |
| `MambaSplit.LookaheadOneIsNoOp` | mods/qwen38-staticduo7-7f1a5398/overlays/v1/core/sched/scheduler.py:537-556 | with a look-ahead of one the reservation never interferes |
| `MambaSplit.LookaheadCanStarve` | mods/qwen38-staticduo7-7f1a5398/overlays/v1/core/sched/scheduler.py:537-556 | a concrete prompt that is never scheduled, whatever is offered |
| `InvalidBlocks.EveryInvalidBlockIsRecomputed` | mods/qwen38-staticduo7-7f1a5398/overlays/v1/core/sched/scheduler.py:3127-3198 | for every invalid block of a scanned request that begins among the tokens computed before the step, be it filled or not, that request or one before it with the same block goes back to its position or further, and is reported |
| `InvalidBlocks.OutcomeIs` | mods/qwen38-staticduo7-7f1a5398/overlays/v1/core/sched/scheduler.py:3141-3196 | a request goes back to its first block that is invalid, begins among the tokens computed before the step, and is of no request before it; to the tokens from before the step if all such blocks are of requests before; and keeps its count if it has none |
| `InvalidBlocks.AffectedGoBack` | mods/qwen38-staticduo7-7f1a5398/overlays/v1/core/sched/scheduler.py:3172-3196 | affected requests end no higher than before this step, the others keep their count |
| `InvalidBlocks.AffectedIff` | mods/qwen38-staticduo7-7f1a5398/overlays/v1/core/sched/scheduler.py:3127-3198 | a request is reported exactly when one of its blocks is invalid and begins among the tokens it had computed before the step |
| `InvalidBlocks.AffectedIds` | mods/qwen38-staticduo7-7f1a5398/overlays/v1/core/sched/scheduler.py:3127-3198 | the reported ids are exactly those of such requests |
| `InvalidBlocks.KeptBlocksAreSound` | mods/qwen38-staticduo7-7f1a5398/overlays/v1/core/sched/scheduler.py:3150-3194 | what a request still counts as computed from before the step is valid, or such a block of a request before it, which computes it again |
| `InvalidBlocks.FirstHolder` | mods/qwen38-staticduo7-7f1a5398/overlays/v1/core/sched/scheduler.py:3130-3165 | the first holder of an invalid block finds it unmarked |
| `InvalidBlocks.MarkedByWhom` | mods/qwen38-staticduo7-7f1a5398/overlays/v1/core/sched/scheduler.py:3130-3165 | the marked blocks are exactly the invalid ones the requests before held |
| `InvalidBlocks.MarkedIs` | mods/qwen38-staticduo7-7f1a5398/overlays/v1/core/sched/scheduler.py:3130-3165 | that is, those that begin among the tokens the requests before had computed before the step |
| `InvalidBlocks.EvictedByWhom` | mods/qwen38-staticduo7-7f1a5398/overlays/v1/core/sched/scheduler.py:3180-3182 | the evicted blocks are exactly those from a request's own first such block on |
| `InvalidBlocks.InvalidBlocksAreEvicted` | mods/qwen38-staticduo7-7f1a5398/overlays/v1/core/sched/scheduler.py:3180-3182 | every invalid block that begins among the tokens computed before the step is evicted |
| `InvalidBlocks.EvictedAreNotKept` | mods/qwen38-staticduo7-7f1a5398/overlays/v1/core/sched/scheduler.py:3180-3182 | no block is evicted on account of a request that still counts it |
| `InvalidBlocks.TotalLeavesOut` | mods/qwen38-staticduo7-7f1a5398/overlays/v1/core/sched/scheduler.py:3175-3193 | the reported total is what is given up less the step's tokens of requests that go back to a block of their own |
| `InvalidBlocks.TotalIsExactIff` | mods/qwen38-staticduo7-7f1a5398/overlays/v1/core/sched/scheduler.py:3175-3193 | so it is exact if and only if none of these had tokens in the step |
| `InvalidBlocks.FirstFresh` | mods/qwen38-staticduo7-7f1a5398/overlays/v1/core/sched/scheduler.py:3150-3172 | the first block that is invalid and not yet marked |
| `InvalidBlocks.Request.constructor` | mods/qwen38-staticduo7-7f1a5398/overlays/v1/core/sched/scheduler.py:3096-3126 | a request as recovery sees it |
| `InvalidBlocks.Request.Truncate` | mods/qwen38-staticduo7-7f1a5398/overlays/v1/core/sched/scheduler.py:3135-3196 | the scan of one request truncates, marks, counts and collects exactly as specified |
| `InvalidBlocks.Request.Scan` | mods/qwen38-staticduo7-7f1a5398/overlays/v1/core/sched/scheduler.py:3127-3198 | one request's share of the tally |
| `InvalidBlocks.UpdateRequests` | mods/qwen38-staticduo7-7f1a5398/overlays/v1/core/sched/scheduler.py:3096-3198 | the scan of all requests in place leaves each with its specified count and the specified tally |
| `InvalidBlocks.HandleInvalidBlocks` | mods/qwen38-staticduo7-7f1a5398/overlays/v1/core/sched/scheduler.py:3215-3296 | both scans, the failure policies and the multi-group error |
| `InvalidBlocks.RecoverReachesAll` | mods/qwen38-staticduo7-7f1a5398/overlays/v1/core/sched/scheduler.py:3215-3296 | skipped are exactly the running requests with such a block and, under the failing policy, the waiting ones; retried are the waiting ones under the other policy; evicted, under the failing policy only, is exactly what lies from the first such block of its own on in a running request |
| `FreeBlockQueue.Queue.constructor` | mods/qwen38-staticduo7-7f1a5398/overlays/v1/core/kv_cache_utils.py:270-298 | links the blocks between two sentinels in the given order |
| `FreeBlockQueue.Queue.PopLeft` | mods/qwen38-staticduo7-7f1a5398/overlays/v1/core/kv_cache_utils.py:300-336 | returns the first block and leaves the rest, or reports that there is none |
| `FreeBlockQueue.Queue.PopLeftN` | mods/qwen38-staticduo7-7f1a5398/overlays/v1/core/kv_cache_utils.py:338-370 | returns the first n blocks in order and unlinks them |
| `FreeBlockQueue.Queue.Remove` | mods/qwen38-staticduo7-7f1a5398/overlays/v1/core/kv_cache_utils.py:372-391 | removes the block from wherever it is, or reports that it is not queued |
| `FreeBlockQueue.Queue.Append` | mods/qwen38-staticduo7-7f1a5398/overlays/v1/core/kv_cache_utils.py:393-415 | the block becomes the last one |
| `FreeBlockQueue.Queue.PrependN` | mods/qwen38-staticduo7-7f1a5398/overlays/v1/core/kv_cache_utils.py:417-436 | the blocks come before the others, in order |
| `FreeBlockQueue.Queue.AppendN` | mods/qwen38-staticduo7-7f1a5398/overlays/v1/core/kv_cache_utils.py:438-462 | the blocks come behind the others, in order |
| `FreeBlockQueue.Queue.GetAllFreeBlocks` | mods/qwen38-staticduo7-7f1a5398/overlays/v1/core/kv_cache_utils.py:464-483 | the walk returns the sequence |
| `FreeBlockQueue.Queue.BlocksAfter` | mods/qwen38-staticduo7-7f1a5398/overlays/v1/core/kv_cache_utils.py:464-483 | the walk from the head sentinel meets every block in order |
| `FreeBlockQueue.Queue.LinksDecideMembership` | mods/qwen38-staticduo7-7f1a5398/overlays/v1/core/kv_cache_utils.py:378-382 | a pool block has both links null exactly if it is not queued, so the guard of remove decides membership |
| `FreeBlockQueue.Queue.LinksDetermineFree` | mods/qwen38-staticduo7-7f1a5398/overlays/v1/core/kv_cache_utils.py:247-268 | the sequence can be read off the links alone |
| `FreeBlockQueue.Cut` | mods/qwen38-staticduo7-7f1a5398/overlays/v1/core/kv_cache_utils.py:378-391 | a chain with blocks taken out holds the others in order |
| `FreeBlockQueue.Splice` | mods/qwen38-staticduo7-7f1a5398/overlays/v1/core/kv_cache_utils.py:417-462 | a chain with blocks put in holds both in order |
| `FreeBlockQueue.SeamLinks` | mods/qwen38-staticduo7-7f1a5398/overlays/v1/core/kv_cache_utils.py:378-462 | all links away from the seam stay right |
| `BlockHasher.GenMediaKeys` | mods/qwen38-staticduo7-7f1a5398/overlays/v1/core/kv_cache_utils.py:500-565 | a scan from any index finds exactly the features from there on that overlap the block, and may be resumed from where it ends |
| `BlockHasher.ScanFeatures` | mods/qwen38-staticduo7-7f1a5398/overlays/v1/core/kv_cache_utils.py:536-565 | the loop passes only features that are over by the end of the block |
| `BlockHasher.MediaKeysAre` | mods/qwen38-staticduo7-7f1a5398/overlays/v1/core/kv_cache_utils.py:500-565 | a block has a key for exactly the features with a token in it, each naming the feature and where it begins relative to the block, in the order of their places |
| `BlockHasher.ExtraKeysAre` | mods/qwen38-staticduo7-7f1a5398/overlays/v1/core/kv_cache_utils.py:611-661 | the extra keys are adapter, media, salt, digest and dial in that order, salt and dial in the first block only, and none if there are none |
| `BlockHasher.AtOnceIs` | mods/qwen38-staticduo7-7f1a5398/overlays/v1/core/kv_cache_utils.py:841-897 | hashed at once, every full block has a hash: of the hash before, or the seed, of its own tokens, and of the extra keys of its place |
| `BlockHasher.InPiecesAre` | mods/qwen38-staticduo7-7f1a5398/overlays/v1/core/kv_cache_utils.py:841-897 | hashed in pieces likewise, with the keys of all features in the first call that hashes, and of the last feature in later ones |
| `BlockHasher.GenExtraKeys` | mods/qwen38-staticduo7-7f1a5398/overlays/v1/core/kv_cache_utils.py:611-661 | a resumed scan gives the extra keys of a complete one |
| `BlockHasher.LaterCallsIgnoreDial` | mods/qwen38-staticduo7-7f1a5398/overlays/v1/core/kv_cache_utils.py:641-650 | a call that does not hash the first block does not depend on the dial |
| `BlockHasher.OnlyTheFirstDialMatters` | mods/qwen38-staticduo7-7f1a5398/overlays/v1/core/kv_cache_utils.py:641-650 | however the dial moves between calls, only its setting at the call that hashes the first block matters |
| `BlockHasher.KeysTellPartsIff` | mods/qwen38-staticduo7-7f1a5398/overlays/v1/core/kv_cache_utils.py:611-661 | first blocks with equal keys have equal adapter, salt and dial if and only if the same of the three are present |
| `BlockHasher.AdapterReadsLikeSalt` | mods/qwen38-staticduo7-7f1a5398/overlays/v1/core/kv_cache_utils.py:630-661 | a concrete pair of requests, one with an adapter and one with a salt of that name, that share a hash |
| `BlockHasher.HashNewBlocks` | mods/qwen38-staticduo7-7f1a5398/overlays/v1/core/kv_cache_utils.py:854-897 | the loop hashes exactly the full blocks that have no hash yet |
| `BlockHasher.LaterScanIff` | mods/qwen38-staticduo7-7f1a5398/overlays/v1/core/kv_cache_utils.py:536-565 | beginning the scan at a later feature gives the same keys exactly if none in between overlaps, and fewer otherwise |
| `BlockHasher.NoMediaKeysBeyond` | mods/qwen38-staticduo7-7f1a5398/overlays/v1/core/kv_cache_utils.py:524-564 | no feature behind the block, or before it, contributes a key |
| `BlockHasher.ChainAt` | mods/qwen38-staticduo7-7f1a5398/overlays/v1/core/kv_cache_utils.py:664-694 | each hash is that of its block on top of the hash before |
| `BlockHasher.ChainSplit` | mods/qwen38-staticduo7-7f1a5398/overlays/v1/core/kv_cache_utils.py:841-897 | hashing on from the last hash continues the same chain |
| `BlockHasher.ChainOfPrefix` | mods/qwen38-staticduo7-7f1a5398/overlays/v1/core/kv_cache_utils.py:841-897 | tokens added later do not change earlier hashes |
| `BlockHasher.ChainFromIff` | mods/qwen38-staticduo7-7f1a5398/overlays/v1/core/kv_cache_utils.py:864-897 | leaving features out changes the hashes exactly when one reaches into the blocks |
| `BlockHasher.ResumeIff` | mods/qwen38-staticduo7-7f1a5398/overlays/v1/core/kv_cache_utils.py:864-897 | a call on correct hashes adds what hashing at once would give unless it misses a feature |
| `BlockHasher.InPiecesIsAtOnceIff` | mods/qwen38-staticduo7-7f1a5398/overlays/v1/core/kv_cache_utils.py:841-897 | for any sequence of growing lengths, hashing in pieces equals hashing at once if and only if no later call has a new block that a feature other than the last reaches into |
| `BlockHasher.EndedFeaturesAreNotMissed` | mods/qwen38-staticduo7-7f1a5398/overlays/v1/core/kv_cache_utils.py:862-868 | it is enough that all features but the last are over at each resume point |
| `BlockHasher.TwoInputsInThePartialBlock` | mods/qwen38-staticduo7-7f1a5398/overlays/v1/core/kv_cache_utils.py:862-868 | a concrete prompt whose hashes differ |
| `BlockHasher.SameHashIff` | mods/qwen38-staticduo7-7f1a5398/overlays/v1/core/kv_cache_utils.py:664-694 | two requests share a hash at a block exactly when tokens and extra keys agree in every block up to it |
| `BlockHasher.SamePieceIff` | mods/qwen38-staticduo7-7f1a5398/overlays/v1/core/kv_cache_utils.py:841-897 | hashed in any pieces, two requests share a hash at a block exactly when, in every block up to it, tokens agree and so do the keys of the features that the call which hashed it looked at |
| `BlockHasher.SeenSameCollides` | mods/qwen38-staticduo7-7f1a5398/overlays/v1/core/kv_cache_utils.py:841-897 | if that is so in all blocks, all their hashes are the same |
| `BlockHasher.MissedInputCollides` | mods/qwen38-staticduo7-7f1a5398/overlays/v1/core/kv_cache_utils.py:862-868 | two concrete prompts that differ in a feature, share all hashes when hashed in pieces, and do not when hashed at once |
| `BlockHasher.SameBlocksSameTokens` | mods/qwen38-staticduo7-7f1a5398/overlays/v1/core/kv_cache_utils.py:664-694 | then their tokens agree up to the end of the block |
| `BlockHasher.NoHashAtTwoDepths` | mods/qwen38-staticduo7-7f1a5398/overlays/v1/core/kv_cache_utils.py:664-694 | if the seed is not a hash, blocks at different depths never share one |
| `BlockHasher.PositionInRange` | mods/qwen38-staticduo7-7f1a5398/overlays/v1/core/kv_cache_utils.py:2874-2890 | the coarse hash is the last fine hash of the coarse block |
| `BlockHasher.CoarseHashMeansPrefix` | mods/qwen38-staticduo7-7f1a5398/overlays/v1/core/kv_cache_utils.py:2854-2890 | two requests share a coarse hash exactly when tokens and extra keys agree up to the end of the coarse block |
| `BlockHasher.NegativeIndexIff` | mods/qwen38-staticduo7-7f1a5398/overlays/v1/core/kv_cache_utils.py:2887-2890 | counting from the end reads the intended hash exactly when the fine hashes fill the coarse blocks |
| `BlockHasher.PackRoundTrip` | mods/qwen38-staticduo7-7f1a5398/overlays/v1/core/kv_cache_utils.py:75-94 | hash and group id come back from the packed key, which holds the id in its last four bytes, most significant first; packing fails exactly outside 32 bits |
| `GlmLayout.BalancedGroupCount` | mods/qwen38-staticduo7-7f1a5398/overlays/v1/core/kv_cache_utils.py:1184-1210 | the least group count that fits the whole model and every stage; none exactly if a stage has Mamba layers and no slot |
| `GlmLayout.StageStep` | mods/qwen38-staticduo7-7f1a5398/overlays/v1/core/kv_cache_utils.py:1201-1210 | one more stage raises the least count to what it needs |
| `GlmLayout.CountOn` | mods/qwen38-staticduo7-7f1a5398/overlays/v1/core/kv_cache_utils.py:1203-1204 | counts the layers a stage runs |
| `GlmLayout.DealOut` | mods/qwen38-staticduo7-7f1a5398/overlays/v1/core/kv_cache_utils.py:1284-1286 | the groups are the layers taken at every n-th position |
| `GlmLayout.StridedAt` | mods/qwen38-staticduo7-7f1a5398/overlays/v1/core/kv_cache_utils.py:1284-1286 | the k-th layer of the g-th of n groups is the one at k * n + g |
| `GlmLayout.EveryGroupFits` | mods/qwen38-staticduo7-7f1a5398/overlays/v1/core/kv_cache_utils.py:1284-1286 | dealt in model order, no group has more layers on a stage than the stage has slots |
| `GlmLayout.HitsEven` | mods/qwen38-staticduo7-7f1a5398/overlays/v1/core/kv_cache_utils.py:1284-1286 | of any stretch of positions a group gets at most its even share, rounded up |
| `GlmLayout.OutOfOrderOverflows` | mods/qwen38-staticduo7-7f1a5398/overlays/v1/core/kv_cache_utils.py:1284-1286 | out of model order two layers of a stage with one slot fall into one group |
| `GlmLayout.FitsWhateverTheSlotsIff` | mods/qwen38-staticduo7-7f1a5398/overlays/v1/core/kv_cache_utils.py:1184-1286 | in any order, no group overflows on any stage that the count fits if and only if no group has more than its even share of the stage's layers |
| `GlmLayout.ModelOrderIsEven` | mods/qwen38-staticduo7-7f1a5398/overlays/v1/core/kv_cache_utils.py:1284-1286 | in model order no group has more than its even share |
| `GlmLayout.PlaceSlots` | mods/qwen38-staticduo7-7f1a5398/overlays/v1/core/kv_cache_utils.py:1742-1747 | latent-attention layers and the Mamba layers of the same number share an offset |
| `GlmLayout.PlaceIndexers` | mods/qwen38-staticduo7-7f1a5398/overlays/v1/core/kv_cache_utils.py:1749-1761 | indexer layers and tails share an offset behind them |
| `GlmLayout.BuildLayout` | mods/qwen38-staticduo7-7f1a5398/overlays/v1/core/kv_cache_utils.py:1709-1761 | the list of tensors, in order |
| `GlmLayout.PlacedOnceIff` | mods/qwen38-staticduo7-7f1a5398/overlays/v1/core/kv_cache_utils.py:1742-1747 | a Mamba layer is placed once if the stage has a slot for it and otherwise not at all |
| `GlmLayout.LayoutIs` | mods/qwen38-staticduo7-7f1a5398/overlays/v1/core/kv_cache_utils.py:1709-1761 | a tensor is in the layout exactly if it is a latent-attention layer at its own slot, a Mamba layer at the slot of its number, or an indexer layer or tail at its slot behind all those, slot i beginning i pages times blocks on |
| `GlmLayout.OthersPlacedOnce` | mods/qwen38-staticduo7-7f1a5398/overlays/v1/core/kv_cache_utils.py:1742-1761 | every other layer of the stage is placed exactly once |
| `GlmLayout.BlocksCoverIff` | mods/qwen38-staticduo7-7f1a5398/overlays/v1/core/kv_cache_utils.py:1720-1761 | a byte lies in the buffer exactly if a block of some region holds it |
| `GlmLayout.BlocksAreDisjoint` | mods/qwen38-staticduo7-7f1a5398/overlays/v1/core/kv_cache_utils.py:1720-1761 | no byte lies in two blocks |
| `GlmLayout.MambaLayersOverlapOnly` | mods/qwen38-staticduo7-7f1a5398/overlays/v1/core/kv_cache_utils.py:1742-1747 | two Mamba layers share a byte only in the same block and with the same number in their groups, so never within a group |
| `GlmLayout.ProjectIs` | mods/qwen38-staticduo7-7f1a5398/overlays/v1/core/kv_cache_utils.py:2643-2664 | a stage keeps as many layers as lie in its range, each behind those of the range before it |
| `GlmLayout.ProjectLayers` | mods/qwen38-staticduo7-7f1a5398/overlays/v1/core/kv_cache_utils.py:2643-2664 | the loop keeps the layers the stage runs, in order |
| `GlmLayout.ProjectedIsDistinct` | mods/qwen38-staticduo7-7f1a5398/overlays/v1/core/kv_cache_utils.py:2643-2664 | after projection no layer is listed twice |
| `GlmLayout.EveryMambaLayerHasOnePlace` | mods/qwen38-staticduo7-7f1a5398/overlays/v1/core/kv_cache_utils.py:1742-1747 | a Mamba layer of the model has exactly one tensor on a stage that runs it, and none on the others |
| `GlmLayout.LayOutStage` | mods/qwen38-staticduo7-7f1a5398/overlays/v1/core/kv_cache_utils.py:1184-1286 | choosing the count, dealing out, projection and layout together: it fails exactly if a stage of several has Mamba layers and no slot, and otherwise yields the layout of the projected plan with the least number of groups that fits, in which each Mamba layer of the model has one tensor if the stage runs it and none if not |
| `Capacity.Config.constructor` | mods/qwen38-staticduo7-7f1a5398/overlays/v1/core/kv_cache_utils.py:2515-2524 | a configuration with its model length |
| `Capacity.Config.TryLength` | mods/qwen38-staticduo7-7f1a5398/overlays/v1/core/kv_cache_utils.py:2530-2542 | tries a length by writing it into the configuration |
| `Capacity.Config.EstimateMaxModelLen` | mods/qwen38-staticduo7-7f1a5398/overlays/v1/core/kv_cache_utils.py:2515-2558 | binary search finds the longest length that fits, and the configuration is restored |
| `Capacity.Config.AutoFit` | mods/qwen38-staticduo7-7f1a5398/overlays/v1/core/kv_cache_utils.py:2561-2622 | the new length is the longest that fits all ranks; it fails exactly if not even one token fits |
| `Capacity.Config.CheckEnoughMemory` | mods/qwen38-staticduo7-7f1a5398/overlays/v1/core/kv_cache_utils.py:900-937 | passes exactly if every rank has memory and room for a request of full length; the configuration is unchanged |
| `Capacity.FitsIff` | mods/qwen38-staticduo7-7f1a5398/overlays/v1/core/kv_cache_utils.py:2515-2558 | a length fits a rank exactly if its memory, or the override, holds one block more than a request of that length needs |
| `Capacity.AdmittedIff` | mods/qwen38-staticduo7-7f1a5398/overlays/v1/core/kv_cache_utils.py:900-937 | the check passes exactly if every rank has memory for more than one block and room for a request of full length |
| `Capacity.AllServeIff` | mods/qwen38-staticduo7-7f1a5398/overlays/v1/core/kv_cache_utils.py:2801-2817 | with the counts the ranks agree on, all can serve a full request exactly if each rank's memory holds, in its own blocks, what any rank needs and one more; always after a passed check if the needs are equal |
| `Capacity.AgreedIff` | mods/qwen38-staticduo7-7f1a5398/overlays/v1/core/kv_cache_utils.py:2801-2817 | the agreed count reaches a number exactly if the memory of every rank holds that many of its blocks |
| `Capacity.BlocksIff` | mods/qwen38-staticduo7-7f1a5398/overlays/v1/core/kv_cache_utils.py:2801-2817 | a rank has that many blocks exactly if its memory holds them |
| `Capacity.UnequalNeedsCanFail` | mods/qwen38-staticduo7-7f1a5398/overlays/v1/core/kv_cache_utils.py:2801-2817 | two ranks that pass and then agree on too few blocks |
| `Capacity.AgreeOnBlocks` | mods/qwen38-staticduo7-7f1a5398/overlays/v1/core/kv_cache_utils.py:2801-2817 | every rank ends with the least count |
| `Capacity.FittedIsAdmitted` | mods/qwen38-staticduo7-7f1a5398/overlays/v1/core/kv_cache_utils.py:2774-2786 | a fitted length passes the check |
| `Capacity.PlanCache` | mods/qwen38-staticduo7-7f1a5398/overlays/v1/core/kv_cache_utils.py:2667-2817 | fit, check and agreement together: success exactly when it should be, with the longest length and equal counts, which serve all ranks exactly under that condition |
| `Capacity.ExactBlocks` | mods/qwen38-staticduo7-7f1a5398/overlays/v1/core/kv_cache_utils.py:2810-2815 | re-planning with the memory of the fewest gives exactly the fewest |
| `SurvivalEstimator.ExposuresCount` | mods/qwen38-staticduo7-7f1a5398/overlays/v1/core/sched/qwen_mtp_adaptive.py:103-111 | the loop count of exposures is the number of observations that reached the position |
| `SurvivalEstimator.HitsCount` | mods/qwen38-staticduo7-7f1a5398/overlays/v1/core/sched/qwen_mtp_adaptive.py:103-111 | the loop count of hits is the number of those in which it was accepted |
| `SurvivalEstimator.CountsAreNested` | mods/qwen38-staticduo7-7f1a5398/overlays/v1/core/sched/qwen_mtp_adaptive.py:103-111 | a position is exposed no more often than the one before is accepted, and that no more than it is exposed |
| `SurvivalEstimator.Censored` | mods/qwen38-staticduo7-7f1a5398/overlays/v1/core/sched/qwen_mtp_adaptive.py:103-111 | a step says nothing about positions it did not verify |
| `SurvivalEstimator.CountAcceptance` | mods/qwen38-staticduo7-7f1a5398/overlays/v1/core/sched/qwen_mtp_adaptive.py:105-111 | the nested loops compute both counts |
| `SurvivalEstimator.CountRecord` | mods/qwen38-staticduo7-7f1a5398/overlays/v1/core/sched/qwen_mtp_adaptive.py:105-111 | one step's share of the counts |
| `SurvivalEstimator.CountRequest` | mods/qwen38-staticduo7-7f1a5398/overlays/v1/core/sched/qwen_mtp_adaptive.py:107-111 | one request's share of the counts |
| `SurvivalEstimator.MedianIsPositive` | mods/qwen38-staticduo7-7f1a5398/overlays/v1/core/sched/qwen_mtp_adaptive.py:116-118 | the median of positive measurements is positive |
| `SurvivalEstimator.Sort` | mods/qwen38-staticduo7-7f1a5398/overlays/v1/core/sched/qwen_mtp_adaptive.py:116-118 | sorted and a permutation |
| `SurvivalEstimator.AcceptanceIs` | mods/qwen38-staticduo7-7f1a5398/overlays/v1/core/sched/qwen_mtp_adaptive.py:112-115 | the estimate is halfway between the rates that one more observation, rejected or accepted, would give, so off the observed rate by at most half of one observation in one more than there are, and at least one half exactly if at least half of the observations are hits; without observations it stays |
| `SurvivalEstimator.OneMoreTells` | mods/qwen38-staticduo7-7f1a5398/overlays/v1/core/sched/qwen_mtp_adaptive.py:103-115 | one more observed request raises the estimate of a position exactly if the position was verified and accepted, and lowers it exactly if it was verified and the first to be rejected |
| `SurvivalEstimator.OneMore` | mods/qwen38-staticduo7-7f1a5398/overlays/v1/core/sched/qwen_mtp_adaptive.py:103-111 | how one more observed request changes the observations of a position |
| `SurvivalEstimator.MedianIs` | mods/qwen38-staticduo7-7f1a5398/overlays/v1/core/sched/qwen_mtp_adaptive.py:116-118 | in whatever way the values are put in order, the median is halfway between the two in the middle |
| `SurvivalEstimator.RawCostIs` | mods/qwen38-staticduo7-7f1a5398/overlays/v1/core/sched/qwen_mtp_adaptive.py:116-118 | the cost of a depth is the median of its own measurements once there are four, and the assumed one at the measured scale before |
| `SurvivalEstimator.AtFirst` | mods/qwen38-staticduo7-7f1a5398/overlays/v1/core/sched/qwen_mtp_adaptive.py:24-26 | without measurements the depths cost 40, 46, 51 and 56 milliseconds |
| `SurvivalEstimator.CostIsLeast` | mods/qwen38-staticduo7-7f1a5398/overlays/v1/core/sched/qwen_mtp_adaptive.py:119-122 | the costs are the least that are as high as measured, or assumed, and grow by one percent a depth |
| `SurvivalEstimator.RewardIsExpected` | mods/qwen38-staticduo7-7f1a5398/overlays/v1/core/sched/qwen_mtp_adaptive.py:123-128 | the reward is the average yield of a step whose drafts are checked one after another until one is rejected |
| `SurvivalEstimator.ScoreIs` | mods/qwen38-staticduo7-7f1a5398/overlays/v1/core/sched/qwen_mtp_adaptive.py:123-129 | the score is that yield over the cost |
| `SurvivalEstimator.ScoreRises` | mods/qwen38-staticduo7-7f1a5398/overlays/v1/core/sched/qwen_mtp_adaptive.py:123-129 | where no estimate falls no score falls, and a score rises exactly if the estimate of a position that its depth verifies rises |
| `SurvivalEstimator.AcceptedSpeaksForDepth` | mods/qwen38-staticduo7-7f1a5398/overlays/v1/core/sched/qwen_mtp_adaptive.py:102-129 | one more accepted draft raises the score of exactly the depths that verify its position, and one more rejected draft lowers them |
| `SurvivalEstimator.AcceptanceIsProper` | mods/qwen38-staticduo7-7f1a5398/overlays/v1/core/sched/qwen_mtp_adaptive.py:112-115 | each estimate lies strictly between zero and one |
| `SurvivalEstimator.SurvivalDecreases` | mods/qwen38-staticduo7-7f1a5398/overlays/v1/core/sched/qwen_mtp_adaptive.py:123-128 | the chance of surviving strictly decreases with depth |
| `SurvivalEstimator.CostsIncrease` | mods/qwen38-staticduo7-7f1a5398/overlays/v1/core/sched/qwen_mtp_adaptive.py:116-122 | costs are positive and each depth costs at least one percent more than the one before |
| `SurvivalEstimator.UpperRewardBounds` | mods/qwen38-staticduo7-7f1a5398/overlays/v1/core/sched/qwen_mtp_adaptive.py:150-150 | whatever the next position's acceptance, the deeper step yields no more than the gate assumes, and that much if it is certain |
| `SurvivalEstimator.GateMissesNothing` | mods/qwen38-staticduo7-7f1a5398/overlays/v1/core/sched/qwen_mtp_adaptive.py:147-152 | if the gate stays shut no acceptance there would be better by more than four percent |
| `DepthController.RunKeeps` | mods/qwen38-staticduo7-7f1a5398/overlays/v1/core/sched/qwen_mtp_adaptive.py:45-197 | in every run of calls, clock readings and control-file contents: depth 1 to 4 and the fixed one in fixed mode; while probing one above the anchor with the observations counted; otherwise no decision overdue; estimates proper |
| `DepthController.RecordsAreSettled` | mods/qwen38-staticduo7-7f1a5398/overlays/v1/core/sched/qwen_mtp_adaptive.py:164-190 | a measurement is taken only after two other matching steps, with depth and batch unchanged since before the first |
| `DepthController.SettleStep` | mods/qwen38-staticduo7-7f1a5398/overlays/v1/core/sched/qwen_mtp_adaptive.py:169-179 | only a matching step brings the settling count down, by one; a new depth or batch sets it to two |
| `DepthController.LeavingNeedsMargin` | mods/qwen38-staticduo7-7f1a5398/overlays/v1/core/sched/qwen_mtp_adaptive.py:131-139 | without a probe the incumbent is left exactly if some depth is better by the margin, and for the first of the best; a probe that has run out starts no other |
| `DepthController.WinnerIs` | mods/qwen38-staticduo7-7f1a5398/overlays/v1/core/sched/qwen_mtp_adaptive.py:134-137 | the incumbent wins exactly if no depth is better by the margin, and otherwise the first of the best |
| `DepthController.ProbeBeginsIff` | mods/qwen38-staticduo7-7f1a5398/overlays/v1/core/sched/qwen_mtp_adaptive.py:147-162 | when exactly a probe begins, and the whole course after a decision: a probe looks one position further and settles anew |
| `DepthController.CouldPayIff` | mods/qwen38-staticduo7-7f1a5398/overlays/v1/core/sched/qwen_mtp_adaptive.py:147-152 | the gate opens exactly if the next position has not been observed and with some acceptance there the deeper step would be better by more than four percent |
| `DepthController.ChosenIs` | mods/qwen38-staticduo7-7f1a5398/overlays/v1/core/sched/qwen_mtp_adaptive.py:60-92 | settings change exactly when the file is read, at most once a second, and holds others within the limits; then, and for another batch, everything starts anew, and otherwise nothing changes |
| `DepthController.EstimatedIs` | mods/qwen38-staticduo7-7f1a5398/overlays/v1/core/sched/qwen_mtp_adaptive.py:103-115 | a position counts as seen from its first observation on, and only observations change its estimate |
| `DepthController.CountsIff` | mods/qwen38-staticduo7-7f1a5398/overlays/v1/core/sched/qwen_mtp_adaptive.py:164-185 | a measurement is taken exactly if the controller is adaptive and settled, the batch is the one it chose for, every request ran the chosen depth, some tokens came out of each, and the time is between zero and two seconds |
| `DepthController.NotCounted` | mods/qwen38-staticduo7-7f1a5398/overlays/v1/core/sched/qwen_mtp_adaptive.py:164-185 | any other observation changes only the time and the settling: a step of another kind begins it again, a matching one brings it on |
| `DepthController.RecordIs` | mods/qwen38-staticduo7-7f1a5398/overlays/v1/core/sched/qwen_mtp_adaptive.py:186-186 | a measurement records the depth and, for each request, the tokens that came out but one |
| `DepthController.Counting` | mods/qwen38-staticduo7-7f1a5398/overlays/v1/core/sched/qwen_mtp_adaptive.py:186-188 | a measurement is added behind the newest ones of its queues |
| `DepthController.DueIff` | mods/qwen38-staticduo7-7f1a5398/overlays/v1/core/sched/qwen_mtp_adaptive.py:189-197 | a decision is due exactly with the last measurement of a probe or, outside of one, with as many as the interval, and nothing is decided otherwise |
| `DepthController.NoProbeMissesNothing` | mods/qwen38-staticduo7-7f1a5398/overlays/v1/core/sched/qwen_mtp_adaptive.py:147-155 | staying without probing an unseen position forgoes at most four percent |
| `DepthController.Best` | mods/qwen38-staticduo7-7f1a5398/overlays/v1/core/sched/qwen_mtp_adaptive.py:135-135 | the first depth with the greatest score |
| `DepthController.PushesKeepNewest` | mods/qwen38-staticduo7-7f1a5398/overlays/v1/core/sched/qwen_mtp_adaptive.py:50-52 | however many entries came, a bounded queue holds the newest of them in order, as many as it may |
| `DepthController.ChosenKeeps` | mods/qwen38-staticduo7-7f1a5398/overlays/v1/core/sched/qwen_mtp_adaptive.py:60-92 | reading the control file or meeting another batch keeps all of this |
| `DepthController.ObservedKeeps` | mods/qwen38-staticduo7-7f1a5398/overlays/v1/core/sched/qwen_mtp_adaptive.py:164-197 | so does every observation |
| `DepthController.ScoresArePositive` | mods/qwen38-staticduo7-7f1a5398/overlays/v1/core/sched/qwen_mtp_adaptive.py:123-129 | scores are positive, so margins are meaningful |
| `DepthController.Controller.constructor` | mods/qwen38-staticduo7-7f1a5398/overlays/v1/core/sched/qwen_mtp_adaptive.py:36-43 | adaptive, depth three, nothing measured |
| `DepthController.Controller.ForgetMeasurements` | mods/qwen38-staticduo7-7f1a5398/overlays/v1/core/sched/qwen_mtp_adaptive.py:50-54 | all measurements and estimates are those of a fresh start |
| `DepthController.Controller.StartOver` | mods/qwen38-staticduo7-7f1a5398/overlays/v1/core/sched/qwen_mtp_adaptive.py:46-57 | depth, counters and anchor are those of a fresh start |
| `DepthController.Controller.ResetAll` | mods/qwen38-staticduo7-7f1a5398/overlays/v1/core/sched/qwen_mtp_adaptive.py:45-58 | a reset leaves exactly the fresh state for the mode |
| `DepthController.Controller.Refresh` | mods/qwen38-staticduo7-7f1a5398/overlays/v1/core/sched/qwen_mtp_adaptive.py:60-84 | only a file in order that differs resets, at most once a second |
| `DepthController.Controller.ChooseDepth` | mods/qwen38-staticduo7-7f1a5398/overlays/v1/core/sched/qwen_mtp_adaptive.py:86-92 | another batch resets; the depth is returned |
| `DepthController.Controller.Switch` | mods/qwen38-staticduo7-7f1a5398/overlays/v1/core/sched/qwen_mtp_adaptive.py:94-100 | a new depth must settle |
| `DepthController.Controller.Estimate` | mods/qwen38-staticduo7-7f1a5398/overlays/v1/core/sched/qwen_mtp_adaptive.py:102-115 | the estimates are those of the records, others stay |
| `DepthController.Controller.PickWinner` | mods/qwen38-staticduo7-7f1a5398/overlays/v1/core/sched/qwen_mtp_adaptive.py:133-137 | the loop finds the winner |
| `DepthController.Controller.WantsProbe` | mods/qwen38-staticduo7-7f1a5398/overlays/v1/core/sched/qwen_mtp_adaptive.py:147-155 | whether a probe is wanted, as the gate says |
| `DepthController.Controller.Decide` | mods/qwen38-staticduo7-7f1a5398/overlays/v1/core/sched/qwen_mtp_adaptive.py:131-162 | a decision is exactly the specified one |
| `DepthController.Controller.Note` | mods/qwen38-staticduo7-7f1a5398/overlays/v1/core/sched/qwen_mtp_adaptive.py:186-188 | a measurement in bounded queues |
| `DepthController.Controller.CountStep` | mods/qwen38-staticduo7-7f1a5398/overlays/v1/core/sched/qwen_mtp_adaptive.py:189-197 | counts and says whether a decision is due |
| `DepthController.Controller.Take` | mods/qwen38-staticduo7-7f1a5398/overlays/v1/core/sched/qwen_mtp_adaptive.py:186-197 | a measurement and, if due, a decision |
| `DepthController.Controller.ObserveStep` | mods/qwen38-staticduo7-7f1a5398/overlays/v1/core/sched/qwen_mtp_adaptive.py:164-197 | an observation is exactly the specified transition |
| `GlobalDial.RunKeeps` | mods/qwen38-staticduo7-7f1a5398/overlays/entrypoints/serve/refusal/api_router.py:88-154 | in every interleaving with any await failing or cancelled and effects landing late: the lock, the phase of its holder and what blocked means |
| `GlobalDial.OneTransactionAtATime` | mods/qwen38-staticduo7-7f1a5398/overlays/entrypoints/serve/refusal/api_router.py:95-154 | at most one handler is between its pause and its answer |
| `GlobalDial.BlockedIsFinal` | mods/qwen38-staticduo7-7f1a5398/overlays/entrypoints/serve/refusal/api_router.py:136-152 | once blocked the dial stays blocked, and no pause, set, readback or resume is issued any more |
| `GlobalDial.RanksDisagreeOnlyWhilePaused` | mods/qwen38-staticduo7-7f1a5398/overlays/entrypoints/serve/refusal/api_router.py:111-137 | ranks differ only while the lock holder sets them or when blocked with no resume since; the engine is then paused unless somebody else resumed it |
| `GlobalDial.SuccessMeansDone` | mods/qwen38-staticduo7-7f1a5398/overlays/entrypoints/serve/refusal/api_router.py:111-154 | a success means pause, set, readback and resume of this handler with nothing in between, and all ranks at the value |
| `GlobalDial.StepIssues` | mods/qwen38-staticduo7-7f1a5398/overlays/entrypoints/serve/refusal/api_router.py:105-136 | which operation each step issues: a pause if the engine runs, a setting only after a pause that holds and with nothing pending, a readback only if every rank has confirmed the setting, a resume only if every rank has read back the value, or to back out |
| `GlobalDial.StepStarts` | mods/qwen38-staticduo7-7f1a5398/overlays/entrypoints/serve/refusal/api_router.py:113-136 | what is under way is exactly what these have started and has not landed |
| `GlobalDial.StepChangesEngine` | mods/qwen38-staticduo7-7f1a5398/overlays/entrypoints/serve/refusal/api_router.py:111-136 | the engine is paused or resumed, and a rank changed, exactly when that lands, or from outside |
| `GlobalDial.StepBlocksIff` | mods/qwen38-staticduo7-7f1a5398/overlays/entrypoints/serve/refusal/api_router.py:136-152 | the dial is blocked exactly by a failure or cancellation from the pause on, a pause that did not hold, and a setting or readback that some rank has not confirmed to a billionth |
| `GlobalDial.StepAnswers` | mods/qwen38-staticduo7-7f1a5398/overlays/entrypoints/serve/refusal/api_router.py:99-178 | where each step leaves its handler, what it answers, and that it changes nobody else's |
| `GlobalDial.OnlyResumeDoneSucceeds` | mods/qwen38-staticduo7-7f1a5398/overlays/entrypoints/serve/refusal/api_router.py:111-154 | there is no other way to a success |
| `GlobalDial.ReaderIsConsistent` | mods/qwen38-staticduo7-7f1a5398/overlays/entrypoints/serve/refusal/api_router.py:157-181 | a reader that answers unblocked reports the last value set, as consistent |
| `GlobalDial.ReadbackPassesIff` | mods/qwen38-staticduo7-7f1a5398/overlays/entrypoints/serve/refusal/api_router.py:61-70 | the readback passes exactly when the value survives the rounding |
| `GlobalDial.UndisturbedSucceedsIff` | mods/qwen38-staticduo7-7f1a5398/overlays/entrypoints/serve/refusal/api_router.py:88-154 | in every interleaving, whoever else is queueing: a setter that meets the engine running and is not failed, and beside which no outsider touches the engine, ends in success exactly if its value survives the rounding, and otherwise with the dial blocked |
| `GlobalDial.LeftAloneSucceedsIff` | mods/qwen38-staticduo7-7f1a5398/overlays/entrypoints/serve/refusal/api_router.py:88-154 | and there is such a run, from any idle state |
| `GlobalDial.LegalValueBlocks` | mods/qwen38-staticduo7-7f1a5398/overlays/entrypoints/serve/refusal/api_router.py:129-133 | a tenth, stored in single precision, always ends in a blocked dial |
| `GlobalDial.SingleRounding` | mods/qwen38-staticduo7-7f1a5398/overlays/entrypoints/serve/refusal/api_router.py:61-70 | a tenth is not within the tolerance of its 24-bit rounding, three halves are |
| `GlobalDial.BlockingKeeps` | mods/qwen38-staticduo7-7f1a5398/overlays/entrypoints/serve/refusal/api_router.py:136-152 | a handler that gives up inside its transaction leaves a state that is safe to keep blocked |
| `GlobalDial.SetKeeps` | mods/qwen38-staticduo7-7f1a5398/overlays/entrypoints/serve/refusal/api_router.py:122-127 | after the setter call all ranks have the value |
| `GlobalDial.LandKeeps` | mods/qwen38-staticduo7-7f1a5398/overlays/entrypoints/serve/refusal/api_router.py:108-137 | effects that land late never break the invariant |
| `DraftPrefill.CopyShifted` | mods/qwen38-staticduo7-7f1a5398/overlays/v1/worker/gpu/spec_decode/autoregressive/speculator.py:761-766 | the masked blocked loop copies a stretch one place to the left and nothing else |
| `DraftPrefill.CopyStretch` | mods/qwen38-staticduo7-7f1a5398/overlays/v1/worker/gpu/spec_decode/autoregressive/speculator.py:772-777 | the masked blocked loop copies a stretch |
| `DraftPrefill.Fill` | mods/qwen38-staticduo7-7f1a5398/overlays/v1/worker/gpu/spec_decode/autoregressive/speculator.py:786-800 | the masked blocked loop fills a stretch |
| `DraftPrefill.Buffers.constructor` | mods/qwen38-staticduo7-7f1a5398/overlays/v1/worker/gpu/spec_decode/autoregressive/speculator.py:721-739 | buffers of the right sizes |
| `DraftPrefill.Buffers.ShiftIds` | mods/qwen38-staticduo7-7f1a5398/overlays/v1/worker/gpu/spec_decode/autoregressive/speculator.py:761-770 | a program's ids: the true input shifted, and the next token |
| `DraftPrefill.Buffers.CopyPositions` | mods/qwen38-staticduo7-7f1a5398/overlays/v1/worker/gpu/spec_decode/autoregressive/speculator.py:772-777 | a program's positions |
| `DraftPrefill.Buffers.StoreEntry` | mods/qwen38-staticduo7-7f1a5398/overlays/v1/worker/gpu/spec_decode/autoregressive/speculator.py:779-800 | a program's entry and the padding of the last one |
| `DraftPrefill.Buffers.Program` | mods/qwen38-staticduo7-7f1a5398/overlays/v1/worker/gpu/spec_decode/autoregressive/speculator.py:721-800 | a program stores exactly its cells in each buffer |
| `DraftPrefill.Buffers.Grid` | mods/qwen38-staticduo7-7f1a5398/overlays/v1/worker/gpu/spec_decode/autoregressive/speculator.py:721-800 | the programs in any order leave the buffers as their stores say |
| `DraftPrefill.StoresAreDisjoint` | mods/qwen38-staticduo7-7f1a5398/overlays/v1/worker/gpu/spec_decode/autoregressive/speculator.py:721-800 | no two programs store in the same cell |
| `DraftPrefill.AnyOrder` | mods/qwen38-staticduo7-7f1a5398/overlays/v1/worker/gpu/spec_decode/autoregressive/speculator.py:721-800 | agreeing stores may be done in any order and any portions |
| `DraftPrefill.PiecesDoNotMatter` | mods/qwen38-staticduo7-7f1a5398/overlays/v1/worker/gpu/spec_decode/autoregressive/speculator.py:721-800 | even interleaved store by store the outcome is the same |
| `DraftPrefill.RequestsAreShifted` | mods/qwen38-staticduo7-7f1a5398/overlays/v1/worker/gpu/spec_decode/autoregressive/speculator.py:753-777 | each request has its true input shifted by one, then its next token, and its positions |
| `DraftPrefill.RestIsUntouched` | mods/qwen38-staticduo7-7f1a5398/overlays/v1/worker/gpu/spec_decode/autoregressive/speculator.py:761-777 | all other cells are as before |
| `DraftPrefill.EntriesAreComplete` | mods/qwen38-staticduo7-7f1a5398/overlays/v1/worker/gpu/spec_decode/autoregressive/speculator.py:768-800 | starts, lengths and last tokens by request, padded behind |
| `DraftDecode.DraftSees` | mods/qwen38-staticduo7-7f1a5398/overlays/v1/worker/gpu/spec_decode/autoregressive/speculator.py:545-579 | the first draft comes from the first pass, each later one from the draft before at the clamped position, length and key of its step |
| `DraftDecode.StepsOn` | mods/qwen38-staticduo7-7f1a5398/overlays/v1/worker/gpu/spec_decode/autoregressive/speculator.py:983-994 | clamping position and length step by step is clamping once |
| `DraftDecode.WithinModelLength` | mods/qwen38-staticduo7-7f1a5398/overlays/v1/worker/gpu/spec_decode/autoregressive/speculator.py:883-894 | no step sees a position or length past the model length, and the sequence ends at the position seen |
| `DraftDecode.Buffers.constructor` | mods/qwen38-staticduo7-7f1a5398/overlays/v1/worker/gpu/spec_decode/autoregressive/speculator.py:843-857 | buffers of the right sizes |
| `DraftDecode.Buffers.Prepare` | mods/qwen38-staticduo7-7f1a5398/overlays/v1/worker/gpu/spec_decode/autoregressive/speculator.py:875-894 | a request's inputs become those of step one, other requests' stay |
| `DraftDecode.Buffers.PrepareRest` | mods/qwen38-staticduo7-7f1a5398/overlays/v1/worker/gpu/spec_decode/autoregressive/speculator.py:860-873 | one query per request, the rest padded |
| `DraftDecode.Buffers.PrepareAll` | mods/qwen38-staticduo7-7f1a5398/overlays/v1/worker/gpu/spec_decode/autoregressive/speculator.py:858-894 | all programs together make every request ready for step one and pad the rest |
| `DraftDecode.Buffers.Step` | mods/qwen38-staticduo7-7f1a5398/overlays/v1/worker/gpu/spec_decode/autoregressive/speculator.py:926-994 | a step writes its column and prepares the next step, for one request only |
| `DraftDecode.Buffers.StepAll` | mods/qwen38-staticduo7-7f1a5398/overlays/v1/worker/gpu/spec_decode/autoregressive/speculator.py:926-994 | a step writes one column for every request and touches no other row or column |
| `DraftDecode.Buffers.Propose` | mods/qwen38-staticduo7-7f1a5398/overlays/v1/worker/gpu/spec_decode/autoregressive/speculator.py:545-579 | for any depth, column s holds the draft computed from position min(p + s, M - 1), length min(L - r + s, M) and its key; columns behind and other rows are untouched |
| `CudaGraphIndex.GroupIs` | mods/qwen38-staticduo7-7f1a5398/overlays/v1/worker/gpu/cudagraph_utils.py:375-389 | the candidates are exactly the graphs of the least size that holds the tokens |
| `CudaGraphIndex.FillRange` | mods/qwen38-staticduo7-7f1a5398/overlays/v1/worker/gpu/cudagraph_utils.py:386-388 | appends the group to a range of counts |
| `CudaGraphIndex.GroupEnd` | mods/qwen38-staticduo7-7f1a5398/overlays/v1/worker/gpu/cudagraph_utils.py:384-385 | the run of equal sizes |
| `CudaGraphIndex.AddGroup` | mods/qwen38-staticduo7-7f1a5398/overlays/v1/worker/gpu/cudagraph_utils.py:384-389 | a group covers the counts down to the next smaller one |
| `CudaGraphIndex.AddCase` | mods/qwen38-staticduo7-7f1a5398/overlays/v1/worker/gpu/cudagraph_utils.py:378-389 | the range-filling loop gives every count its least group |
| `CudaGraphIndex.AddMode` | mods/qwen38-staticduo7-7f1a5398/overlays/v1/worker/gpu/cudagraph_utils.py:377-389 | the table gets the groups of every captured adapter case, and only those |
| `CudaGraphIndex.InitCandidates` | mods/qwen38-staticduo7-7f1a5398/overlays/v1/worker/gpu/cudagraph_utils.py:375-389 | each count and case has the least full group, then the least piecewise group |
| `CudaGraphIndex.OfLoraSplits` | mods/qwen38-staticduo7-7f1a5398/overlays/v1/worker/gpu/cudagraph_utils.py:378-380 | the graphs of a case keep their order and multiplicity |
| `CudaGraphIndex.OfLoraAscends` | mods/qwen38-staticduo7-7f1a5398/overlays/v1/worker/gpu/cudagraph_utils.py:378-380 | they are in order of size if all graphs are |
| `CudaGraphIndex.TooSmall` | mods/qwen38-staticduo7-7f1a5398/overlays/v1/worker/gpu/cudagraph_utils.py:381-389 | the graphs that do not hold the tokens |
| `CudaGraphIndex.NextCase` | mods/qwen38-staticduo7-7f1a5398/overlays/v1/worker/gpu/cudagraph_utils.py:210-212 | the least captured case that serves the count |
| `CudaGraphIndex.BuildLoraMap` | mods/qwen38-staticduo7-7f1a5398/overlays/v1/worker/gpu/cudagraph_utils.py:196-213 | every count up to the largest case is mapped to the least that serves it |
| `CudaGraphIndex.ResolveIs` | mods/qwen38-staticduo7-7f1a5398/overlays/v1/worker/gpu/cudagraph_utils.py:215-220 | a count is served by the least large enough case, or the largest |
| `CudaGraphIndex.Positive` | mods/qwen38-staticduo7-7f1a5398/overlays/v1/worker/gpu/cudagraph_utils.py:204-204 | the captured cases with adapters, in order |
| `CudaGraphIndex.CompatibleIff` | mods/qwen38-staticduo7-7f1a5398/overlays/v1/worker/gpu/cudagraph_utils.py:117-130 | told the requests' query lengths, a graph is compatible exactly if it was captured for the adapters and microbatches and has room for the requests, their sum and each of them, and for their one length if it has one |
| `CudaGraphIndex.Dispatch` | mods/qwen38-staticduo7-7f1a5398/overlays/v1/worker/gpu/cudagraph_utils.py:502-532 | returns the first compatible candidate, which takes the requests, or else the batch's own shape without a graph |
| `CudaGraphIndex.PrefillIsNotADecode` | mods/qwen38-staticduo7-7f1a5398/overlays/v1/worker/gpu/cudagraph_utils.py:122-125 | a graph that bounds a query is never compatible with a batch that has a longer one |
| `CudaGraphIndex.FoundIsLeast` | mods/qwen38-staticduo7-7f1a5398/overlays/v1/worker/gpu/cudagraph_utils.py:512-526 | what is found was captured and takes the requests, no smaller graph of its mode that takes them was captured, and piecewise comes second |
| `CudaGraphIndex.GroupOfLoraIs` | mods/qwen38-staticduo7-7f1a5398/overlays/v1/worker/gpu/cudagraph_utils.py:375-389 | the candidates of a mode are exactly its captured graphs of the case than which no smaller one holds the tokens |
| `CudaGraphIndex.FindsIff` | mods/qwen38-staticduo7-7f1a5398/overlays/v1/worker/gpu/cudagraph_utils.py:512-526 | a graph is found exactly if a captured one takes the requests and, of those of its mode and case that hold the tokens, none is smaller |
| `CudaGraphIndex.MissesIff` | mods/qwen38-staticduo7-7f1a5398/overlays/v1/worker/gpu/cudagraph_utils.py:512-526 | captured graphs would do and none is found exactly if some takes the requests and each that does has a smaller one of its mode and case that holds the tokens |
| `CudaGraphIndex.LargerGraphIsMissed` | mods/qwen38-staticduo7-7f1a5398/overlays/v1/worker/gpu/cudagraph_utils.py:512-526 | two graphs of which the larger would do and is not found |
| `TokenLambda.Expand` | mods/qwen38-staticduo7-7f1a5398/overlays/refusal_projection.py:411-426 | runs of equal values: rows of the requests before the first without tokens have their owner's value, the rows from there on the common one |
| `TokenLambda.ExpandedIsOneValue` | mods/qwen38-staticduo7-7f1a5398/overlays/refusal_projection.py:411-426 | what is said of a row leaves it one value |
| `TokenLambda.ExactIff` | mods/qwen38-staticduo7-7f1a5398/overlays/refusal_projection.py:411-426 | if no count is negative, every row has its owner's value if and only if no request with tokens behind the first without has rows in the batch that should have another than the common value |
| `TokenLambda.PositiveIsExact` | mods/qwen38-staticduo7-7f1a5398/overlays/refusal_projection.py:411-426 | if all counts are positive every row has its owner's value |
| `TokenLambda.Total` | mods/qwen38-staticduo7-7f1a5398/overlays/refusal_projection.py:398-398 | the number of rows |
| `TokenLambda.OneOwner` | mods/qwen38-staticduo7-7f1a5398/overlays/refusal_projection.py:413-426 | a row has one owner |
| `TokenLambda.SomeOwner` | mods/qwen38-staticduo7-7f1a5398/overlays/refusal_projection.py:413-426 | every row of the batch has an owner |
| `TokenLambda.Buffer.constructor` | mods/qwen38-staticduo7-7f1a5398/overlays/refusal_projection.py:98-109 | all rows have the common value |
| `TokenLambda.Buffer.Fill` | mods/qwen38-staticduo7-7f1a5398/overlays/refusal_projection.py:392-393 | all rows get the value |
| `TokenLambda.Buffer.FillNeutral` | mods/qwen38-staticduo7-7f1a5398/overlays/refusal_projection.py:442-447 | all rows get the common value |
| `TokenLambda.Buffer.FillTarget` | mods/qwen38-staticduo7-7f1a5398/overlays/refusal_projection.py:371-439 | the rows of the batch are as expanded and all others have the common value; everything has the common value if there is no batch or it does not fit |
| `TokenLambda.ZeroCountEndsEarly` | mods/qwen38-staticduo7-7f1a5398/overlays/refusal_projection.py:414-418 | a concrete batch, expanded, whose first count is zero and whose second request does not get its value |
| `TokenLambda.RunKeeps` | mods/qwen38-staticduo7-7f1a5398/overlays/v1/worker/gpu/model_runner.py:1076-1107 | in every run of additions, finishes and preemptions the mirror is the slot table and free slots are clean |
| `TokenLambda.NobodyInherits` | mods/qwen38-staticduo7-7f1a5398/overlays/v1/worker/gpu/model_runner.py:1162-1202 | a live request's slot has the value it came with, whoever had the slot before |
| `TokenLambda.RowsFollowRequests` | mods/qwen38-staticduo7-7f1a5398/overlays/v1/worker/gpu/model_runner.py:1162-1202 | so, once the buffer is filled for a batch that fits, each of its rows, no request before it being without tokens, has that value, or the common one if it came without |
| `TokenLambda.EveryRowFollowsOne` | mods/qwen38-staticduo7-7f1a5398/overlays/v1/worker/gpu/model_runner.py:1162-1202 | and each row of the batch before the first request without tokens is such a row: it belongs to a request of the batch |
| `TokenLambda.FinishedAreGone` | mods/qwen38-staticduo7-7f1a5398/overlays/v1/worker/gpu/model_runner.py:1095-1107 | finished and preempted requests leave, their slots hold nothing, and nobody else loses slot or value |
| `TokenLambda.RemovedIs` | mods/qwen38-staticduo7-7f1a5398/overlays/v1/worker/gpu/model_runner.py:1076-1093 | one request leaves and its slot holds nothing |
| `TokenLambda.AddedIs` | mods/qwen38-staticduo7-7f1a5398/overlays/v1/worker/gpu/model_runner.py:1162-1202 | a request that comes in has the slot and what it came with, and every other keeps both |
| `TokenLambda.FreeSlotIsClean` | mods/qwen38-staticduo7-7f1a5398/overlays/v1/worker/gpu/refusal_utils.py:52-56 | nothing is left in a free slot |
| `TokenLambda.SlotAddedMirrorsIff` | mods/qwen38-staticduo7-7f1a5398/overlays/v1/worker/gpu/refusal_utils.py:37-50 | adding keeps the mirror exactly if a value is brought or the slot had none |
| `TokenLambda.SlotTable.constructor` | mods/qwen38-staticduo7-7f1a5398/overlays/v1/worker/gpu/refusal_utils.py:29-35 | no request has a slot and no slot a value |
| `TokenLambda.SlotTable.AddToSlot` | mods/qwen38-staticduo7-7f1a5398/overlays/v1/worker/gpu/refusal_utils.py:37-50 | slot and mirror, the mirror only for a value |
| `TokenLambda.SlotTable.RemoveFromSlot` | mods/qwen38-staticduo7-7f1a5398/overlays/v1/worker/gpu/refusal_utils.py:52-56 | clears slot and mirror |
| `TokenLambda.SlotTable.RemoveRequest` | mods/qwen38-staticduo7-7f1a5398/overlays/v1/worker/gpu/model_runner.py:1076-1093 | removes a request if it is there |
| `TokenLambda.SlotTable.AddRequest` | mods/qwen38-staticduo7-7f1a5398/overlays/v1/worker/gpu/model_runner.py:1162-1202 | frees the old slot first |
| `TokenLambda.SlotTable.FinishRequests` | mods/qwen38-staticduo7-7f1a5398/overlays/v1/worker/gpu/model_runner.py:1095-1107 | the loop removes all finished and preempted requests |

## Left out

- Tensor and model code, attention metadata, collective communication, graph capture and replay: no visible semantics here.
- Connectors, remote loads, encoder cache, grammar, statistics and events: choices of the environment at most.
- Streaming sessions and output placeholders: AsyncScheduler is not part of this model, so placeholders are zero.
- The admission loop of `schedule()`: only the counting of tokens for one admitted request is modelled.
- `schedule()` is split: `RunningLoop` has the budgets and victims of one call, `StepProtocol` the effect of calls on each
  other, `SpecTokens` the counters of one request. In `RunningLoop` block alignment, encoder caps and look-ahead are one
  arbitrary function that keeps a chunk at or below what it was offered, before the clamp at zero.
- `StepProtocol` and `StepScheduler` do not model the order in which the blocks of one freed entry return to the pool.
- `StepScheduler` and `RunningLoop` model request objects as values in a map or sequence, so aliasing between the queues
  is not captured.
- `SpecTokens` takes from the callers that a prompt is shorter than the model length, and from `check_stop`, which is not
  part of this model, that a request stops when it reaches it.
- The order of the link writes within one queue operation: some links of a detached block are cleared before rather than
  after its neighbours are joined.
- Prompt embeddings enter the hash keys as an arbitrary function of the block; the cache of their digests is transparent.
- Slices of the coarser view of block hashes, and the conversion of hashes to integers for events.
- HiSparse layouts, packed groups, layout strides, merging of specs, ranks without any cache group.
- `GlmLayout` takes the layers that a pipeline stage runs to be those of an index range throughout. The source counts by
  such ranges, but projects groups and layers by the names that a worker has registered; that both agree is assumed.
- The checks that recognise a GLM layout after projection; the plan starts from their result.
- Logging, and control-file parsing beyond its accepted values: a file is an optional record.
- Floating point: costs, scores and values of the dial are real numbers; the dial's rounding is an arbitrary function.
- Request validation of the dial (finite value, supported workers): both answer before the lock.
- The fused drafting loop, which runs all steps whatever the active depth, and the hidden states passed between steps.
- Capture descriptors are given in order of size; their generation and sorting are not modelled.
- The projection algebra and the draft-vocabulary argmax: easy next to the rest.
- Installers, manifests and recipes: file plumbing.
