# Verified model of the AnimaWorks runtime core

AnimaWorks runs digital animas as asyncio agents with background workers, chat and inbox cycles,
daily memory consolidation and a set of small durable stores. This project models the parts of it
that keep state across await points, retries, crashes and restarts, and proves what they promise.

Each part comes twice. A specification describes one atomic step (the stretch between two awaits,
one file operation, one attempt of an executor) as a function on values; runs are sequences of such
steps, and the lemmas speak about all of them. Beside it, methods and classes in the form of the
program, loops and field updates included, are proved to compute exactly those steps. What the
program does not control (the model executor, the resolver, the network, clocks, other processes,
the point of a crash) is an input of the step, so every statement holds for all of it.

| files | part |
|---|---|
| `WorkerGate`, `WorkerPool` | the pool of background workers and the lock it shares with heartbeat, consolidation and cron |
| `StreamCycle`, `StreamHistory`, `ChatWalk` | the streaming cycle with retries and one model swap, inside the chat fallback walk |
| `InboxLedger`, `InboxFates`, `InboxMixin` | the inbox with its per-message retry counters |
| `Membership`, `CompanyStore` | company membership: status files and their symlink view |
| `Texts`, `Timeline`, `Consolidation`, `Delivery`, `ConsolidationRun` | daily consolidation: texts, episodes, carryover, acknowledgement |
| `OutboundLimiter` | the sliding-window limit on outbound messages |
| `EventSpool`, `EventExporter` | the durable event spool |
| `TaskStore`, `TaskManager` | background tasks in memory over records on disk |
| `Bootstrap`, `BootstrapStore` | the bootstrap lifecycle of an anima |
| `DenyRoots` | deny roots and writable roots of the file access policy |
| `Options`, `SeqSums`, `SeqFilter` | optional values, sums and filters over sequences |

## Where the program does less than it seems to promise

For each of these the model follows the code; a lemma gives the exact condition or a concrete run.

- Worker gate: cancelling a release that waits for the gate, or busy-marking raising after the count
  went up, leaves the count one too high for ever. Mutual exclusion is not affected, but no exclusive
  job starts again (`WorkerGate.FaultBlocksJobs`, `WorkerGate.JobsStartIffNoFault`).
- Streaming cycle: an attempt that just stops, or a terminal error with an empty message, is run again
  without using the retry budget (`StreamCycle.IdleStreamsSpin`); the bound of max_retries + 2 needs
  attempts that do not (`StreamCycle.LoopEnds`). A terminal error before a lost stream outlives the
  retry (`StreamCycle.StaleErrorSurvivesRetry`), so the verdict needs one ending per attempt. A
  summary can join two models (`StreamCycle.SummaryExact`, `StreamCycle.SummaryExactOneEnding`).
- Inbox: a call cancelled or killed after its pickup uses up a presentation like an empty reply, so a
  message can be given up unanswered (`InboxLedger.CancelledCallsGiveUp`). A budget-blocked call that
  raises takes counters down that it never raised (`InboxLedger.BlockedCallCounters`,
  `InboxLedger.PresentedFourTimes`). The "all exhausted" branch is dead
  (`InboxLedger.NeverAllExhausted`).
- Consolidation: the carryover keeps three days, so a fourth interrupted day drops acknowledged
  episodes (`Consolidation.HistorySafe`, `Consolidation.SafeIffNothingOwedDropped`,
  `Consolidation.FourInterruptedDaysLose`).
- Outbound limit: entries that do not count take up room among the 500 read, so a window can be
  overfilled (`OutboundLimiter.VerdictIsExact`, `OutboundLimiter.PermissionIsExact`,
  `OutboundLimiter.EveryWindowWithinCaps`).
- Event spool: delivery is at least once; a lost unlink after a 2xx reply repeats the event
  (`EventSpool.EveryEventAccountedFor`).
- Task store: a caller's own id that is still in flight makes memory and disk disagree
  (`TaskStore.ReuseSafeIffNotInFlight`).
- Bootstrap: deriving, writing and deriving again changes the recorded reason once, at the first
  derivation of an interactive bootstrap (`Bootstrap.DeriveWriteDerive`).

## Assumptions

- A run of the worker gate resumes waiting coroutines in any order; acquire and release are paired.
- In the streaming cycle the fallback resolver offers nothing after partial execution, as
  core/execution/fallback_activity.py:152-200 computes it; nothing raises after cycle_done.
- The executor's contract, where a row names it, has two parts. One ending per attempt: a result or a
  terminal error is the last thing an attempt yields, and no exception follows it. No idle attempt: a
  terminal error has a message, and an attempt without result or terminal error ends in an exception.
  All other rows of the streaming cycle hold without it.
- Inbox file names are unique. A call may be cut off after any file operation; apart from that,
  logging and archiving do not raise.
- A membership entry outside the managed companies is not created by other programs.
- The outbound limiter's checks are made one after the other, each before its message is logged.
- One worker holds the spool's lock, so only it removes spool files; event names are unique.
- Writing one JSON record is atomic.
- Daily consolidation runs with knowledge mutation enabled; without it there is no knowledge run to wait for.

## Model

| member | source | states |
|---|---|---|
| `WorkerGate.MutualExclusion` | core/anima.py:238-269 | in every state of every interleaving, cancellations and faults included, the count is the number of coroutines past the gate, the pool owns the background lock exactly when there is one, and no exclusive job overlaps such a coroutine or another job |
| `WorkerGate.ReachableInv` | core/anima.py:238-269 | the combined invariant on the count, the slots and both locks holds after every legal run from start-up |
| `WorkerGate.InvStep` | core/anima.py:238-269 | every single event keeps that invariant |
| `WorkerGate.CountStep` | core/anima.py:243-248 | every event keeps the count equal to the number of coroutines past the gate |
| `WorkerGate.LocksStep` | core/anima.py:243-266 | every event keeps each lock with the one coroutine or job that is recorded as its holder |
| `WorkerGate.CopiesStep` | core/anima.py:240-267 | no event, not even a fault, makes or destroys a slot |
| `WorkerGate.SlotConservation` | core/anima.py:234-269 | in every reachable state each slot of the pool is in the free queue exactly once or held by exactly one coroutine, never both, and nothing else is a slot |
| `WorkerGate.OneHolder` | core/anima.py:234-269 | one copy of a slot in total means one holder or one place in the queue, and no lease shared by two |
| `WorkerGate.ActiveIsLeases` | core/anima.py:248-260 | as long as busy-marking never raises, the active-worker map names exactly the leased slots with their tasks |
| `WorkerGate.ReleaserNeverBlocks` | core/anima.py:243-266 | a gate holder blocked on the background lock implies a zero count and nobody past the gate, and a releaser can always pass the gate at once: the two locks cannot deadlock |
| `WorkerGate.MeasureStep` | core/anima.py:238-269 | every event other than an arrival uses up some of the work left |
| `WorkerGate.RunsAreBounded` | core/anima.py:238-269 | a run without arrivals is at most as long as the work left at its start |
| `WorkerGate.Progress` | core/anima.py:238-269 | with work left and no leak, some event that is neither a fault nor a cancellation is enabled |
| `WorkerGate.MaximalRunsComplete` | core/anima.py:238-269 | a fault-free run that cannot go on has finished every coroutine and job, with a zero count, free locks and the whole pool back in the queue |
| `WorkerGate.LeaksAccumulate` | core/anima.py:254-266 | every cancelled release and every raise in busy-marking adds one to the count for good |
| `WorkerGate.FaultBlocksJobs` | core/anima.py:254-266 | after the first such fault no exclusive job ever starts again, whatever happens |
| `WorkerGate.JobsStartIffNoFault` | core/_anima_lifecycle.py:234 | once all coroutines are done, a waiting exclusive job can start if and only if the run had no fault |
| `WorkerPool.Pool.constructor` | core/anima.py:207-236 | the pool starts with every slot free and both locks open |
| `WorkerPool.Pool.TakeSlot` | core/anima.py:240 | refines the event that takes the oldest free slot |
| `WorkerPool.Pool.EnterGate` | core/anima.py:243-253 | refines entering the gate: a first worker goes on to wait for the background lock holding the gate, a later one is leased at once |
| `WorkerPool.Pool.TakeBackground` | core/anima.py:245-253 | refines the first worker getting the background lock and its lease |
| `WorkerPool.Pool.CancelAcquire` | core/anima.py:254-256 | refines a cancelled acquire at any of its waits: the slot goes back, the gate is left, the count is untouched |
| `WorkerPool.Pool.StartRelease` | core/anima.py:260 | refines dropping the lease record before the gate |
| `WorkerPool.Pool.FinishRelease` | core/anima.py:262-269 | refines the rest of the release and reports idle exactly when the background lock was released |
| `WorkerPool.Pool.StartJob` | core/_anima_lifecycle.py:439 | refines an exclusive job taking the background lock |
| `WorkerPool.Pool.FinishJob` | core/_anima_lifecycle.py:900 | refines an exclusive job giving it back |
| `StreamCycle.WorkFromOneModel` | core/_agent_cycle.py:1325-1328 | every non-empty text and tool event of one streaming cycle, retries and swap included, carries the same model configuration |
| `StreamCycle.OneCycleDone` | core/_agent_cycle.py:1691-1730 | a finished cycle ends in its only cycle_done; an unfinished or closed one has none |
| `StreamCycle.UsageConserved` | core/_agent_cycle.py:1305-1354 | at every point, close and cancellation included, the running total is the sum over what was flushed, one flush per execution, and a finished cycle reports that total |
| `StreamCycle.LogSumsToTotal` | core/_agent_cycle.py:81-112 | leaving empty records out of the token log does not change what the log sums to |
| `StreamCycle.TakeAllKeeps` | core/_agent_cycle.py:1316-1391 | streaming any chunks keeps output one-voiced and the total equal to what was flushed plus the attempt's own usage, raises the work flag exactly for work, reports success exactly for a result, and keeps the last terminal message |
| `StreamCycle.AccountKeeps` | core/_agent_cycle.py:1396-1407 | accounting an exception and flushing the attempt restores the balance, with one record under the attempt's model |
| `StreamCycle.PassKeeps` | core/_agent_cycle.py:1301-1610 | each pass keeps one-model output, the usage balance and the retry budget, and flushes exactly one record, under the configuration it ran with |
| `StreamCycle.RunKeeps` | core/_agent_cycle.py:1301-1610 | so does every run of attempts, also of those that break the executor's contract |
| `StreamCycle.ExecutionBound` | core/_agent_cycle.py:1555-1610 | the executor runs at most max_retries + 2 times, plus once for each pass that ended with neither result, terminal message nor exception |
| `StreamCycle.LoopEnds` | core/_agent_cycle.py:1301-1610 | if no attempt is idle in that sense, max_retries + 2 attempts always end the loop |
| `StreamCycle.IdleStreamsSpin` | core/_agent_cycle.py:1541-1610 | idle attempts are run again without end and no budget is used |
| `StreamCycle.LastAttemptDecides` | core/_agent_cycle.py:1604-1703 | under the executor's contract a finished cycle is judged by its last attempt alone |
| `StreamCycle.LastAttemptActs` | core/_agent_cycle.py:1555-1703 | with one ending per attempt, idle attempts included, a finished loop carries an error exactly if its last attempt gave no result |
| `StreamCycle.Verdict` | core/_agent_cycle.py:1555-1703 | with one ending per attempt the action is error exactly when the last attempt gave no result, so a swap or a retry hides the failure before it; if also no attempt was idle, an error event was emitted exactly then, and a cycle that responded carries no leftover reason |
| `StreamCycle.StaleErrorSurvivesRetry` | core/_agent_cycle.py:1352-1360 | without the contract a terminal error before a lost stream outlives the retry: a concrete run whose last attempt gives a result still carries the first one's error |
| `StreamCycle.SummaryExact` | core/_agent_cycle.py:1334-1335 | the summary of every run of every executor has one voice if and only if there is no fallback chain |
| `StreamCycle.SummaryExactOneEnding` | core/_agent_cycle.py:1436-1440 | with one ending per attempt, it has one voice for every run if and only if there are no retries or no fallback chain |
| `StreamCycle.SummaryFromOneModel` | core/_agent_cycle.py:1555-1602 | per run: if the partial text of lost streams had been streamed, all parts of the summary and all streamed work come from the model in use at the end |
| `StreamCycle.TakeChunk` | core/_agent_cycle.py:1325-1391 | one chunk moves the loop's variables as specified |
| `StreamCycle.StreamChunks` | core/_agent_cycle.py:1316-1391 | the chunk loop computes the specified events, flags, texts and totals |
| `StreamCycle.FlushAttempt` | core/_agent_cycle.py:1396-1407 | the accounting of an exception and the flush equal the specified step |
| `StreamCycle.HandleDisconnect` | core/_agent_cycle.py:1436-1540 | the lost-stream branch equals the specified retry or surrender |
| `StreamCycle.SwapOrLeave` | core/_agent_cycle.py:1555-1610 | the end of a pass equals the specified swap, exit or next round |
| `StreamCycle.ConcludeAttempt` | core/_agent_cycle.py:1396-1610 | all exception branches of a pass equal the specified conclusion |
| `StreamCycle.RunStreamingCycle` | core/_agent_cycle.py:1284-1730 | the whole loop equals the fold of passes about which the lemmas speak, with the final cycle_done |
| `StreamHistory.UsageIsWhatWasReported` | core/_agent_cycle.py:1305-1407 | in every run, for each of the four counters, each execution is flushed with exactly what its attempt reported: all usage chunks, and the usage of results, terminal errors and its exception unless already emitted; the total, and what a finished cycle reports, is their sum |
| `StreamHistory.DeliversWhatWasStreamed` | core/_agent_cycle.py:1325-1391 | the consumer receives exactly the chunks of the executed attempts other than usage, results and terminal errors, in order and each under the model of its attempt; falling back is reported safe exactly if none of them is a tool chunk or text and no tool call is on record |
| `StreamHistory.PassSpendsExactly` | core/_agent_cycle.py:1301-1407 | one pass flushes exactly the attempt's tokens under the model it ran on, and adds its tool records and its work |
| `StreamHistory.PassGoesOn` | core/_agent_cycle.py:1396-1610 | told from the attempt and what was there before: a lost stream is retried within the budget and then given up, with its text kept; any other failure is handed to another model exactly if nothing was shown or recorded and none was swapped in before; otherwise a failure or a result ends the loop with its error, reason and error chunk, and with neither it goes round |
| `StreamHistory.BudgetIsLostStreams` | core/_agent_cycle.py:1436-1540 | over every run, the retries made are the streams lost, and the cycle gives up exactly at the first one beyond max_retries |
| `StreamHistory.ReportIs` | core/_agent_cycle.py:1604-1730 | a finished cycle reports as its text the results of all executions and the partial texts of lost streams, in order, and as error and reason those that its last execution leaves |
| `ChatWalk.WalkDeliversOneAnswer` | core/_anima_messaging.py:291-365 | across the fallback walk and all streaming cycles inside it, delivered work comes from one model configuration, and at most one cycle_done is delivered, as the last chunk |
| `ChatWalk.WalkEnds` | core/_anima_messaging.py:218-239 | the models tried are pairwise different and come from the chain or are the first one, so the walk is over after as many cycles as there are such models |
| `ChatWalk.StopIsFirst` | core/_anima_messaging.py:313-344 | the walk leaves a cycle at the first error chunk or result before which nothing with payload was delivered and for which the resolver names a model not tried; if there is none, it forwards all |
| `ChatWalk.TurnIs` | core/_anima_messaging.py:291-365 | a whole turn, in fields: at the first such event the walk restarts on exactly that answer, having delivered exactly what came before; otherwise everything is delivered, and the walk returns, or an exception before any payload moves it on and any other one is raised |
| `ChatWalk.CycleShape` | core/_agent_cycle.py:1691-1730 | the events of one cycle, as the walk sees them, have one voice and cycle_done only at the end |
| `ChatWalk.StepKeeps` | core/_anima_messaging.py:291-365 | one turn of the walk keeps the delivered stream one-voiced and the tried models distinct, and adds the current model to them |
| `ChatWalk.ForwardEvents` | core/_anima_messaging.py:303-344 | the forwarding loop delivers exactly the events up to the point where the walk moves on and knows whether payload was among them |
| `ChatWalk.RunCycle` | core/_anima_messaging.py:291-365 | one turn with its exception handler equals the specified step |
| `ChatWalk.RunChatStreamWithFallback` | core/_anima_messaging.py:278-365 | the walk equals the fold of those steps |
| `InboxLedger.LedgerIsExact` | core/_anima_inbox.py:921-979 | in every run of arrivals and calls, calls cancelled or killed after any file operation included, a waiting message's stored counter plus the presentations taken back unrecorded is the number of presentations spent on it; the counter is at most 3 and equals that number exactly if nothing was taken back |
| `InboxLedger.GivenUpAfterThree` | core/_anima_inbox.py:936-979 | the next tracked pickup archives a message with an overflow copy if and only if three presentations were spent and not taken back, and shows it otherwise |
| `InboxLedger.SpentIsEmptyReply` | core/_anima_inbox.py:638-685 | for a call that runs to its end, spending a presentation means an empty reply |
| `InboxLedger.CancelledCallsGiveUp` | core/_anima_inbox.py:710-722 | calls that are all cut off right after their pickup are enough to have a message given up to which the model never replied at all |
| `InboxLedger.PresentedFourTimes` | core/_anima_inbox.py:710-722 | with one raising budget-blocked call in between, a message is presented four times and still waits |
| `InboxLedger.NeverAllExhausted` | core/_anima_inbox.py:651-685 | the branch that archives after an empty reply because everything is exhausted can never be taken |
| `InboxLedger.Partition` | core/_anima_inbox.py:824-987 | every batch is split exactly, with multiplicity, into suppressed, handled delegation, deferred self-notice, stale and kept messages |
| `InboxLedger.Groups` | core/_anima_inbox.py:217-233 | membership in each of the first groups, in terms of the message and the call alone |
| `InboxLedger.FailedCallRestores` | core/_anima_inbox.py:638-650 | a failed or raising model cycle that runs to its end keeps every shown message in the inbox and gives every waiting message its old counter back |
| `InboxLedger.BlockedCallCounters` | core/_anima_inbox.py:346-367 | a budget-blocked call leaves all counters alone if and only if it does not get to roll back while a kept message has a counter |
| `InboxLedger.CallCounts` | core/_anima_inbox.py:921-987 | one call, cut off anywhere or not, moves a waiting message's counter up by one exactly if it spent a presentation and down by one exactly if it took one back that it had not recorded |
| `InboxLedger.CallWrites` | core/_anima_inbox.py:972-979 | a call writes no counters before its pickup is complete, and afterwards only the rollback of a failure |
| `InboxLedger.CallBounded` | core/_anima_inbox.py:936-987 | no call takes a waiting message's counter over the limit |
| `InboxLedger.StaleAtLimit` | core/_anima_inbox.py:936-979 | a candidate is given up exactly when its counter stands at the limit, and is then archived, copied and gone from the inbox |
| `InboxLedger.PresentedCounts` | core/_anima_inbox.py:921-935 | presenting raises the counters of exactly the candidates, by one |
| `InboxLedger.UnbumpCounts` | core/_anima_inbox.py:346-367 | undoing a presentation takes one from exactly the named counters that exist |
| `InboxLedger.GoneForGood` | core/_anima_inbox.py:824-987 | a processed message never comes back to the inbox |
| `InboxLedger.RunCounts` | core/_anima_inbox.py:824-987 | the same balance from any consistent inbox |
| `InboxLedger.ArchiveKeeps` | core/messenger.py:915-928 | archiving takes exactly the given messages out of the inbox and moves exactly those that were there to processed |
| `InboxMixin.SplitDelegationItems` | core/_anima_inbox.py:217-233 | the loop separates delegations with a task id from the rest, in order |
| `InboxMixin.SplitByTask` | core/_anima_inbox.py:246-327 | the loop hands back exactly the delegations whose task is not on record |
| `InboxMixin.SplitStale` | core/_anima_inbox.py:936-945 | the loop separates messages past the limit and drops exactly their counters |
| `InboxMixin.Inbox.ArchivePaths` | core/messenger.py:915-928 | moves the given messages that are still in the inbox, one rename after the other |
| `InboxMixin.Inbox.SortIncoming` | core/_anima_inbox.py:843-916 | copies a burst, handles and defers in that order, and returns the candidates |
| `InboxMixin.Inbox.PresentItems` | core/_anima_inbox.py:918-979 | raises and prunes the counters, gives up what is past the limit, and writes the counters last |
| `InboxMixin.Inbox.ProcessInboxMessages` | core/_anima_inbox.py:824-987 | the pickup performs exactly its file operations, none for an empty inbox, and returns the kept messages |
| `InboxMixin.Inbox.UndoFailedPresentation` | core/_anima_inbox.py:346-367 | the rollback loop writes the specified counters |
| `InboxMixin.Inbox.FinishCycle` | core/_anima_inbox.py:638-685 | the outcome branches perform the specified rollback, archive or nothing |
| `InboxMixin.Inbox.ProcessInboxMessage` | core/_anima_inbox.py:369-740 | a whole call performs exactly the list of operations of which the ledger takes prefixes |
| `InboxMixin.CutOffIsPrefix` | core/_anima_inbox.py:710-722 | a call cut off after some of its operations leaves exactly the box of the ledger's step |
| `InboxFates.DeferredExactly` | core/_anima_inbox.py:899-916 | a message is archived unseen as deferred exactly if it is visible, no handled delegation, from source anima, from the Anima itself and a completion notice, and some open message comes from Slack or Chatwork |
| `InboxFates.OthersNeverDeferred` | core/_anima_inbox.py:104-112 | nobody else's message is ever deferred |
| `InboxFates.ShownIsKept` | core/_anima_inbox.py:936-979 | the messages shown to the model, and those given up, in terms of the message, the call and the stored counter alone |
| `InboxFates.WhereItGoes` | core/_anima_inbox.py:369-740 | after a call that runs to its end a message waits exactly if its sender is suppressed, or it was shown and neither answered at once nor by the model; every other one is in processed |
| `InboxFates.NothingLost` | core/messenger.py:915-928 | whatever is done and wherever it stops, what left the inbox is in processed, and nothing else is new there |
| `InboxFates.OverflowExactly` | core/_anima_inbox.py:853-964 | the overflow gains exactly the messages given up and, of a burst, those with ten visible messages that delegate nothing before them; only in tracked calls |
| `Membership.HistorySound` | core/company.py:340-385 | after any history of assign and unassign commands, each completed or cut off after any write, a membership link under a company implies that the status names that company |
| `Membership.CompletedCommandSettles` | core/company.py:340-385 | from any disk with a sound view, plain files and wrong links included, and after any such history, one completed assign leaves each named anima exactly one link, at the assigned company, with its status agreeing; a completed unassign leaves none; all other animas keep what they had |
| `Membership.RefusesIff` | core/company.py:316-385 | an unassign refuses if and only if the status names a valid company and a plain file stands there; an assign if and only if the anima is not there yet and a plain file stands under the new company or under another valid one that the status names |
| `Membership.CompletesIff` | core/company.py:358-385 | a command completes if and only if none of its animas is refused on the disk it starts from |
| `Membership.RefusalStops` | core/company.py:358-385 | a command that meets a refusal has done exactly what the animas before it asked for |
| `Membership.HistoryKeepsPlain` | core/company.py:316-325 | no history, crashes included, makes or removes a plain file |
| `Membership.CommandsAlwaysComplete` | core/company.py:340-385 | without plain files for the named animas every command completes, whatever history came before and wherever each of its commands died |
| `Membership.ScriptSafe` | core/company.py:358-385 | every prefix of the writes of one command leaves the view sound |
| `Membership.PlanSafe` | core/company.py:358-385 | so does every prefix of the writes for one anima |
| `Membership.RemovalsSafe` | core/company.py:316-325 | the removals come first and leave the anima without any link |
| `Membership.PlanSettles` | core/company.py:358-385 | the writes for one anima settle it, unless a plain file or directory stands in the way |
| `Membership.PlanLeavesOthers` | core/company.py:358-385 | and touch no other anima |
| `Membership.RerunWritesNothing` | core/company.py:358-385 | the same command on settled animas writes nothing |
| `CompanyStore.Store.RemoveMembershipLink` | core/company.py:316-325 | removes a link, leaves an absent one, refuses anything else |
| `CompanyStore.Store.WriteAnimaCompany` | core/company.py:327-337 | writes or clears the company in the status |
| `CompanyStore.Store.UnassignOne` | core/company.py:361-368 | performs exactly the writes of the unassign plan and reports a refusal exactly when there is one |
| `CompanyStore.Store.AssignOne` | core/company.py:370-384 | performs exactly the writes of the assign plan and reports a refusal exactly when there is one |
| `CompanyStore.Store.AssignEach` | core/company.py:358-385 | performs exactly the script of the command up to the first refusal |
| `CompanyStore.Store.AssignAnimas` | core/company.py:340-385 | rejects an unknown company, an empty list and an unknown anima without writing, and otherwise runs the script over the distinct names |
| `Consolidation.HistorySafe` | core/_anima_lifecycle.py:629-766 | over any history of completed, truncated and crashed daily runs, and wherever any of them could die: the merged episode of every acknowledged chunk is in one piece in the day's file, and in one piece in the carryover or in the prompt of a knowledge run that returned not truncated, and it has all lines extracted from the chunk; this holds throughout if and only if no run drops anything owed from the carryover |
| `Consolidation.SafeWhereverIff` | core/_anima_lifecycle.py:629-766 | for one run the promise holds at every point where it could die, if and only if it drops nothing owed |
| `Consolidation.CrashAnywhereSafe` | core/_anima_lifecycle.py:629-766 | the sufficient half, for each such point |
| `Consolidation.PhaseASafe` | core/_anima_lifecycle.py:629-702 | and within phase A: the carryover is published before the acknowledgement |
| `Consolidation.SafeIffNothingOwedDropped` | core/memory/consolidation.py:265-291 | after phase A the promise holds if and only if no dropped day holds an acknowledged episode that no finished knowledge run was given, and the day itself is not dropped, unless its episode was given to one before |
| `Consolidation.SafeIffRoom` | core/memory/consolidation.py:265-291 | while every waiting day is owed and the new episode is new, that condition is: fewer than three other days wait |
| `Consolidation.RecordPending` | core/memory/consolidation.py:265-291 | a waiting or new day is dropped if and only if three of the others are later |
| `Consolidation.CarryStep` | core/memory/consolidation.py:235-291 | recording a day that drops nothing owed keeps the promise |
| `Consolidation.AckStep` | core/memory/consolidation.py:123-136 | acknowledging is safe once the episode file holds the merged episode and the carryover or a finished run has it |
| `Consolidation.DeliverSteps` | core/_anima_lifecycle.py:742-766 | clearing the carryover is safe after a run that was given all of it |
| `Consolidation.RecordKeeps` | core/memory/consolidation.py:235-291 | on every day that is not dropped, the new text and every block that waits survive recording in one piece |
| `Consolidation.RecordKeepsDaysIffRoom` | core/memory/consolidation.py:265-291 | all waiting days survive if and only if fewer than three other days wait |
| `Consolidation.FourInterruptedDaysLose` | core/memory/consolidation.py:265-291 | after any four interrupted days in a row, each with an episode of its own, the promise is broken |
| `Consolidation.ExtendKeeps` | core/memory/consolidation.py:255-264 | a second summary of a day, added unless it occurs already, is there in one piece, and so is all that was there before |
| `Consolidation.FormatKeeps` | core/memory/consolidation.py:300-310 | the prompt holds every waiting block in one piece |
| `Consolidation.EpisodeKeeps` | core/memory/consolidation.py:163-174 | the day's file holds the new timeline in one piece and keeps every block it held |
| `Delivery.UnfinishedClearsNothing` | core/_anima_lifecycle.py:742-766 | after a truncated or aborted knowledge run, and wherever a run dies before its knowledge run is over, no prompt counts as delivered and every waiting day not dropped for news still waits with all its blocks |
| `Delivery.FinishedDelivers` | core/_anima_lifecycle.py:742-766 | a knowledge run that finished was given all that waited, in one prompt, and then nothing waits |
| `Delivery.DeliveredExactly` | core/_anima_lifecycle.py:742-766 | over any history the delivered prompts are exactly one for each run that got to hand its carryover over, in order |
| `Delivery.AcknowledgesExactly` | core/_anima_lifecycle.py:571-637 | phase A acknowledges exactly the day's chunks whose answer, asked for once more if empty and without its code fence, is not blank |
| `Delivery.EpisodeInOrder` | core/memory/consolidation.py:163-174 | the day's file ends in the new timeline, with all earlier notes before it; a blank timeline changes nothing |
| `Delivery.PromptInOrder` | core/memory/consolidation.py:300-310 | the prompt presents the waiting days in their order |
| `Timeline.MergeCovers` | core/memory/consolidation.py:1034-1059 | merging timeline parts loses no line of any part, except that a header repeated up to surrounding white space is kept once |
| `Timeline.MergeKeepsBodies` | core/memory/consolidation.py:1034-1059 | the body lines of the merged text are those of the parts, in order and number |
| `Timeline.DropExactly` | core/memory/consolidation.py:1046-1059 | a line goes exactly if it repeats a level-two header that stands before it; every other line is right after what the lines before it left |
| `Timeline.HeadersOnce` | core/memory/consolidation.py:1046-1059 | no level-two header stands twice in a merged timeline |
| `Timeline.PartsInOrder` | core/memory/consolidation.py:1049-1050 | the lines of a part come in one piece after those of the parts before it |
| `Texts.StripKeeps` | core/memory/consolidation.py:251-253 | stripping takes away no block without white space at its ends |
| `Texts.SplitJoin` | core/memory/consolidation.py:1051-1059 | joining lines and splitting the text again gives the lines back |
| `Texts.JoinSplit` | core/memory/consolidation.py:1050-1059 | splitting a text and joining its lines gives the text back |
| `Texts.FenceComesOff` | core/memory/_llm_parse.py:42-68 | a fenced answer, whatever its language tag and its inner fences, comes back up to white space at its end |
| `Texts.UnfencedStays` | core/memory/_llm_parse.py:56-60 | an answer without outer fence is not changed |
| `ConsolidationRun.AppendPart` | core/memory/consolidation.py:1050-1057 | one part's lines are added except headers seen before |
| `ConsolidationRun.MergeTimelineParts` | core/memory/consolidation.py:1034-1059 | the loop over the parts and their lines computes the specified merge |
| `ConsolidationRun.Engine.ExtractEpisodes` | core/_anima_lifecycle.py:560-628 | asks per unacknowledged chunk, once more after an empty answer, takes an outer code fence off and returns exactly the usable ones |
| `ConsolidationRun.Engine.WriteConsolidatedEpisode` | core/memory/consolidation.py:163-193 | merges the timeline into the day's file as specified |
| `ConsolidationRun.Engine.RecordPhaseBCarryover` | core/memory/consolidation.py:235-291 | the update of the carryover file equals the specified record, sorted by day and capped |
| `ConsolidationRun.Engine.RecordConsolidatedChunks` | core/memory/consolidation.py:123-136 | acknowledges exactly the given chunks |
| `ConsolidationRun.Engine.RunPhaseA` | core/_anima_lifecycle.py:629-637 | phase A performs its three writes in their order |
| `ConsolidationRun.Engine.RunDailyConsolidation` | core/_anima_lifecycle.py:518-776 | an uninterrupted run performs exactly the specified writes in their order |
| `OutboundLimiter.EveryWindowWithinCaps` | core/cascade_limiter.py:87-156 | for all caps and every bound k on the uncounted entries of a day: in all runs of sends checked one after the other on a clock that never goes back, every hour and every 24 hours, wherever placed, hold at most their cap, if and only if a cap is zero, or k and the daily cap fit into 500, or k and the hourly cap do and 24 times the hourly cap is at most the daily one |
| `OutboundLimiter.Overfills` | core/memory/activity.py:493-521 | for all other caps and k there is a run of the program that overfills an hour or a day |
| `OutboundLimiter.StepKeepsCaps` | core/cascade_limiter.py:87-156 | under that condition one checked send, or one entry that does not count, overfills no window |
| `OutboundLimiter.AllowedHasRoom` | core/cascade_limiter.py:91-156 | under it a send that is allowed finds room in the hour, and in the day unless the hours of a day cannot fill it |
| `OutboundLimiter.ReadDecidesLikeFullLog` | core/cascade_limiter.py:91-156 | the newest 500 entries give the very verdict of the whole log, the kind of refusal included, when for each cap the uncounted entries of its period and the cap fit into 500 together |
| `OutboundLimiter.VerdictIsExact` | core/memory/activity.py:493-521 | that condition is exact: for given numbers of uncounted entries, the two verdicts are equal on all logs if and only if it holds or an earlier cap refuses everything |
| `OutboundLimiter.ReadAllowsLikeFullLog` | core/cascade_limiter.py:91-156 | whether the send is allowed agrees already when the daily cap fits |
| `OutboundLimiter.PermissionIsExact` | core/memory/activity.py:493-521 | and that is exact for the permission alone |
| `OutboundLimiter.CheckEntries` | core/cascade_limiter.py:104-156 | the scanning loop decides by both counts and finds the oldest message of the hour, if any |
| `OutboundLimiter.CheckGlobalOutbound` | core/cascade_limiter.py:55-156 | a disabled limit allows, an unreadable log refuses, and otherwise the newest 500 entries decide |
| `OutboundLimiter.ResetTime` | core/cascade_limiter.py:118-134 | at the hourly cap, the hour has room again exactly after the announced time |
| `EventSpool.EveryEventAccountedFor` | core/event_export.py:83-343 | in every interleaving of emitters, worker and crashes, each published event is exactly one of spooled, acknowledged and trimmed; an event was answered 2xx once if acknowledged, plus once per reply after which its file stayed |
| `EventSpool.PassAcknowledgesPrefix` | core/event_export.py:260-272 | at every point of a pass the files before the current one are acknowledged and the rest is still spooled, in name order |
| `EventSpool.TrimKeepsLongestTail` | core/event_export.py:185-225 | trimming ends with the longest tail of the listing that fits the limit, unless an unlink failed; then it fits or only files that could not be removed are left |
| `EventSpool.EventsLeaveInOrder` | core/event_export.py:83-343 | with growing names and no failing unlink, events leave in exactly the order of publication, and the spool is exactly the rest |
| `EventSpool.RunInv` | core/event_export.py:83-343 | the ledger and the state of the pass stay consistent over every run |
| `EventSpool.LedgerStep` | core/event_export.py:202-220 | every step keeps published events partitioned and replies accounted for |
| `EventSpool.PhaseStep` | core/event_export.py:202-272 | every step keeps the listed files present and the trim total exact, so a listed file is never missing |
| `EventExporter.Post` | core/event_export.py:297-335 | delivers if and only if some request within max_retries + 1, at least one, is answered 200 to 299 before anything stops the retries, and stops at the first; if nothing stops them and nothing is answered so, all of them are made |
| `EventExporter.Exporter.Emit` | core/event_export.py:83-98 | publishes the whole event or nothing |
| `EventExporter.Exporter.EnforceSpoolLimit` | core/event_export.py:185-225 | from the oldest on, files go exactly until the total fits, passing over only those that cannot be unlinked; the loop is a run of the machine |
| `EventExporter.TrimmedIsLongestFit` | core/event_export.py:202-220 | when every unlink works, what that leaves is the longest tail that fits |
| `EventExporter.Exporter.Deliver` | core/event_export.py:279-343 | a file goes exactly after a 2xx reply whose unlink works; a lost unlink leaves it for another delivery |
| `EventExporter.Exporter.DeliverAll` | core/event_export.py:263-272 | the files before the first delivery that does not work, and no others, are gone; the loop is a run of the machine |
| `EventExporter.Exporter.RunPass` | core/event_export.py:243-278 | a whole pass trims as above and delivers up to the first failure; it is a run of the machine, so everything proved of runs holds of it |
| `TaskStore.AnswersLikePlainMap` | core/background.py:268-294 | after every run of submissions, completions, cancellations, evictions, clean-ups and restarts in which no id in flight is reused, get and list answer what one plain map without memory would |
| `TaskStore.EvictionInvisible` | core/background.py:410-443 | taking all evictions out of a run changes no answer |
| `TaskStore.StepKeepsAgreement` | core/background.py:186-382 | every event keeps memory equal to disk on the tasks it holds, and the object of each coroutine in memory |
| `TaskStore.FinishedRecord` | core/background.py:308-331 | a finished task is on record as completed or failed, as it ended, with time and result, under its id and creation time; no other record changes |
| `TaskStore.StartedRecord` | core/background.py:229-266 | a new task is on record as running, and a cancelled one stays so |
| `TaskStore.CleanedRecords` | core/background.py:478-513 | a clean-up removes exactly the finished tasks that ended before the cutoff and the running ones that started before theirs, unknown times apart |
| `TaskStore.CleanedMemory` | core/background.py:478-513 | memory loses exactly the tasks whose records went, and all at a restart |
| `TaskStore.EvictedMemory` | core/background.py:410-443 | after an eviction memory has all tasks not finished, none that ended by the cutoff, and of the others exactly those with fewer than the cap newer ones |
| `TaskStore.NewerIs` | core/background.py:422-437 | newer means later by completion or creation, then creation, then id, among the finished tasks young enough |
| `TaskStore.ReuseSafeIffNotInFlight` | core/background.py:229-266 | submitting under a caller's id leaves memory and disk in agreement after every legal run that follows, further submissions included, if and only if no coroutine runs under that id |
| `TaskStore.NewestStay` | core/background.py:410-443 | eviction keeps running tasks and, of the finished ones young enough, exactly the newest up to the cap |
| `TaskStore.NewerCount` | core/background.py:422-437 | a task's place in the sort order is the number of candidates newer than it |
| `TaskStore.EvictionIdempotent` | core/background.py:410-443 | evicting again at the same time removes nothing |
| `TaskManager.OldestFirst` | core/background.py:422-437 | the sort yields all candidates by completion time, creation time and id |
| `TaskManager.ToEvict` | core/background.py:416-438 | the ids collected are exactly those that do not stay |
| `TaskManager.Manager.Submit` | core/background.py:229-266 | evicts, and then, under any id, memory, disk and coroutine share one new running task, and memory agrees with disk |
| `TaskManager.Manager.EndTask` | core/background.py:308-331 | the coroutine's object and its record change together; memory agrees afterwards if it holds this object or none under the id, and not if it holds another one that runs |
| `TaskManager.Manager.GetTask` | core/background.py:268-273 | always the record on disk |
| `TaskManager.Manager.ListTasks` | core/background.py:275-294 | exactly the records on disk |
| `TaskManager.Manager.EvictCompletedTasks` | core/background.py:410-443 | keeps the same objects for exactly the tasks that stay and leaves disk alone |
| `TaskManager.Manager.CleanupOldTasks` | core/background.py:478-513 | removes exactly the expired records from disk and memory and counts them |
| `Bootstrap.DeriveWriteDerive` | core/bootstrap_state.py:177-328 | for all directories and records, writing the derived status back changes neither the derived state nor what is offered, and the record itself reads back unchanged if and only if this is not the first derivation of an interactive bootstrap |
| `Bootstrap.RunsOnce` | core/bootstrap_state.py:331-377 | once marked running, no sequence of operations and file changes offers the background bootstrap again before a retry repair or a new bootstrap file |
| `Bootstrap.FenceStep` | core/bootstrap_state.py:157-321 | each single operation keeps that |
| `Bootstrap.FinalizedLasts` | core/bootstrap_state.py:407-423 | finalizing reports completed exactly for a sound directory, and every later derivation repeats that report until a new bootstrap file or artifact appears |
| `Bootstrap.RepairedLasts` | core/bootstrap_state.py:493-549 | the complete repair reports completed exactly if identity and injection are defined, and later derivations repeat that |
| `Bootstrap.RetryOffers` | core/bootstrap_state.py:439-476 | a retry repair offers the background bootstrap exactly if there is a character sheet and a bootstrap file or an artifact to restore, and resets the retries |
| `Bootstrap.RetriesCountFailures` | core/bootstrap_state.py:343-353 | between repairs the retry count grows by one per failure and by nothing else |
| `Bootstrap.StatusExactly` | core/bootstrap_state.py:177-321 | exactly which files and saved states give completed, pending, running and failed; a repair is asked for in all other cases |
| `Bootstrap.ErrorsTellWhy` | core/bootstrap_state.py:196-321 | a repair that is not just on record lists exactly what is wrong with the files |
| `Bootstrap.PendingMode` | core/bootstrap_state.py:214-260 | a pending status has the sheet mode exactly if there is a sheet, and the interactive one otherwise, and no errors |
| `Bootstrap.FailureTells` | core/bootstrap_state.py:331-353 | a run that fails is on record with its mode, start, error and one more retry |
| `Bootstrap.FinalizeTells` | core/bootstrap_state.py:407-423 | finalizing a sound directory archives the bootstrap file and notes the time; otherwise no file is touched and exactly what is wrong is listed |
| `Bootstrap.RetryCleans` | core/bootstrap_state.py:439-476 | a retry leaves no artifact and no queued task, and every other file where it was |
| `Bootstrap.CompleteCleans` | core/bootstrap_state.py:493-549 | a complete repair leaves nothing of the bootstrap behind, or touches no file and lists what is undefined |
| `Bootstrap.OneCallToAction` | core/bootstrap_state.py:157-174 | at most one of user input, background bootstrap and repair is asked for, a pending state asks for one, a completed one for none |
| `Bootstrap.ValidIffSound` | core/bootstrap_state.py:356-377 | validation passes exactly for a directory with both files defined and nothing left over |
| `BootstrapStore.Files.GetBootstrapStatus` | core/bootstrap_state.py:177-321 | the branches of the program, in their order, give the specified derivation |
| `BootstrapStore.Files.InitializeBootstrapState` | core/bootstrap_state.py:324-328 | writes the derived status |
| `BootstrapStore.Files.MarkBootstrapRunning` | core/bootstrap_state.py:331-340 | writes the running record, keeping the retries |
| `BootstrapStore.Files.MarkBootstrapFailed` | core/bootstrap_state.py:343-353 | writes the failed record with one more retry |
| `BootstrapStore.Files.ValidateBootstrap` | core/bootstrap_state.py:356-377 | the checks in their order, with the loops over artifacts and pending tasks, find exactly the specified errors |
| `BootstrapStore.Files.FinalizeBootstrapRun` | core/bootstrap_state.py:407-423 | refines finalizing: archive and complete, or record what is wrong |
| `BootstrapStore.Files.RestoreArtifacts` | core/bootstrap_state.py:446-454 | whichever artifacts there are, none is left and there is a bootstrap file if there was one or any artifact |
| `BootstrapStore.Files.RepairBootstrapRetry` | core/bootstrap_state.py:439-476 | the result is the specified world of the retry repair, and its derivation |
| `BootstrapStore.Files.RepairBootstrapComplete` | core/bootstrap_state.py:493-549 | refines the complete repair and returns the derived status, or nothing for a missing anima |
| `DenyRoots.EffectiveVerdict` | core/file_access_policy.py:155-180 | after merging and reducing, a path has a deny root exactly if a configured or a company root contains it |
| `DenyRoots.ReductionKeepsVerdict` | core/file_access_policy.py:155-168 | dropping nested roots denies exactly the same paths |
| `DenyRoots.ReducedIsAntichain` | core/file_access_policy.py:155-168 | no remaining root lies in another |
| `DenyRoots.EveryKeptRootNeeded` | core/file_access_policy.py:155-168 | without any one remaining root, some path is no longer denied |
| `DenyRoots.ReductionIsCanonical` | core/file_access_policy.py:155-168 | every list without nesting that denies the same paths has exactly these roots |
| `DenyRoots.FindsOutermost` | core/file_access_policy.py:177-180 | the root found in the reduced list is the outermost of all merged roots that contain the path |
| `DenyRoots.FindsIffDenied` | core/file_access_policy.py:177-180 | a lookup succeeds exactly if a root contains the path, and returns one that does |
| `DenyRoots.CompanyDeniedRoots` | core/file_access_policy.py:124-152 | collects exactly the directories of the other companies, and nothing for an anima without company |
| `DenyRoots.EffectiveWriteRoots` | core/file_access_policy.py:72-101 | refuses exactly when a configured root lies in the data directory outside the company's shared directory; otherwise returns all roots once |

## Left out

- InboxFates.OverflowExactly: leaves out that old overflow copies are cleaned up by age and number, which touches no inbox file.
- EventExporter.Exporter.RunPass: takes the name-ordered listing as given by the directory and the library's sort.
- First-come-first-served order of asyncio waiters: the gate is proved for every order instead.
- The per-mode branches of the non-streaming cycle: straight-line code around calls to executors.
- Model executors, prompt building, priming and the fallback of the non-streaming chat cycle.
- Texts of messages, log lines and prompts other than episodes, the date and reason in a carryover heading, JSON encoding, and white space other than blank, tab and line breaks.
- Torn writes of task records, and stale temporary files of the spool.
- Project-scoped and weekly consolidation, fact extraction, and the legacy knowledge migration.
- The conversation-depth check of the limiter: one count compared with one bound.
- Company export, asset adoption and split manifests; the fresh repair of a bootstrap.
- The least-recently-used lock registries, whose guarantee rests on asyncio internals.
- Command line, gateway, infrastructure start-up, updater, templates, direct-message log rotation.
- Resolving paths, symlinks and protected caches in the file access policy; paths arrive resolved.
