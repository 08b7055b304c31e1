# Dear Agent: a verified model of the task lifecycle

Dear Agent turns inbound mail into coding tasks. A task sits in a durable queue, is claimed by one of
several workers, is run by a harness in a worktree, verified, reviewed and published as a draft pull
request. Risky tasks are parked until a human answers with a single-use token. This project models
that machinery in Dafny and proves what it keeps in every interleaving.

`dafny verify dfyconfig.toml` checks the whole project.

## How it is organised

| files | what they model |
|---|---|
| `Tasks`, `QueueSpec` | task records, the age order, and the queue port as atomic calls on a table; `Replay` is the state and the replies after any sequence of calls |
| `MemoryQueue`, `PostgresQueue`, `Backends` | the dictionary backend and the guarded row updates as classes, each method proved equal to the port's call; both backends driven by the same calls |
| `ClaimAccounting` | conservation of claims, read off calls and replies alone |
| `Deps`, `Worker` | dependency gating and a sequential `run_next` |
| `QueueMeaning`, `WorkerMeaning`, `AuthMeaning`, `AuthVerdicts`, `JsoncMeaning` | what the operations do, stated in the fields of the rows or the characters of the text |
| `Approvals` | single-use tokens: registry, file store, SQL update |
| `Lifecycle` and `Lifecycle*` | the concurrent system, its invariants and runs that can be built in it: any number of workers, crashes, lease sweeps, ingests and approval replies; one step per queue or store call; workers hold copies that may be out of date |
| `Termination` | a measure over state and remaining attempts, with guard and claim as one step |
| `SharedDir` | the two-process protocol over a shared directory, one step per file operation |
| `Journal`, `Sandbox`, `Executor` | one task run: effects in order, two monitors that read them, container sessions, harness routing, and the executor that produces the effects |
| `ControlPlane` | the inbound loop with the approval service |
| `RateLimit`, `AuthResults`, `Jsonc`, `Calibration` | the smaller algorithms |

Clock readings, random tokens, policy and decider answers, harness exit codes, verify results, review
verdicts and git outcomes are parameters or arbitrary choices, so each theorem holds for all of them.

## Where the code and its documentation differ

The model follows the code.

- `deps.py:31-32` says a dependency that cannot be found blocks the task permanently; the code
  (`deps.py:42-45`) treats it as not ready yet. `Deps.UnknownOnlyBlocks` states that.
- `docs/queue.md:73` calls `done` terminal. `TaskWorker.run` applies its guards to a task in any state,
  so it can relabel a done task as failed (`LifecycleTerminal.DoneBecomesFailed` and
  `LifecycleTerminal.DoneBecomesFailedByPolicy` are such runs).
  `LifecycleTerminal.LabelChangesExactlyWhen` says exactly when a label changes. What does hold is line 80 of that document: a task in a terminal state is never claimed again
  (`LifecycleTerminal.EndedNeverRunsAgain`).
- The attempts guard reads a copy taken before the claim, so the limit can be passed when leases are
  released in between (`LifecycleOvershoot.StaleGuardOvershoots`);
  `LifecycleAttempts.LimitHoldsExactlyWhen` says exactly when it is kept, and
  `LifecycleAttempts.OvershootIsBounded` by how much it can be passed.
- `decision/log.py:299` describes the recommended edge as meeting the target "for it and every higher
  band"; the code pools those bands. `Calibration.PoolingDiffers` is an input where the two readings
  part, `Calibration.OnlyPoolingRecommends` one where only the code recommends an edge, and
  `Calibration.ReadingsCompare` relates them on every input. The first band's pool also
  holds confidences below its edge
  (`Calibration.PoolMeans`).
- Evidence is replaced by the dictionary backend and merged column by column in SQL
  (`PostgresBackend.EvidenceAgrees` gives the exact condition for agreement), so the agreement of the
  two backends is about every other field. SQL also reads an empty base branch back as "main".
- A result file left by a timed-out call can answer the next call, and the harness may remove a request
  it never read (`SharedDir.LateAnswerReachesNextCall`, `SharedDir.UnreadRequestIsRemoved`).
  `SharedDir.SafeExactlyWhenClean` and `SharedDir.RunnableExactlyWhenIdle` give the exact
  conditions.

## Model

| member | source | states |
|---|---|---|
| Tasks.ListingIsUnique | src/dear_agent/queue/memory.py:43-46 | any two listings of the same tasks sorted by (created_at, id) are equal, whatever order the tasks were gathered in |
| Tasks.SortSorts | src/dear_agent/queue/memory.py:45 | the sort yields strictly increasing age and exactly the given tasks |
| Tasks.BeforeMeans | src/dear_agent/queue/memory.py:45 | the id order is by the first position where two strings differ, a prefix coming first |
| QueueSpec.TransportsStayUnique | src/dear_agent/queue/memory.py:22-37 | after every sequence of calls no two rows share a transport id |
| QueueSpec.ExecExtends | src/dear_agent/queue/port.py:32-92 | no call removes a row or changes its id, transport id, sender, thread or spec |
| QueueMeaning.EnqueueMeans | src/dear_agent/queue/memory.py:22-37 | a known id or transport id stores nothing; otherwise one row is added with the caller's identity and spec, no attempts, no lease and the clock's time |
| QueueMeaning.ClaimMeans | src/dear_agent/queue/memory.py:48-56 | succeeds exactly on a queued row, changing its state and lease only |
| QueueMeaning.ClaimNextMeans | src/dear_agent/queue/memory.py:58-65 | claims a queued row such that every other queued row was created later, or at the same time with a greater id; none exactly when nothing is queued |
| QueueMeaning.ListMeans | src/dear_agent/queue/memory.py:43-46 | shows rows of the state in order of creation, at most `limit`; a row left out comes after all shown, and only when the limit is full |
| QueueMeaning.SliceMeans | src/dear_agent/queue/memory.py:46 | the slice for every integer limit |
| QueueMeaning.TransitionMeans | src/dear_agent/queue/memory.py:67-85 | not-found, then conflict, then the move, which clears the lease unless the new state is running |
| QueueMeaning.ReleaseMeans | src/dear_agent/queue/memory.py:87-101 | exactly the running rows whose lease ended before the clock reading are queued again, with one more attempt and no lease, and listed in order; every other row is equal to before and not listed |
| QueueMeaning.VisibleMeans | src/dear_agent/queue/postgres.py:247-293 | two records count as shown alike exactly when they agree in every field except evidence, an empty base branch counting as "main" |
| QueueMeaning.VisibleReplyMeans | src/dear_agent/queue/port.py:32-92 | replies shown alike are of the same kind with, one by one, tasks shown alike |
| MemoryBackend.MemoryQueue.Enqueue | src/dear_agent/queue/memory.py:22-37 | refuses a known id or transport id, otherwise stores exactly one reset row; the two indexes stay in step |
| MemoryBackend.MemoryQueue.Get | src/dear_agent/queue/memory.py:39-41 | returns the stored row or nothing |
| MemoryBackend.MemoryQueue.List | src/dear_agent/queue/memory.py:43-46 | returns the slice of the oldest-first listing of the state, for every limit (a negative one drops from the end), independent of dictionary order |
| MemoryBackend.MemoryQueue.Claim | src/dear_agent/queue/memory.py:48-56 | succeeds exactly on a queued row, which becomes running with the new lease; nothing else changes |
| MemoryBackend.MemoryQueue.ClaimNext | src/dear_agent/queue/memory.py:58-65 | claims the head of the queued listing, or nothing when it is empty |
| MemoryBackend.MemoryQueue.Transition | src/dear_agent/queue/memory.py:67-85 | not-found and conflict errors exactly when the guard fails; otherwise one row moves, its lease kept only in `running`, its evidence replaced only when given |
| MemoryBackend.MemoryQueue.ReleaseStale | src/dear_agent/queue/memory.py:87-101 | the in-place sweep releases exactly the expired running rows with one more attempt and returns them oldest first |
| PostgresBackend.RowRoundTrip | src/dear_agent/queue/postgres.py:247-293 | a stored task reads back from its row exactly when it carried no evidence and named a base branch |
| PostgresBackend.EvidenceAgrees | src/dear_agent/queue/postgres.py:200-202 | merging evidence by column equals replacing it if and only if the new evidence is not empty and drops no recorded link |
| PostgresBackend.PostgresQueue.Enqueue | src/dear_agent/queue/postgres.py:93-123 | the conflict-ignoring INSERT has the port's effect and reply |
| PostgresBackend.PostgresQueue.Get | src/dear_agent/queue/postgres.py:125-130 | the SELECT by id has the port's reply |
| PostgresBackend.PostgresQueue.List | src/dear_agent/queue/postgres.py:132-145 | ORDER BY and LIMIT give the port's listing for every limit that is not negative; a negative one is an error |
| PostgresBackend.PostgresQueue.Claim | src/dear_agent/queue/postgres.py:147-161 | the guarded UPDATE has the port's effect and reply |
| PostgresBackend.PostgresQueue.ClaimNext | src/dear_agent/queue/postgres.py:163-183 | the UPDATE on the oldest queued row has the port's effect and reply |
| PostgresBackend.PostgresQueue.Transition | src/dear_agent/queue/postgres.py:185-227 | the guarded UPDATE, with a SELECT to classify a miss, has the port's effect, reply and errors |
| PostgresBackend.PostgresQueue.ReleaseStale | src/dear_agent/queue/postgres.py:229-244 | the bulk UPDATE and the sort have the port's effect and reply |
| Backends.RunBoth | src/dear_agent/queue/postgres.py:93-244 | for every sequence of calls, fresh dictionary and SQL queues give the same results and errors, call by call, namely those of `Replay` |
| ClaimAccounting.ClaimsAreConserved | src/dear_agent/queue/memory.py:22-101 | for every task and call sequence that never forces `running`: entries into queued = claims won + other exits + (1 if queued), and claims won = exits from running + lease releases + (1 if running) |
| ClaimAccounting.ClaimsAlternateWithExits | docs/queue.md:83-98 | between two successful claims of one task lies an exit from running or a lease release of it: no double claim |
| Deps.DependencyStatus | src/dear_agent/deps.py:27-57 | ready exactly when every id of the spec's list is a done row (or there is no spec), failed exactly when one is a failed or rejected row; the loop returns exactly the failed and the pending ids, in order |
| Deps.StatusFromLists | src/dear_agent/deps.py:53-57 | the quantified status is decided by which of the two lists is empty |
| Deps.UnknownOnlyBlocks | src/dear_agent/deps.py:42-45 | a dependency missing from the queue keeps the task waiting: the status is failed exactly when another dependency failed, and ready once this one and the others are done |
| Worker.RunNextRunsOldest | src/dear_agent/worker.py:59-82 | the loop starts the first task of the listing that was startable at the outset; an earlier one is failed exactly when a dependency had failed, or is failed earlier in the same scan, or its dependencies are done and a guard refuses it, and is otherwise unchanged with an unmet dependency; every other row is unchanged |
| Worker.PassKeepsReadiness | src/dear_agent/worker.py:62-75 | failing a task along the way makes no other queued task more or less startable |
| Worker.RunNext | src/dear_agent/worker.py:59-82 | the imperative loop over the oldest hundred queued tasks achieves that outcome on the live queue |
| WorkerMeaning.StartsOldestMeans | src/dear_agent/worker.py:59-82 | the task started is queued with all listed dependencies done, attempts left and its project enabled, has fewer than a hundred queued tasks ahead of it, none of which can start, and is running with the new lease |
| WorkerMeaning.StartsNoneMeans | src/dear_agent/worker.py:59-82 | where nothing is started, no queued task with fewer than a hundred ahead of it can start |
| WorkerMeaning.PassedMeans | src/dear_agent/worker.py:62-76 | a task passed over is as before or failed: failed if a dependency had failed or it was ready and refused, and only if so or if a dependency has failed by the end |
| WorkerMeaning.OthersStay | src/dear_agent/worker.py:59-82 | every row the scan does not reach is unchanged |
| Approvals.ApprovalRegistry.Issue | src/dear_agent/approvals.py:119-130 | adds one unused token expiring `ttl` after the clock reading |
| Approvals.ApprovalRegistry.Redeem | src/dear_agent/approvals.py:135-145 | unknown, used and expired tokens are refused without change; otherwise exactly that token is stamped used |
| Approvals.RedeemMeans | src/dear_agent/approvals.py:135-145 | when exactly a token is unknown, used, expired or redeemed, and that only its time of use is set |
| Approvals.FitsMeans | src/dear_agent/approvals_service.py:76-79 | a reply fits unless both name a sender and these differ by more than letter case, or both name a thread and these differ |
| Approvals.FileApprovalStore.Redeem | src/dear_agent/approvals.py:158-184 | same result as the registry, with the file again equal to the whole map |
| Approvals.FileApprovalStore.Reopen | src/dear_agent/approvals.py:173-196 | loading the file after any operations yields the same token map |
| Approvals.PayloadIsInjective | src/dear_agent/approvals.py:173-184 | the written payload determines the token map |
| Approvals.PostgresApprovalStore.Redeem | src/dear_agent/approvals.py:260-288 | the conditional UPDATE gives the registry's result and error for the same clock reading |
| Approvals.UsedStaysUsed | src/dear_agent/approvals.py:119-145 | with fresh tokens, a used token stays used through any further calls |
| Approvals.TokensAreSingleUse | src/dear_agent/approvals.py:119-145 | in every interleaving with fresh tokens a token is redeemed at most once, before the expiry set at issue, for the task and action it was issued for |
| LifecycleOrder.RunKeepsOrder | src/dear_agent/worker.py:48-82 | the ordering invariant, including what each worker's stale copies may still be relied on for, holds after every run |
| LifecycleOrder.ClaimsAreTopological | src/dear_agent/worker.py:115-123 | in every interleaving, each claimed task's spec lists only ids that were claimed before it, and only claimed tasks are ever done |
| LifecycleOrder.ChainDescends | src/dear_agent/deps.py:27-57 | along any dependency chain from a claimed task, first claims strictly descend |
| LifecycleOrder.CyclesAreNeverClaimed | src/dear_agent/deps.py:27-57 | a task on, or leading into, a dependency cycle is never claimed and never done |
| LifecycleReach.ReadyCanBeClaimed | src/dear_agent/worker.py:48-57 | the partner of the order: from every reachable state with an idle worker, a queued task under the limit with all dependencies done can be the next one claimed |
| LifecycleReach.ReadyCanFinish | src/dear_agent/worker.py:48-57 | from such a state the task can also be brought to done |
| LifecycleAlone.WorkerAloneRunsNext | src/dear_agent/worker.py:59-82 | from every reachable state, an idle worker whose steps nothing interrupts performs exactly the sequential `run_next`: same table, same task started |
| LifecycleAlone.ReplyAloneApplies | src/dear_agent/approvals_service.py:54-91 | from every reachable state, a reply whose steps nothing interrupts has exactly the effect of `ControlPlane.ApplySpec` on table and tokens |
| LifecycleApproval.ParkedTasksNeedApproval | src/dear_agent/control_plane.py:150-165 | at no point of any run is a parked task queued, running, done or ever claimed unless an unexpired `run` token for that same task was redeemed with approval, by a reply from the task's own sender and thread where both are known |
| LifecycleApproval.RedemptionsAreSingleUse | src/dear_agent/approvals_service.py:54-91 | over every interleaving of replies no token is redeemed twice, and none at or after its expiry |
| LifecycleApproval.RunKeepsGate | src/dear_agent/approvals_service.py:54-91 | the gate invariant, including what each reply in progress has established, holds after every run |
| LifecycleTerminal.ApprovalReleases | src/dear_agent/approvals_service.py:81-91 | the partner of the gate: from any reachable state an approving reply with a valid `run` token for a parked task, fitting its sender and thread, can bring it to queued |
| LifecycleTerminal.EndedNeverRunsAgain | docs/queue.md:79-80 | once a task is done, failed, rejected or approved, in every continuation it stays in one of those states and is never claimed again |
| LifecycleTerminal.LabelChangesExactlyWhen | src/dear_agent/worker.py:48-57 | in every run an ended task's label changes in a step if and only if a worker whose copy already showed that label has a guard refuse it, or reports a different outcome late |
| LifecycleTerminal.DoneBecomesFailed | src/dear_agent/worker.py:48-57 | a concrete run with a limit of one that brings a task to done and then, by `run(id)` with its attempts used up, to failed |
| LifecycleTerminal.DoneBecomesFailedByPolicy | src/dear_agent/worker.py:89-94 | for every positive limit, a run without any mishap that brings a task to done and then, its project disabled, to failed |
| LifecycleAttempts.AttemptsCountReleases | src/dear_agent/queue/memory.py:87-101 | in every run a task's attempts equal the number of leases released from it |
| LifecycleAttempts.CopiesAreEarlierRows | src/dear_agent/worker.py:59-82 | every copy a worker holds was the stored row at an earlier moment of the run |
| LifecycleAttempts.LimitHoldsExactlyWhen | src/dear_agent/worker.py:143-150 | a row about to be claimed is under the attempts limit if and only if fewer of its leases were released since the copy was read than the copy had left |
| LifecycleAttempts.OvershootIsBounded | src/dear_agent/worker.py:143-150 | in every interleaving a task's attempts exceed the limit (zero if it is negative) by at most the number of workers |
| LifecycleAttempts.ClaimsAreBounded | src/dear_agent/worker.py:143-150 | in every interleaving, stale guards included, a task is claimed at most limit plus number of workers times, and never more often than released but for the claim it runs or has ended with |
| LifecycleOvershoot.StaleGuardOvershoots | src/dear_agent/worker.py:71-76 | a concrete run with two workers and a limit of one in which a task is claimed a second time |
| LifecycleOvershoot.OvershootIsReached | src/dear_agent/worker.py:71-76 | both bounds are tight: for every positive limit and every positive number of workers some run reaches them together |
| Termination.ActMeans | src/dear_agent/queue/memory.py:48-101 | what each move does to a row, field by field |
| Termination.ActDrops | src/dear_agent/worker.py:143-150 | with guard and claim as one step, whatever the clock reads and the project policy says at each step, the measure never rises and strictly drops at each state change |
| Termination.ChangesAreBounded | src/dear_agent/queue/memory.py:87-101 | in every run, with clock and policy free to change, each task changes state at most 2 * max_attempts + 2 times |
| Termination.RunsAreFinite | src/dear_agent/worker.py:59-82 | a run whose every move changes something has at most (number of tasks) * (2 * max_attempts + 2) moves |
| Termination.QuiescentStates | src/dear_agent/worker.py:59-82 | no move can change any state if and only if every task is finished, still received, or queued behind an unmet dependency with none failed |
| SharedDir.RequestsRunAtMostOnce | src/dear_agent/runners/shared.py:95-132 | in every interleaving of file operations, timeouts included, no request is executed twice |
| SharedDir.AnswersAreOwn | src/dear_agent/runners/shared.py:66-92 | if no earlier call timed out, an answer a call returns was computed from that call's own request |
| SharedDir.SafeExactlyWhenClean | src/dear_agent/runners/shared.py:66-92 | a call can never return another call's answer if and only if, when its request is written, no result file is present and the harness is not busy with an older request |
| SharedDir.RunnableExactlyWhenIdle | src/dear_agent/runners/shared.py:112-130 | a request can still be executed if and only if, when it is written, the harness has not read an older one it is yet to remove |
| SharedDir.LateAnswerReachesNextCall | src/dear_agent/runners/shared.py:82-92 | a concrete run in which call 0 times out and call 1 returns the answer computed for call 0 |
| SharedDir.UnreadRequestIsRemoved | src/dear_agent/runners/shared.py:129-130 | a concrete run in which a waiting call's request is unlinked unread, and no continuation executes it |
| SharedDir.StartingClearsResults | src/dear_agent/runners/shared.py:70 | a call that starts while the harness owes no answer is safe, whatever result file an earlier call left |
| SharedDir.RequestsArriveIntact | src/dear_agent/runners/shared.py:71-79 | in every run, the request on disk or being run is, field by field, what some call wrote |
| SharedDir.AnswersAreProduced | src/dear_agent/runners/shared.py:125-130 | in every run, an answer on disk or returned carries the exit code of a harness run of the request it names |
| Journal.GoodPublicationMeans | src/dear_agent/executor.py:140-167 | in an accepted journal every PR follows a successful harness run and, with a verify command, a passing verify after which every harness run exited non-zero |
| Journal.PublishingMeans | src/dear_agent/executor.py:150-163 | in an accepted journal every PR comes after a commit, changes found and a push, in that order |
| Journal.WhyMeans | src/dear_agent/executor.py:140-176 | the failure recorded is that of the last effect that amounts to one, and absent exactly when none does |
| Journal.BlameMeans | src/dear_agent/executor.py:168-175 | which effect each failure kind stands for, with the exit codes 127 and 124 |
| Journal.StopsMean | src/dear_agent/executor.py:271-292 | the monitor's marks say exactly whether a review was not obtained and whether a revision failed and was dropped |
| Journal.VouchedMeans | src/dear_agent/executor.py:215-241 | the monitor's verify mark holds if and only if some verify passed with only failing harness runs since |
| Journal.ApprovalEndsRuns | src/dear_agent/executor.py:278-292 | in an accepted journal the harness never runs again after an approving verdict |
| Journal.LastMeans | src/dear_agent/executor.py:278-292 | the monitor's review is the last verdict obtained, and is absent exactly when there was none |
| Journal.RemovalsMatchStarts | src/dear_agent/sandbox.py:226-259 | in an accepted journal, for each container, starts equal removals plus one if it is live |
| Journal.EndsClean | src/dear_agent/executor.py:205-213 | when no container is live at the end, each was removed exactly as often as it was started, and no oftener than containers were started in all |
| Journal.CommandsRunSetUp | src/dear_agent/sandbox.py:242-252 | in an accepted journal every harness or verify command in a container came after all of its setup commands succeeded |
| Journal.OutsideMeans | src/dear_agent/executor.py:125-135 | the monitor counts no command outside if and only if every harness and verify command ran in a container |
| Journal.CommandsShareOneContainer | src/dear_agent/executor.py:125-135 | in an accepted journal with at most one start and no command outside, every harness and verify command ran in one and the same container, after its setup |
| Sandbox.ContainerSandbox.Wrap | src/dear_agent/sandbox.py:196-243 | starts at most one container, reuses it afterwards, records it even if setup fails, and yields a fully set up one from a usable session |
| Sandbox.ContainerSandbox.RunSetup | src/dear_agent/sandbox.py:242-252 | success means every setup command succeeded; the first failure stops |
| Sandbox.ContainerSandbox.Close | src/dear_agent/sandbox.py:254-259 | removes the recorded container once; a second call does nothing |
| Sandbox.RoutingRunner.Choose | src/dear_agent/runners/routing.py:60-76 | the decider is asked at most once per task and the remembered choice is kept |
| Sandbox.RoutingRunner.SessionFor | src/dear_agent/runners/routing.py:49-65 | the session belongs to the runner that the remembered choice selects; fails exactly when neither it nor the default exists |
| Executor.TaskExecutor.RunHarness | src/dear_agent/executor.py:243-251 | runs the harness in the session it was routed to, and outside any container only if there is none; an exception counts as a failing exit code, and exit 0 leaves the session usable |
| Executor.TaskExecutor.Verify | src/dear_agent/executor.py:215-241 | passes with a verify command only if a verify succeeded, in the given session when there is one; without a verifier or when refused it is blocked, when it fails or raises it is failed |
| Executor.TaskExecutor.Debate | src/dear_agent/executor.py:253-292 | at most R revisions and R + 1 reviews, one review per run; it stops without failure only on approval, a review not obtained, a dropped revision or no revision left; the recorded review is the last verdict and the work is still vouched for |
| Executor.TaskExecutor.Publish | src/dear_agent/executor.py:150-167 | opens one PR, after the commit, the changes and the push; a git error or an empty change opens none and is recorded as such |
| Executor.TaskExecutor.Conclude | src/dear_agent/executor.py:177-204 | one transition out of running, to done exactly when a PR url is recorded |
| Executor.TaskExecutor.Produce | src/dear_agent/executor.py:125-176 | PRs only for vouched work; a failure kind exactly when there is no PR url; exit codes classify harness failures |
| Executor.TaskExecutor.Execute | src/dear_agent/executor.py:125-213 | on every path, normal or exceptional: the journal is accepted by both monitors, at most one container was started and none is left, no command ran outside it if each routed harness (or, without routing, the fixed harness and the verifier) has a session, the decider was asked at most once, and the task left running exactly once, with the failure the journal shows, unless an error escaped before the transition |
| ControlPlane.Apply | src/dear_agent/approvals_service.py:54-91 | decides if and only if the token is known, unused and unexpired, its task is in action and sender and thread fit; then the token is used and the task is rejected, queued (approving a `run` token) or approved; otherwise nothing changes |
| ControlPlane.Inbound.Ingest | src/dear_agent/control_plane.py:107-167 | the loop's effect on queue, tokens and report is the fold of its deliveries |
| ControlPlane.RefusedMeans | src/dear_agent/control_plane.py:110-148 | a message not admitted is only listed as denied; one that is no task, or whose repository is not allowed, only as rejected |
| ControlPlane.DecisionMeans | src/dear_agent/control_plane.py:117-124 | an in-thread reply is listed as decided exactly when it may decide |
| ControlPlane.OfferedMeans | src/dear_agent/control_plane.py:150-165 | a known message stores nothing; a new one is stored once with its own thread, sender, subject, spec and time, and the lists change accordingly |
| ControlPlane.RedeliveryIsNoOp | src/dear_agent/control_plane.py:155-158 | after a message is accepted, whatever later batches hold, delivering it again changes no task, issues no token and accepts nothing |
| ControlPlane.ReportsAreSound | src/dear_agent/control_plane.py:107-167 | in a batch with distinct ids each message is in at most one of accepted, rejected, denied and decided; in any batch needs_human is within gated, and gated within accepted |
| ControlPlane.RiskyIsParked | src/dear_agent/control_plane.py:150-203 | an accepted message is stored in action, with a run token of its own, if and only if approvals are configured and a scanner flags it or it needs a human, and is queued otherwise, although the second scanner's finding is skipped for an id already listed |
| RateLimit.NewRateLimiter | src/dear_agent/auth.py:94-106 | a limiter with no history, or an error exactly for a limit that is not positive |
| RateLimit.RateLimiter.Check | src/dear_agent/auth.py:108-117 | prunes, then admits exactly below the limit, and records the admission for that sender only |
| RateLimit.KeyMeans | src/dear_agent/auth.py:109 | two senders share a quota exactly when they are equal or both anonymous |
| RateLimit.CheckMeans | src/dear_agent/auth.py:108-117 | a check admits exactly if fewer than `limit` of its sender's moments are left after pruning, stores those and its own if admitted, and touches no other sender |
| RateLimit.AfterMeans | src/dear_agent/auth.py:112 | pruning keeps exactly the moments after the cutoff |
| RateLimit.RateLimitedGate.Admit | src/dear_agent/auth.py:144-147 | a message the inner gate refuses uses no quota |
| RateLimit.PrunedAgreesWithHistory | src/dear_agent/auth.py:108-117 | with a clock that never runs back, the pruned list agrees with the full history of admissions as far as any later check looks |
| RateLimit.AdmittedExactlyUnderLimit | src/dear_agent/auth.py:108-117 | over every history, a check is admitted if and only if fewer than `limit` earlier admissions of that sender lie in its window |
| RateLimit.RateIsBounded | src/dear_agent/auth.py:87-117 | over every history no interval (t - window, t] holds more than `limit` admissions of a sender |
| RateLimit.AdmittedExactlyCounted | src/dear_agent/auth.py:108-117 | the same condition, counting the admitted checks of the sender with a reading in (t - window, t] |
| RateLimit.RateIsBoundedCounted | src/dear_agent/auth.py:87-117 | the same bound, counting those checks |
| AuthResults.AuthResultsBlocks | src/dear_agent/auth.py:205-220 | the loop over the lines of the raw text computes its fields |
| AuthResults.LinesAppend | src/dear_agent/auth.py:209 | text after a line feed is split into lines on its own, with every line boundary `splitlines` knows |
| AuthResults.FieldsCover | src/dear_agent/auth.py:205-220 | the fields put together are the lines, but for leading blank ones; every field but the first begins with a field start, and none has one inside |
| AuthResults.FieldsAreTheCut | src/dear_agent/auth.py:205-220 | the loop's fields are the only list with those properties |
| AuthResults.FieldsAppend | src/dear_agent/auth.py:205-220 | lines that open a field never join what came before |
| AuthResults.InsertedFieldsAreDiscarded | src/dear_agent/auth.py:238-249 | whole fields of other authserv-ids inserted into the raw text before, between or after fields leave the trusted text unchanged |
| AuthMeaning.FieldStartMeans | src/dear_agent/auth.py:199-202 | a line starts a field exactly when it is an authserv-id between spaces, perhaps with a comment after at least one space, and a semicolon |
| AuthMeaning.AuthServIdMeans | src/dear_agent/auth.py:223-225 | the authserv-id is the first word before the semicolon |
| AuthMeaning.DomainMeans | src/dear_agent/auth.py:233-234 | surrounding space, letter case and final dots make no difference to a host |
| AuthMeaning.MatchesMeans | src/dear_agent/auth.py:228-235 | an authserv-id matches exactly when it is the configured host or something and a dot before it |
| AuthMeaning.TrustsMeans | src/dear_agent/auth.py:246-248 | without a configured host every field is trusted, with one those whose authserv-id matches |
| AuthMeaning.FirstLineMeans | src/dear_agent/auth.py:209 | a line ends at each line boundary, a carriage return taking a following line feed along |
| AuthMeaning.ClassesMean | src/dear_agent/auth.py:202 | the character classes, code point by code point |
| AuthMeaning.TrustedMeans | src/dear_agent/auth.py:246-248 | a field is kept exactly when it is trusted, and all are kept when all are |
| AuthMeaning.TrustedTextMeans | src/dear_agent/auth.py:238-249 | the trusted text is, line by line, the trusted fields of the raw text; there is none exactly when no field is trusted |
| AuthResults.ParseAuthenticationResults | src/dear_agent/auth.py:252-278 | the loop over the clauses, each read for its mechanism and its properties, keeps the first value for each key |
| AuthResults.VerdictsAreFirst | src/dear_agent/auth.py:252-278 | only the four mechanisms and the three domains are reported, each with the value of the least binding for it in the text |
| AuthResults.LaterClausesNeverOverride | src/dear_agent/auth.py:252-278 | parsing two joined texts is the second's verdicts overlaid with the first's |
| AuthVerdicts.PropertyVerdict | src/dear_agent/auth.py:268-277 | for every plain value, `header.from=v` reports the DMARC domain v, `header.d=v` the DKIM domain and `smtp.mailfrom=v` the SPF domain, and nothing else |
| AuthVerdicts.AddressVerdict | src/dear_agent/auth.py:268-277 | for an address, the part after the last "@" is reported |
| AuthVerdicts.AddressMeans | src/dear_agent/auth.py:186-187 | brackets and local part are dropped and the host is put in small letters |
| AuthVerdicts.SignerMeans | src/dear_agent/auth.py:274-275 | a DKIM domain loses brackets and leading "@" |
| AuthVerdicts.MechanismVerdict | src/dear_agent/auth.py:262-267 | for each of the four mechanisms and every word, `m=w`, in any letter case, reports exactly that in small letters |
| AuthVerdicts.UsualClause | src/dear_agent/auth.py:261-277 | `m=w name=v` reports exactly both |
| AuthVerdicts.PropertySource | src/dear_agent/auth.py:268-272 | every property reported comes from an occurrence in the text of its own name, "=" between spaces, and its value |
| Jsonc.StripJsonc | src/dear_agent/environment/descriptor.py:192-228 | the character loop equals tokenising into literals, comments and other text and dropping the comments, for every input |
| Jsonc.TokensCoverText | src/dear_agent/environment/descriptor.py:192-228 | the tokens, put together, are the text |
| Jsonc.StripIsIdempotent | src/dear_agent/environment/descriptor.py:192-228 | stripping twice is stripping once |
| Jsonc.StripKeepsLiterals | src/dear_agent/environment/descriptor.py:200-214 | the string literals of the output are those of the input, character for character, in order |
| Jsonc.NoCommentLeft | src/dear_agent/environment/descriptor.py:215-225 | the output holds no comment |
| JsoncMeaning.BodyMeans | src/dear_agent/environment/descriptor.py:200-209 | a literal runs to the first quote with an even number of backslashes before it, or to the end |
| JsoncMeaning.LineMeans | src/dear_agent/environment/descriptor.py:215-219 | a line comment runs up to the first carriage return or line feed |
| JsoncMeaning.BlockMeans | src/dear_agent/environment/descriptor.py:220-225 | a block comment runs to and including the first "*/", or to the end |
| JsoncMeaning.HeadMeans | src/dear_agent/environment/descriptor.py:210-227 | the kind and extent of the next token, by its first two characters |
| JsoncMeaning.KeptMeans | src/dear_agent/environment/descriptor.py:192-228 | exactly the comments are dropped, in any context |
| JsoncMeaning.StripShortens | src/dear_agent/environment/descriptor.py:192-228 | the output is shorter by exactly the comments; a text is unchanged if and only if it holds none |
| Calibration.BandOfIsHighestReached | src/dear_agent/decision/log.py:288-293 | a confidence is in the highest band whose edge it reaches, else the first |
| Calibration.BucketIndex | src/dear_agent/decision/log.py:288-293 | the loop finds that band |
| Calibration.BandsPartition | src/dear_agent/decision/log.py:181-210 | band counts sum to `labeled` and band corrects to `correct` |
| Calibration.PoolMeans | src/dear_agent/decision/log.py:296-307 | above the first band, the pool at an edge is exactly the entries that reach it; the first band's pool is all entries |
| Calibration.Recommend | src/dear_agent/decision/log.py:296-307 | the least edge whose pooled, non-empty entries meet the target, or none if no edge does |
| Calibration.DocumentedIsPooled | src/dear_agent/decision/log.py:299-306 | an edge whose every band upward meets the target on its own, with something to go by, also meets it pooled |
| Calibration.ReadingsCompare | src/dear_agent/decision/log.py:296-307 | on every input: where the code recommends no edge neither does the documentation, the code's edge is never above the documented one, and they are equal if and only if every band from the code's edge upward meets the target on its own |
| Calibration.OnlyPoolingRecommends | src/dear_agent/decision/log.py:299-306 | a concrete input where the code recommends an edge and the documentation none |
| Calibration.PoolingDiffers | src/dear_agent/decision/log.py:299-306 | a concrete input where the pooled edge lies below the documented one |
| Calibration.CalibrateRecords | src/dear_agent/decision/log.py:166-212 | totals, each band's edges and tallies, the two sums and the recommendation, for every record list and edge set; fails exactly on an empty edge set with a labelled entry |
| Calibration.TallyMeans | src/dear_agent/decision/log.py:184-196 | every tally is the number of records with an answer, a label and a confidence in the band or pool, and for right answers with the answer equal to the label |
| Calibration.ReportMeans | src/dear_agent/decision/log.py:181-212 | the whole report in the fields of the records: totals, each band's edges and counts, and the least edge whose pool reaches the target |

## Left out

- Mail, HTTP, Kubernetes, forge and model clients, and the CLI: input and output only. Harness, reviewer, git and decider are arbitrary outcomes; manual `task` commands are not steps of the system.
- The error-budget guard, events, dispatch manifests and notifications: a refusing budget guard only keeps a worker idle.
- Transactions below one SQL statement and reconnection: each statement with its commit is one atomic step, and the `state` column's text is the state it spells.
- Aliasing of Python task objects: records are copied on the way in and out, so they are values here; the dictionaries are fields that methods reassign.
- Token randomness, HMAC and hashes: tokens are parameters and `TokensAreFresh` states that issued ones differ; in `Lifecycle` issuing a token that already exists does nothing.
- JSON and ISO date encodings: taken as invertible; floats are exact reals.
- PostgresBackend.PostgresQueue.List: `ORDER BY created_at, id` is taken to compare ids by code point, as Python does; under another database collation ids created at the same instant may be listed in another order.
- PostgresBackend.PostgresQueue.ClaimNext: takes the same order on ids as `List`.
- Backends.RunBoth: takes one total order on ids for both backends and list limits that are not negative, and says nothing about delivery evidence, which the backends treat differently; `PostgresBackend.EvidenceAgrees` gives the exact condition.
- Worker.RunNext: ends where the claimed task is handed to the executor, whose behaviour is in `Executor`.
- SharedDir: calls are numbered so that answers can be told apart, which the files do not do; `write_text` is atomic; the request's task id and model request are not carried.
- Executor.TaskExecutor.Execute: starts where the worktree exists and assumes the factory's wiring (`Valid`: a fixed runner and the verifier use the executor's session or none); worktree creation and removal, commit ids and message texts are not modelled, and a PR that the forge opens while reporting an error is not seen.
- Sandbox.ContainerSandbox.Close: issuing `rm -f` counts as the removal; its exit status is ignored, as in the code, and a failure to start the command at all, which would escape from `close`, is not modelled.
- ControlPlane.Inbound.Ingest: authentication, repository policy, scanners and deciders answer arbitrarily per delivery; sending the request for approval and acknowledging do not fail.
- AuthResults.ParseAuthenticationResults: letter case is ASCII, for lowering and for matching property names.
- Termination.ChangesAreBounded: guard and claim are one step and the task set is fixed; with stale guards the limit itself can be passed, as `LifecycleOvershoot.StaleGuardOvershoots` shows.
