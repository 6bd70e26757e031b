# Hookclose runtime: a verified model

A Dafny 4.11 model of the deterministic core of the Hookclose runtime, with proofs about
whole runs and interleavings. `dafny verify dfyconfig.toml` checks everything.

| component | files | what is modelled |
|---|---|---|
| task queue | `TaskTable`, `TaskQueue`, `QueueRuns`, `QueueLists`, `QueueLosses`, `QueueLiveness`, `QueueResults`, `QueueProcesses` | the task table, the Redis lists, one scheduler and any number of consumers, as a step system in which every awaited call is one atomic step |
| dependency graph | `Graph` | incremental cycle prevention, readiness, progress |
| chaining | `Chaining`, `Pipeline` | follow-up tasks under a depth bound, and the stages they run through |
| self-healing | `Healing`, `HealingOverlap`, `HealingExclusion`, `Normalize`, `NormalForm` | the repair decisions, one call at a time and overlapping, and the message normalisation behind signatures |
| providers | `Provider`, `ProviderHistory`, `Persistence`, `Registry`, `Failover`, `CallerOrder`, `Manager`, `FleetRuns`, `BudgetBound`, `CallSchedule` | health with its clock, snapshots, failover, concurrent calls and budget |
| routing | `Routing`, `Ranks`, `Decisions`, `LastResort`, `Ordering` | affinity scores over reals, rounding and sorting, and the place of the local model |
| worker | `Worker` | attempts over steps, with the event trace |

## How it is modelled

**Faults.** In the task queue a call may fail *without* effect (`Lost`) or *after* having taken
effect (`Late`); either way the caller drops the rest of its iteration, as the `except` clauses do.
There is one scheduler (`docker-compose.yml` runs one container of it), and tasks are created
PENDING with unused ids. Safety is proved for all faults, liveness for fault-free runs of any set
of running consumers.
`QueueProcesses` holds the two loops as imperative code over a repository and a Redis object, with
the other processes moving between any two of their calls, and shows each iteration to be part of a
run of the step system, so the theorems about runs apply to them.

**Tokens.** A task can be executed from a *place*: an index of a list, a consumer's hands, or the
scheduler's hands between its update and its push. "At most one token" says that no two different
places hold the same task.

**Clocks, vendors, commands, ids.** Instants are whole microseconds. Clock readings, vendor
outcomes, command results, generation results, fresh task ids and the rounding function are
parameters, and the results hold for all of them. Error strings are carried only as far as a branch or a field depends on them.

## Findings

Where code and documentation differ, the model follows the code.

- **Attempts count from the dispatch.** The scheduler writes `attempts=1` before the first
  execution, so a task runs at most max(1, max_attempts - 1) times and a FAILED task ran exactly
  that often (`ExecutionsAreBounded`): with the default of 3, twice.
- **FAILED has no cooldown.** The module header promises a cooldown once the failure threshold is
  hit, and the code does store one, but `refresh` does not look at FAILED. A FAILED provider
  recovers if and only if an invocation is still in flight (`FailedRecoversIff`). The COOLDOWN
  status is never entered (`Consistent` in `HealthIsAccounted`).
- **The lists are stacks.** Tasks are pushed and popped at the same end, so the messages that have
  waited longest stay where they are until everything pushed later, retries included, has been
  taken (`OldestWaitLongest`). No document of the repository promises another order.
- **Some failing calls lose a task for good.** A task is stranded in SCHEDULED, RUNNING or RETRYING
  if and only if one of these calls failed on it at some point (`StrandedIffACallStrandedIt`,
  `StepStrandsIff`): the scheduler's SCHEDULED write after taking effect, or its push before; a pop
  after taking effect; any call of a consumer between the pop and the attempt count; a RETRYING
  write, whether or not it took effect, or a FAILED or COMPLETED write that did not; a push back
  that did not. It stays so in every continuation (`StrandedForever`), and it does happen
  (`TasksDoGetLost`).
- **Unserved lists.** A task whose provider's list no running consumer serves never gets beyond
  SCHEDULED and is never executed (`UnservedNeverRuns`); the shipped deployment runs one worker, on
  `tasks:opencode` (`docker-compose.yml`, `opencode-worker/main.py:30`).
- **Repair tasks wait for the task they repair.** A repair child depends on the failed task, so it
  is ready only after the failed task is itself marked done (`RepairWaitsForFailedTask`), although
  the header describes it as the continuation.
- **Overlapping failures exceed the repair maximum.** `handle_failure` suspends between reading the
  attempts of a signature and recording its own, so k overlapping calls can make up to M - 1 + k
  repair attempts, where M is the maximum. The exact number, for every category and policy, is
  `OverlapLimit` (`OverlapBound`, `OverlapBoundIsAttained`). The documented maximum holds if and only
  if k <= 1, or the category is not fixed mechanically, the rollback threshold R is at most M + 1, and
  for timeouts also k <= M (`MaximumHoldsIff`). The closed form holds for calls that do not overlap
  (`NotOverlappingIsSequential`).
- **Overlap can mix rollback and escalation.** Without overlap no signature sees both
  (`RollbackExcludesEscalation`). With up to k overlapping calls one can if and only if its category
  is not fixed mechanically and M + 1 <= R <= M - 1 + k with M >= 1, or, for timeouts, M >= 2 and
  either that or R <= M <= k (`BothHappenIff`). Under the default policy (M = R = 3) this takes a
  timeout and at least three overlapping calls (`DefaultPolicyMixes`).
- **Truncation breaks normalisation.** `_normalize` is idempotent exactly when the 160-character
  cut neither ends in a space nor leaves a number as the last word (`NormalizeTwiceIff`);
  `CutCanBreakIdempotence` gives a text for which it is not.
- **The budget is checked once per call.** With k calls at once a budget B can be overshot to
  B - 1 + k * T tokens (`BudgetOvershoot`). For k, T >= 1 no smaller bound holds, whatever the
  budget (`BudgetBoundIsAttained`).
- **"Local is last resort" can fail by a tie.** Under the default policy the local model comes before
  a paid provider if and only if the complexity of the request is exactly 1, the provider's cost as a
  share of the dearest candidate's rounds to zero at six digits, and the local model's name is the
  smaller one (`LocalBeforePaidIff`); when all other candidates are paid it is sorted last unless one
  of them is such a provider (`LocalIsLastIff`). Costs above half a millionth of the dearest rule it
  out (`LocalIsLastResort`); `ThreeProviders` shows it. For exact scores the promise holds from
  complexity 1/11 upwards (`LastResortIff`), for the rounded ones above 0.0909085
  (`ListedLastResortIff`).
- **A limit can end early.** A rate-limited or exhausted provider is back before its cooldown if and
  only if an invocation was still in flight, whose success ends the limit (`LimitEndsEarlyIff`).
- **A refused edge leaves its tasks behind.** `add_dependency` registers both tasks before it
  raises `CycleError` (`AddDependency`).

## Model

| member | source | states |
|---|---|---|
| TaskTable.TaskRepository.Create | tasks/repository.py:14-34 | a row with the task's status and zero attempts is inserted; a taken id fails and changes nothing |
| TaskTable.TaskRepository.Get | tasks/repository.py:36-41 | the row of the id, or nothing exactly if there is none |
| TaskTable.TaskRepository.UpdateStatus | tasks/repository.py:43-73 | the statement assembled with running parameter numbers gives each column the caller's value, keeps columns not given, and ignores a missing task |
| TaskTable.TaskRepository.GetPending | tasks/repository.py:75-81 | the oldest pending tasks, oldest first, at most the limit, none left out that is older |
| TaskQueue.StepKeepsInv | opencode-worker/main.py:61-103 | every step of every process, with any fault, keeps: one token per task, tokens only where the status allows, queue entries faithful to their rows, snapshot tasks still pending |
| QueueRuns.SingleTokenAlways | opencode-worker/main.py:61-103 | in every interleaving with faults no task has two tokens, no two consumers work on one task, and a counter about to be written back is not stale |
| QueueRuns.StepFollowsLifeCycle | opencode-worker/main.py:72-99 | each step moves a task only along PENDING, SCHEDULED, RUNNING, then COMPLETED, FAILED or RETRYING, and back to RUNNING; a finished row is not touched |
| QueueRuns.TerminalRowsAreStable | tasks/repository.py:43-73 | once COMPLETED or FAILED, a row never changes again in any run |
| QueueLosses.StepStrandsIff | opencode-worker/main.py:61-103 | a step strands a task that was not stranded if and only if it is one of the listed failing calls on it |
| QueueLosses.StrandedIffACallStrandedIt | opencode-worker/main.py:101-103 | over whole runs with any faults, a task is dispatched, unfinished and without a token if and only if one of those calls failed on it |
| QueueLosses.StrandedForever | opencode-worker/main.py:101-103 | a stranded task keeps its row, and stays without a token, in every continuation |
| QueueLosses.TasksDoGetLost | scheduler/main.py:80-97 | a run of three steps that strands a task |
| QueueRuns.ExecutionsAreBounded | opencode-worker/main.py:75-92 | in every run a task is executed at most max(1, max_attempts - 1) times; PENDING means never, FAILED exactly that often with attempts one higher and an error; the row's attempts follow from its status and count |
| QueueResults.RowsTellOutcomes | opencode-worker/main.py:72-97 | in every run with faults a COMPLETED row has exactly the result of its task's last execution, which did not fail, all earlier ones having failed; a RETRYING or FAILED row has the error of the last execution, all having failed; no other row has a result |
| QueueResults.SuccessIsRecorded | opencode-worker/main.py:94-97 | without faults, a served task one of whose executions did not fail ends COMPLETED with that execution's result, and it was the last |
| QueueLists.ConsumersGetTheirOwnWork | scheduler/main.py:80-97 | in every run a consumer works only on tasks of the provider whose list it serves, with the job their row asks for |
| QueueLists.UnservedNeverRuns | opencode-worker/main.py:30-64 | whatever fails, a task whose provider's list nobody serves stays PENDING or SCHEDULED and is never executed |
| QueueLists.ShippedListIsDefault | opencode-worker/main.py:30 | the list the worker serves by default is that of tasks whose provider is absent or "opencode" |
| QueueLists.RowsStayAsCreated | tasks/repository.py:14-34 | throughout any run a row keeps the job, provider, maximum and age its task was created with |
| QueueLists.DispatchesOldestFirst | scheduler/main.py:80-85 | in any run a poll takes at most ten tasks, and none is dispatched while an older one of the same poll waits |
| QueueLists.OldestWaitLongest | opencode-worker/main.py:64-83 | over any run the n messages that have waited longest stay in place for as long as the list never holds fewer than n |
| QueueLiveness.FaultFreeTokens | scheduler/main.py:80-97 | without faults a task has a token exactly if it is SCHEDULED, RUNNING or RETRYING, and then one |
| QueueLiveness.BusyStepDrops | scheduler/main.py:77-123 | every fault-free step that does something loses no task and lowers a measure |
| QueueLiveness.FaultFreeRunsTerminate | opencode-worker/main.py:61-103 | without faults and arrivals the number of non-idle steps is at most the measure |
| QueueLiveness.FaultFreeRunsFinish | opencode-worker/main.py:61-103 | a fault-free run with nothing left to do has completed or failed every task that is served; every other task is SCHEDULED |
| QueueLiveness.RunsCanComplete | opencode-worker/main.py:61-103 | every fault-free run can be continued, without new tasks and with any outcome of executions, until nothing is left to do |
| QueueLiveness.AlwaysFailingTask | opencode-worker/main.py:75-92 | an always-failing task that is served ends FAILED after exactly max(1, max_attempts - 1) executions |
| QueueLiveness.FailingTaskRunsOut | opencode-worker/main.py:75-92 | from every new task that is served there is such a run |
| QueueProcesses.Runtime.ConsumeOnce | opencode-worker/main.py:61-103 | with the other processes moving between any two of its calls, one iteration of the consumer loop continues the protocol run by its own calls, each going as the fault schedule says, and leaves it idle |
| QueueProcesses.Runtime.RetryOrFail | opencode-worker/main.py:75-92 | with others moving in between, the error branch reads the counter, then requeues or fails, as protocol steps |
| QueueProcesses.Runtime.PollOnce | scheduler/main.py:77-123 | with others moving in between, one iteration of the dispatch loop continues the protocol run by scheduler calls and leaves it resting |
| Graph.TaskDependencyGraph.ReachesFrom | orchestration/graph.py:51-63 | the stack search terminates and answers true exactly if a prerequisite path exists |
| Graph.TaskDependencyGraph.AddDependency | orchestration/graph.py:25-31 | refused exactly if the edge would close a cycle; otherwise added; both tasks registered either way; the graph stays acyclic and closed |
| Graph.EdgeClosesCycleIff | orchestration/graph.py:29-30 | a new edge closes a cycle exactly when its target already reaches its source |
| Graph.AnyHistoryIsAcyclic | orchestration/graph.py:22-35 | after any sequence of calls, refused ones included, the graph is acyclic, closed, and holds only edges that were asked for |
| Graph.EdgesAreAccepted | orchestration/graph.py:25-31 | after any sequence of calls the graph holds exactly the edges whose call found no way back |
| Graph.RegisteredAreMentioned | orchestration/graph.py:22-35 | and exactly the tasks that some call mentioned |
| Graph.TaskDependencyGraph.MarkDone | orchestration/graph.py:33-35 | the task is registered and done, nothing else changes |
| Graph.TaskDependencyGraph.Ready | orchestration/graph.py:40-46 | exactly the undone tasks whose prerequisites are done; empty exactly when nothing is undone |
| Graph.TaskDependencyGraph.IsComplete | orchestration/graph.py:48-49 | true exactly when no registered task is undone |
| Graph.CompletingReadyTasks | orchestration/graph.py:33-49 | completing ready tasks never repeats one, places each after its prerequisites, cannot get stuck, and ends after exactly the unfinished tasks |
| Chaining.TaskChainer.OnCompleted | orchestration/chaining.py:115-137 | the task is marked done; a stage without continuation adds no event; at the depth bound one ChainTerminated; otherwise one task of the next stage in the parent's chain, workflow and provider, recorded behind what its root had, and one NextTaskGenerated; CycleError exactly if the child is the parent or one of its prerequisites |
| Chaining.TaskChainer.OnFailed | orchestration/chaining.py:139-182 | exactly if the attempts are used up one EscalationRaised and no task; otherwise at the depth bound one ChainTerminated; otherwise one repair naming the failed task and its type, announced with attempts + 1 |
| Chaining.TaskChainer.LinkAndRecord | orchestration/chaining.py:180-182 | refused exactly if the child is the parent or a direct or indirect prerequisite of it, never for a fresh id; a refused child is not recorded |
| Chaining.BoundedChaining | orchestration/chaining.py:115-182 | if each task reports once, a task at depth d yields at most max(0, max_depth - d) descendants, for any continuation map and outcomes |
| Chaining.ChainKeepsRoot | orchestration/chaining.py:47-56 | all descendants keep the ancestor's root, are deeper than it, and within max_depth |
| Chaining.RunKeepsLinks | orchestration/chaining.py:169-182 | over every run a generated task has its parent as only prerequisite, no id is generated twice, and depth and root are handed on between generated tasks |
| Chaining.LinkReport | orchestration/chaining.py:169-182 | every generated task comes from a report of its parent and has that task's root, its id as parent, and one more than its depth |
| Chaining.ContinuationStaysReady | orchestration/chaining.py:115-137 | a continuation is ready on return, and ready in every later state exactly while it is not done |
| Chaining.RepairWaitsForFailedTask | orchestration/chaining.py:139-165 | a repair child is ready exactly while undone with the failed task marked done |
| Pipeline.PipelineFollows | orchestration/chaining.py:115-137 | if each continuation completes, one task is generated per remaining stage, in order, cut off only by the depth bound |
| Pipeline.DefaultStages | orchestration/chaining.py:66-79 | the default policy leads from codegen and from repair through testing, review and deploy, and no further |
| Pipeline.DefaultDepth | orchestration/chaining.py:58-64 | under the default policy nothing is generated deeper than 8 |
| Healing.SelfHealingRuntime.HandleFailure | orchestration/self_healing.py:245-285 | without overlap the decision follows the table for the category and the number of failures, is numbered by the attempts in the log, and publishes the analysis with its flag, the decision, and a rollback or an escalation exactly on those actions |
| Healing.ActionsAreClosedForm | orchestration/self_healing.py:287-301 | for any interleaving of signatures in calls that do not overlap, the i-th action depends only on its own signature's count: L repair attempts, then one action for ever |
| Healing.AnswersFollowTable | orchestration/self_healing.py:46-49 | for any policy and failures each category's answers: mechanical fixes exactly for lint and dependency failures up to the maximum, a retry exactly for a first timeout, and when a model repair, a rollback or an escalation |
| Healing.DecideIsClosedForm | orchestration/self_healing.py:287-301 | the branches of the decision, on the counters that arise, are the closed form, for all policy values |
| Healing.CountersAreClosedForm | orchestration/self_healing.py:184-212 | without overlap, occurrences and attempts of a signature depend on its own failures only |
| Healing.OccurrencesAreAccounted | orchestration/self_healing.py:199-212 | without overlap, occurrences are attempts plus rollbacks plus escalations, and attempts stay within the maximum |
| Healing.RollbackExcludesEscalation | orchestration/self_healing.py:287-301 | without overlap, no signature sees both a rollback and an escalation |
| HealingOverlap.NotOverlappingIsSequential | orchestration/self_healing.py:245-266 | a run in which calls never overlap leaves the counters of handling its failures one after another |
| HealingOverlap.OverlappingIsAccounted | orchestration/self_healing.py:245-266 | however calls overlap, occurrences are attempts, rollbacks, escalations and suspended calls |
| HealingOverlap.OverlapBound | orchestration/self_healing.py:251-267 | with at most k overlapping calls about it a signature never gets more repair attempts than a limit in k, at most M - 1 + k, which for k = 1 is the closed form's |
| HealingOverlap.NoOverlapNoExcess | orchestration/self_healing.py:287-301 | with one call at a time that limit is the closed form's number of repair attempts |
| HealingOverlap.OverlapBoundIsAttained | orchestration/self_healing.py:251-267 | for every category, policy and k some run makes exactly that many |
| HealingOverlap.MaximumHoldsIff | orchestration/self_healing.py:9-11 | the documented maximum holds in all runs exactly when calls do not overlap, or the category is not fixed mechanically and the rollback threshold (and for timeouts the overlap itself) stays within it |
| HealingExclusion.BothHappenIff | orchestration/self_healing.py:245-301 | with at most k overlapping calls some run leads a signature to both a rollback and an escalation exactly under the stated condition on category, maximum, threshold and k |
| HealingExclusion.DefaultPolicyMixes | orchestration/self_healing.py:177-181 | under the default policy the condition is a timeout and at least three overlapping calls |
| HealingExclusion.OverlapBreaksExclusion | orchestration/self_healing.py:287-301 | the shortest such run, for one attempt and a threshold of two |
| Normalize.MatchIsWholeNumber | orchestration/self_healing.py:102 | the regular expression matches exactly the whole words that are decimal or 0x-hexadecimal numbers |
| NormalForm.CharacterClasses | orchestration/self_healing.py:102 | which codes are digits, hexadecimal digits, word characters and white space |
| NormalForm.NumberIs | orchestration/self_healing.py:102 | decimal digits, or 0x followed by hexadecimal digits of either case |
| NormalForm.NumberBecomesN | orchestration/self_healing.py:172-174 | a whole-word number becomes N, both sides being substituted on their own |
| NormalForm.SubstituteChangesIff | orchestration/self_healing.py:172-174 | exactly the texts without a whole-word number are left alone |
| NormalForm.StripIs | orchestration/self_healing.py:174 | stripping takes exactly the white space at the ends |
| NormalForm.NormalizeIs | orchestration/self_healing.py:174 | the first 160 characters of the substituted and stripped text |
| Normalize.NumbersAreInterchangeable | orchestration/self_healing.py:172-174 | replacing a whole-word number by any other leaves the normalised message unchanged |
| Normalize.NormalizeTwiceIff | orchestration/self_healing.py:172-174 | normalisation is idempotent exactly when nothing is cut, or the cut ends neither in a space nor in a number |
| Normalize.CutCanBreakIdempotence | orchestration/self_healing.py:172-174 | a text whose truncation is normalised again |
| Provider.BaseProvider.RefreshAt | providers/base.py:67-81 | an elapsed cooldown is cleared, except of a FAILED provider, and recovery is reported exactly then |
| Provider.BaseProvider.Complete | providers/base.py:85-102 | the verdict and the health left behind: unavailable without a request counted, or the vendor's outcome recorded |
| Provider.BaseProvider.RecordFailureAt | providers/base.py:113-131 | rate limit, credit exhaustion and generic failures each set their own status and cooldown |
| Provider.HealthIsAccounted | providers/base.py:67-131 | with any number in flight: requests are successes, failures and in-flight calls; tokens are the sum of replies; AVAILABLE exactly without cooldown and then below the threshold |
| ProviderHistory.HealthIsHistory | providers/base.py:67-131 | with any number in flight: the failure count is that of generic failures since the last reply or recovery; status, cooldown and last error are those of the last failures since then; the last use is the last reply |
| ProviderHistory.FailedExactlyAtMaximum | providers/base.py:127-131 | a failure makes a provider FAILED exactly if it is generic and brings that count to the maximum |
| Provider.HasBudgetIff | providers/base.py:59-65 | tokens are left, and at least the estimate |
| Provider.RecoversExactlyAtCooldown | providers/base.py:67-81 | as long as nothing in flight is answered, a rate-limited or offline provider becomes available at exactly the checks at or after cooldown_until |
| Provider.LimitLastsItsCooldown | providers/base.py:117-126 | as long as nothing in flight is answered, a rate limit keeps a provider out exactly until its cooldown has passed, credit exhaustion until its own, whatever is checked or called |
| Provider.LimitEndsEarlyIff | providers/base.py:104-111 | such a limit can end before its cooldown if and only if an invocation is in flight |
| Provider.FailedIsAbsorbing | providers/base.py:70-72 | with nothing in flight FAILED is never left, through any checks and calls at any times |
| Provider.FailedRecoversIff | providers/base.py:104-131 | a FAILED provider can become available again if and only if an invocation is in flight |
| Persistence.DictRoundTrip | providers/persistence.py:32-58 | reading back a written health gives the same health, for every way of writing instants that can be read back |
| Persistence.DictHas | providers/persistence.py:32-42 | the entries of the dictionary form |
| Persistence.ReadableIff | providers/persistence.py:45-58 | a dictionary can be read exactly if the status is a known name and no counter is missing |
| Persistence.WritingRoundTrips | providers/persistence.py:36-42 | such a way of writing instants exists |
| Persistence.InMemoryProviderStateStore.Save | providers/persistence.py:67-68 | the named snapshot is replaced, the others are kept |
| Registry.ProviderRegistry.Register | providers/registry.py:24-27 | a taken name is refused unless replacing; otherwise the catalogue gains exactly that provider |
| Registry.FailoverOrder | providers/registry.py:38-52 | the default order is sorted by weight, cost and name, holds exactly the supporting providers, and does not depend on registration order |
| Failover.ProbeFinds | providers/manager.py:62-76 | for any order the candidates are exactly the listed providers that are available and in budget, none twice unless listed twice |
| Failover.ProbePicks | providers/manager.py:70-76 | for any order the candidates are exactly its usable positions, in order; a repeated name is usable from the check that finds it available |
| Failover.KeepKnownKeepsOrder | providers/manager.py:70-75 | dropping unknown names from an order keeps the order of the others |
| Manager.ProviderManager.Candidates | providers/manager.py:62-76 | the names checked are those of the caller's order that support the capability, in its sequence with repeats, or without an order the supporting providers by preference; candidates are exactly the checks that find a provider in budget and available, then or before |
| Manager.ProviderManager.Complete | providers/manager.py:78-130 | of these candidates the first that is admitted and whose vendor replies answers, with the prefix before it failed over; none exactly if there is none |
| CallerOrder.OrderedIsSupportingPart | providers/manager.py:70-75 | what the manager goes through is the supporting part of the order it goes by |
| CallerOrder.SortedNames | providers/registry.py:38-52 | the default order is by higher weight, then lower cost, then name |
| Failover.FirstSuccessWins | providers/manager.py:89-130 | for any order: first admitted vendor success wins, failed-over names are the prefix before it, snapshots equal live health, nobody else is invoked; first attempts are always admitted |
| Failover.RepeatAdmittedIff | providers/base.py:85-102 | a provider listed again after its vendor failed is admitted exactly if its limit has run out, or its threshold is not reached |
| Failover.RestartEquivalence | providers/manager.py:97-135 | after any sequential history, from then on refreshing the stored snapshot equals refreshing the live provider |
| Failover.RestartFromDict | providers/persistence.py:32-75 | the same through the dictionary form |
| FleetRuns.FleetRunProjects | providers/manager.py:78-135 | under any interleaving of manager calls each provider goes through a run of its own machine |
| FleetRuns.CountersAreAccounted | providers/base.py:95-131 | under concurrent calls requests are replies, failures and in-flight calls, and tokens are the sum over replies |
| FleetRuns.HealthIsConsistent | providers/base.py:67-131 | under concurrent calls AVAILABLE exactly without cooldown, and then below the threshold |
| FleetRuns.BudgetOvershoot | providers/base.py:59-65 | with at most k calls at once and replies of at most T tokens, usage never exceeds B - 1 + k * T |
| FleetRuns.ExhaustedForever | providers/state.py:93-96 | a provider out of budget is never a candidate again |
| BudgetBound.BudgetBoundIsAttained | providers/manager.py:62-123 | some run charges exactly B - 1 + k * T tokens if and only if k >= 1 and T >= 1, or B = 1 |
| CallSchedule.CallContinuesRun | providers/manager.py:78-130 | a manager call without interruption, as the sequential specification describes it, continues any run of the concurrent machine and leaves the other calls where they are |
| Routing.Rank | providers/routing.py:188-208 | the loop and sort compute the ranking |
| Routing.RankingIsSorted | providers/routing.py:199-208 | sorted by score then name, each candidate listed once with its own rounded score |
| Routing.RankingIgnoresOrder | providers/routing.py:188-208 | the ranking does not depend on the order of the candidates |
| Ordering.NameLeqIff | providers/routing.py:207 | names compare by the first difference, a prefix coming first |
| Routing.DecisionIgnoresRegistration | providers/routing.py:135-167 | the whole decision does not depend on registration order |
| Decisions.DecisionIs | providers/routing.py:135-208 | the decision lists exactly the providers considered, once each, by rounded score and then name; a score is the weight times the complexity-weighted mixture of how dear and how cheap the provider is among them |
| Decisions.CandidatesAreConsidered | providers/routing.py:148-153 | considered are the supporting providers whose context fits, or all supporting ones if none fits |
| Decisions.DefaultComplexityIs | providers/routing.py:49-133 | the default policy's complexity by hint or task type, plus 0.03 a point of priority and 0.15 a retry, between 0 and 1 |
| Routing.EscalationIsMonotone | providers/routing.py:122-133 | complexity stays in [0, 1] and never falls with more priority or retries |
| Routing.CandidatesAreSupporting | providers/routing.py:137-153 | candidates support the capability; if some fit the context, exactly the fitting ones |
| Routing.PricierScoresHigherIff | providers/routing.py:194-204 | at equal weight w the pricier provider scores higher exactly if w * (2c - 1) is positive |
| Routing.PricierStaysAhead | providers/routing.py:194-208 | once a pricier provider outscores a cheaper one, it scores at least as high at every higher complexity |
| LastResort.LastResortIff | providers/routing.py:202-204 | by exact scores the zero-cost weight-0.1 model never outscores a paid weight-1 provider exactly from complexity 1/11 upwards |
| LastResort.ListedLastResortIff | providers/routing.py:202-205 | by rounded scores, whatever the rounding does at midpoints, exactly above 0.0909085 |
| LastResort.LocalBeforePaidIff | providers/routing.py:188-208 | under the default policy with non-negative priority and retries, the local model comes before a paid provider exactly if the complexity is 1, the provider's share of the dearest cost rounds to zero and the local name is the smaller one; their listed scores are then equal |
| LastResort.LocalIsLastIff | providers/routing.py:16-19 | with all others paid it is sorted last exactly unless the complexity is 1 and another candidate's share of the dearest cost rounds to zero and its name is larger |
| LastResort.LocalIsLastResort | providers/routing.py:122-167 | it is sorted last when every other candidate is paid and costs more than half a millionth of the dearest |
| LastResort.TieCanPutLocalFirst | providers/routing.py:205-207 | at complexity 1 a vendor below half a millionth of the dearest, with a larger name, is sorted after it |
| LastResort.ThreeProviders | providers/routing.py:188-208 | three concrete providers for which the local model is not last |
| Worker.OpenClawWorker.Execute | workers/openclaw.py:77-96 | n attempts up to max(1, max_attempts), ending at the first success, with exactly the events of those attempts |
| Worker.OpenClawWorker.ExecuteOnce | workers/openclaw.py:116-208 | success exactly if generation, if any, and the whole plan succeeded; the listed steps are a prefix of the plan in which only the last may fail; a failed generation runs none |
| Worker.OpenClawWorker.Generate | workers/openclaw.py:210-252 | no step without a request for one; a failed step, without events, when no provider or no usable files |
| Worker.AttemptIsDetermined | workers/openclaw.py:144-171 | how many plan steps run is determined by their outcomes, and no failed step is named exactly on success |
| Worker.RoundIsTold | workers/openclaw.py:98-208 | report and events of every attempt, read off what generation and commands came to: each listed step, the failed step being the one that failed, and the events in order |
| Worker.TraceIsRounds | workers/openclaw.py:77-96 | the trace is the rounds of the attempts, one after another |
| Worker.RetriesAreAttemptsMinusOne | workers/openclaw.py:81-93 | a finished execution with n attempts emitted exactly n - 1 retry events |

## Left out

- SQL and schema: a row is a record with an `error` field and no `updated_at`; the shipped table (infra/postgres/init.sql) has no `error` column although `update_status` can write one.
- Queue events, health servers, heartbeats, signal handling and shutdown: no step reads them; publishing is a step only where its failure drops an iteration.
- SHA-1 keys: a signature is its own key, so distinct signatures never collide.
- Traceback parsing and categorisation: the category of a failure is an input.
- Non-ASCII text in `_normalize`: digits, word characters and spaces are the ASCII ones.
- IEEE 754: scores are reals; rounding is any monotone function within half a unit of the sixth digit.
- Manager, worker-report and routing events, and the persisted report artifact: not part of this model.
- Vendor exceptions outside the provider-error hierarchy and cancelled invocations: not part of this model.
- Persistence.InMemoryProviderStateStore.Save: `ProviderHealth` is a value held by its provider, so that snapshots are independent copies holds by construction and is not stated.
- The range of `datetime`: instants are unbounded, so the exception for a cooldown past the year 9999 is not modelled.
- Chaining payload oddities: a chain entry whose root or depth is present but not a string or number.
- Workflow definitions, composition root, registries of agents, memory and observability: fixed tables or wrappers.
