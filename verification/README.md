# Verified models of the workflow engine and its protocols

This project models, in Dafny, the scheduling core of the workflow engine and the stateful protocols
around it, and proves what each of them guarantees over every graph, every input or every run.

* **Two engines over one graph.** `Planner` builds the staged plan and `PlanProperties` proves its stages
  shortest; `StagedExecutor` runs it with any scheduling of a stage's goroutines; `RecursiveEngine` walks
  the same graph depth first and re-runs joins. Node behaviour is an arbitrary pure function of the merged
  input (`Runtime`). `EngineProperties`, `StagedProperties` and `Agreement` prove that both engines end
  with the one solution of the workflow's equations; `StagedProperties` and `WalkHistory` also say what each does
  when nodes branch, fail or are cancelled. `TopologicalSort` is the name-sorted order.
* **Queues and workers.** `TaskQueue` is the in-memory priority queue, `LevelQueue` the multi-level queue
  that refines it, `RedisQueue` the retry and dead-letter protocol over a sorted set, a hash and a list,
  and `WorkerPool` the pool as interleaved atomic steps.
* **Limiters, breaker, saga.** `TokenBuckets`, `GatewayLimiter`, `GatewayEviction` and `GatewayRate`, `WindowLimiter`, `CircuitBreaker`, `Saga`.
* **Folders and expressions.** `Folders` and `FolderTree`, `Arguments` and `Expressions`.

`Reachability`, `Workflow` and `Tasks` hold what several modules share: paths and acyclicity of a finite
graph, the workflow graph, and tasks. Code that updates state is a class or a method with loops, tied by its
`ensures` to a specification function; the lemmas are about those functions and about whole runs of them.
Clocks, new identifiers, cancellation, scheduling choices, node behaviour and library calls are parameters.
Time is a number that does not go back, and each lock-protected region is one step. Whole project:
`dafny verify dfyconfig.toml`.

## Where the code does less than its names suggest

Each of these is a lemma or a contract below, with its exact condition and, where one is needed to see it, an input or a
run that shows it.

* The recursive engine takes the first trigger-typed node without looking at its incoming connections: it starts
  where the planner does exactly when that node has none (`TriggersAgree`, `TriggersCanDiffer`), and it also
  starts where the planner refuses (`PlannerRefuses`). An undisturbed walk ends exactly when no cycle can be
  reached from its start (`EndsExactly`).
* `SortedExecution` sorts its topological list by name at the end: the ends of a connection stay in order exactly
  when the target's name is not smaller (`FinalOrder`). Its cycle test passes exactly when the free targets that are
  not nodes make up for duplicate identifiers and blocked nodes (`LengthTestTells`), so it can pass on a cyclic
  graph (`UnknownTargetHidesCycle`), and with distinct identifiers, sources that are nodes and no cycle it reports
  an unknown target as one (`UnknownTargetReported`).
* An in-memory dequeue loses a task exactly when its identifier is already being processed
  (`DequeueKeepsExactly`); a Nack keeps the list sorted exactly when nothing waiting ranks below the demoted task
  (`NackKeepsDescending`); the multi-level queue loses every Nack: it answers as one queue would, or stays in step
  with it, but never both (`NackNeverRefines`).
* The pool's `QueuedTasks` is negative exactly while sends not yet counted in outnumber the tasks in the channel
  and those not yet counted out (`QueuedNegativeExactly`, `QueuedCanBeNegative`), and a retry that meets a full
  channel is dropped with attempts left (`GivenUpAfterExactly`), which can happen whatever the numbers of workers and
  of places in the channel (`RetryCanBeDropped`).
* Evicting an idle gateway client is unobservable exactly when every limit's burst is at most ten minutes' worth
  of tokens or below one (`EvictionUnobservable`), provided no eviction falls between the two critical
  sections of a request on that client; without that proviso, it is observable for every limit that
  admits anything (`RacingEvictionObservable`). Under the proviso the gateway keeps every address within its rate
  exactly for the same limits (`RateKeptExactly`).
* The window limiter keeps its bound in windows that no wipe disturbs (`WindowBound`). With wipes between the two
  steps of a request it keeps it only if it admits nothing, because the wiped bucket serves beside the new
  one, even in a window with no wipe in it (`BoundKeptExactly`).
* Successes of calls admitted before the breaker opened count towards closing it: one that goes half-open is sure to
  be closed by successes of calls it admits from then on exactly when no call is in flight
  (`ClosedByOwnCallsExactly`). Otherwise each call in flight can stand in for one (`FewestOwnSuccesses`), and no
  configuration prevents it (`StaleSuccessesClose`): with one failure to open and one success to close, calls 0 and 1
  are admitted, 0 fails, call 2 is admitted after the timeout, and the success of call 1 closes the breaker. Reset
  forgets the failures exactly when the breaker is not closed or there are none (`ResetForgets`).
* A saga whose compensations failed still ends as compensated, and the failures replace the step's own error
  (`Saga.Execute`).
* Moving a folder leaves paths and depths right exactly when it has no subfolders or keeps its place
  (`MoveKeepsPlaces`), and keeps folders nested within the limit exactly when all that is below it fits
  (`MoveKeepsNesting`). After a move that left depths stale, a later create is let through by the old depth and can
  exceed the limit (`CreateAfterMove`). Creating under a used identifier or updating the parent can tie a cycle
  (`StepKeepsForest`).
* A node that fails with an empty message does not stop a "stop" run of the staged executor (`ExecutePlan`).
* Splitting undoes joining exactly when the last argument is not empty (`SplitJoin`), and a call without arguments
  is taken as plain text (`EmptyCallIgnored`).

## Model

| member | source | states |
|---|---|---|
| Planner.BuildAdjacency | internal/engine/executor.go:170-185 | for every identifier, the maps hold its targets and its sources in connection order and its number of incoming connections |
| Planner.FindTrigger | internal/engine/executor.go:187-201 | the trigger is the first trigger-typed node that no connection enters, or none |
| Planner.Relax | internal/engine/executor.go:238-244 | every counter drops by the number of connections to it, and exactly the nodes whose count reaches zero are queued, each once |
| Planner.ProcessStage | internal/engine/executor.go:213-250 | a round puts exactly the ready nodes on the current level and hands on exactly the nodes that became ready |
| Planner.RunRounds | internal/engine/executor.go:203-251 | the rounds end with nothing ready, and the stages list the levelled nodes on their levels |
| Planner.CompleteIsPlannable | internal/engine/executor.go:253-256 | when as many identifiers were processed as there are nodes, the workflow can be staged: distinct identifiers, one source, closed sources, no cycle |
| Planner.PlannableIsComplete | internal/engine/executor.go:253-256 | a workflow that can be staged leaves no node unprocessed |
| Planner.BuildExecutionPlan | internal/engine/executor.go:163-263 | given a trigger, planning succeeds exactly on the workflows that can be staged from it; then every node is in exactly one stage and every connection leads to a strictly later one |
| PlanProperties.StageIsLongestPath | internal/engine/executor.go:203-251 | a node's stage is the length of the longest path from the trigger to it |
| PlanProperties.NoShorterStaging | internal/engine/executor.go:203-262 | any assignment of stages that sends every connection forward puts no node earlier and has no fewer stages |
| Runtime.SolutionUnique | internal/engine/executor.go:373-383 | on a closed acyclic workflow the equations "output is the node's function of its sources' merged outputs" have at most one solution |
| Runtime.GatherHolds | internal/engine/executor.go:373-383 | a merge holds exactly the keys, other than the two control keys, that some listed source with an output has, each with the value of the last such source |
| Runtime.InputHolds | internal/engine/executor.go:177-383 | the same by connections: the last one into the node whose source has the key supplies it |
| Workflow.IncomingListed | internal/engine/executor.go:180-184 | a node's dependencies are the sources of exactly the connections into it, in order, parallel ones each |
| Workflow.OutgoingListed | internal/engine/engine.go:159-168 | a node's successors are the targets of exactly the connections that leave it, in order, parallel ones each |
| StagedExecutor.ExecuteNodeOn | internal/engine/executor.go:349-453 | the input holds, key by key, what the last dependency to have it supplies and no control key; a breakdown or attached error with text e leaves failed, no output and exactly e, any other run its data and no text |
| StagedExecutor.NodeLeaves | internal/engine/executor.go:428-453 | in terms of what the node did on its merged input: a complaint is marked and leaves its text and no output, no complaint leaves the data and no text |
| StagedExecutor.ScheduleIrrelevant | internal/engine/executor.go:292-317 | every order in which a stage's goroutines finish leaves the same results and outputs |
| StagedExecutor.RunStage | internal/engine/executor.go:287-330 | one stage leaves the schedule-free result, and reports only texts, not empty, with which a node of it broke down or attached an error, and at least one exactly when there is one |
| StagedExecutor.ExecutePlan | internal/engine/executor.go:265-347 | in "stop" mode the run ends after the first stage in which some node, run on the outputs so far, breaks down or attaches an error with a text that is not empty, and reports such a text; otherwise all stages run; the results depend on no schedule; the final outputs are those of the nodes without outgoing connections |
| StagedExecutor.FinalOutputs | internal/engine/executor.go:333-344 | exactly the nodes without outgoing connections that have an output, with that output |
| StagedExecutor.RanToUnique | internal/engine/executor.go:319-330 | how many stages run is determined by the workflow and its nodes alone |
| StagedProperties.EachNodeOnce | internal/engine/executor.go:279-317 | whatever the schedule, no node runs twice |
| StagedProperties.DependenciesRunFirst | internal/engine/executor.go:279-317 | when a node runs, each of its sources has finished before |
| StagedProperties.StagedRunSolves | internal/engine/executor.go:265-317 | an undisturbed staged run gives every node the output its sources' final outputs determine |
| StagedProperties.StagesLeave | internal/engine/executor.go:265-317 | whatever its nodes do, a run leaves every node of the stages that ran the result of its function on its sources' final outputs, and its data as output, or what there was at the start if it returned none |
| StagedProperties.FinalsAreSinks | internal/engine/executor.go:333-344 | the nodes whose outputs are final are exactly those that no connection leaves |
| RecursiveEngine.Execution.BuildNodeInput | internal/engine/engine.go:293-314 | key by key, the last connection into the node that sets a key decides: its source's whole output if it is the target port, else the source's value of it, control keys apart |
| RecursiveEngine.GatherPortsHolds | internal/engine/engine.go:293-314 | the same of the specified merge, for any outputs and connections |
| RecursiveEngine.Execution.SelectNext | internal/engine/engine.go:264-276 | the targets of exactly the connections that leave the node, and if its data names an output port leave it through that port, in order, parallel ones each |
| RecursiveEngine.NextListed | internal/engine/engine.go:264-276 | the same of the specified selection |
| RecursiveEngine.Execution.RunNode | internal/engine/engine.go:178-276 | one arrival at a node: unknown node, failure, error in "stop" mode, or output stored and next nodes chosen |
| RecursiveEngine.Execution.ExecuteFromNode | internal/engine/engine.go:170-291 | the depth-first walk on any graph, for exactly the walks that end: its state, its visits and its first error or cancellation |
| RecursiveEngine.Execution.Execute | internal/engine/engine.go:99-157 | starts from the first trigger-typed node with the trigger data as its output, and fails without one; for exactly the walks that end |
| RecursiveEngine.DeeperIsSame | internal/engine/engine.go:278-288 | a walk that ends within some depth of nested calls ends the same way within any larger one |
| RecursiveEngine.AcyclicWalkEnds | internal/engine/engine.go:170-291 | on an acyclic graph every walk ends, whatever its nodes do, within the number of nodes it can reach |
| WalkHistory.ExecuteTold | internal/engine/engine.go:99-291 | on any graph and with any nodes: each node of a walk ran on the merge of the outputs then held and, but for the first, was reached over a connection an earlier execution selected by its port; and which error or cancellation ended the walk, or that none did |
| WalkHistory.ReplayHolds | internal/engine/engine.go:260-262 | a node's output is what its last completed execution returned, or what there was at the start |
| WalkHistory.DepthFirst | internal/engine/engine.go:264-290 | the walk runs nodes off an agenda, each followed by what it selects before the rest, works it off unless it meets an error, and looks at the cancellation signal once before each node but the first |
| EngineProperties.PathsToMembers | internal/engine/engine.go:159-168 | the counted paths are exactly the chains of connections, parallel connections apart |
| EngineProperties.WalkCountsPaths | internal/engine/engine.go:264-290 | an undisturbed walk never stops early and runs each node once for every connection path leading to it |
| EngineProperties.WalkSettles | internal/engine/engine.go:170-314 | after a walk exactly what the start reaches may have changed, and all of it agrees with its sources although joins first ran on partial input |
| EngineProperties.EndsExactly | internal/engine/engine.go:278-288 | an undisturbed walk on a closed workflow ends exactly when no cycle can be reached from its start |
| Agreement.TriggersAgree | internal/engine/engine.go:118-127 | on every workflow where the recursive engine starts from a named node, the planner starts from the same one exactly when no connection enters it; where the engine finds no trigger the planner finds none |
| Agreement.TriggersAreFirst | internal/engine/executor.go:187-201 | the planner takes the first trigger-typed node that no connection enters, the recursive engine the first trigger-typed one, if there is one |
| Agreement.PlannerRefuses | internal/engine/executor.go:187-201 | with named nodes, the planner finds no trigger exactly when every trigger-typed node has an incoming connection, and the recursive engine runs whenever there is one |
| Agreement.TriggersCanDiffer | internal/engine/engine.go:118-127 | two triggers joined by a connection on which the engines start from different nodes |
| Agreement.InputsAgree | internal/engine/engine.go:307-308 | the two merges differ at most in the port-named entries |
| Agreement.WalkSolves | internal/engine/engine.go:170-291 | the recursive walk from the only source solves the workflow's equations |
| Agreement.EnginesAgree | internal/engine/engine.go:170-314 | on every closed workflow that can be staged, with undisturbed nodes blind to port names, both engines end with the same output for every node, the unique solution |
| Agreement.RunsAreWhole | internal/engine/executor.go:279-331 | there the staged executor runs each node once and the recursive engine once per path from the trigger |
| TopologicalSort.KahnOrder | internal/engine/executor.go:569-595 | the list is topological, without repeats, and holds exactly the identifiers all of whose sources it holds, for any initial map order |
| TopologicalSort.ListsFree | internal/engine/executor.go:569-595 | on every workflow the list holds exactly the known identifiers with no ancestor, themselves included, that is unknown or on a cycle |
| TopologicalSort.LengthTestTells | internal/engine/executor.go:597-599 | on every workflow the length test passes exactly when the free targets that are not nodes are as many as the duplicate identifiers and the nodes that are not free |
| TopologicalSort.UnknownTargetReported | internal/engine/executor.go:564-599 | with distinct nodes, no cycle and only nodes as sources the test passes exactly when the workflow is closed |
| TopologicalSort.LengthTestMeans | internal/engine/executor.go:597-599 | on a closed workflow the length test passes exactly when identifiers are distinct and there is no cycle |
| TopologicalSort.SortedExecution | internal/engine/executor.go:554-607 | succeeds exactly when there are as many free identifiers as nodes, on closed workflows exactly without duplicates and cycles, and returns the topological list of the free identifiers stably sorted by name |
| TopologicalSort.FinalOrder | internal/engine/executor.go:575-606 | the connections into listed nodes lead forwards before the sort by name, which keeps the order of their ends exactly when the target's name, empty for an unknown target, is not smaller |
| TopologicalSort.LessMeans | internal/engine/executor.go:601-604 | names compare as in a dictionary |
| TopologicalSort.NodeOfMeans | internal/engine/executor.go:577-587 | an identifier stands for the last node with it, or for one without a name |
| TopologicalSort.UnknownTargetHidesCycle | internal/engine/executor.go:564-599 | a cyclic workflow with an unknown target on which the length test passes |
| TaskQueue.InMemoryQueue.Enqueue | internal/engine/queue.go:59-87 | inserts before the first waiting task of lower priority, or is refused when closed |
| TaskQueue.EnqueueAdds | internal/engine/queue.go:59-87 | the task is stored under its own identifier or the fresh one, stamped, right before the first of lower priority; a closed queue refuses it |
| TaskQueue.InMemoryQueue.Dequeue | internal/engine/queue.go:90-110 | hands out the first waiting task and files it as processing; a closed empty queue reports it is closed, an open one keeps its caller blocked and does not change |
| TaskQueue.InMemoryQueue.Nack | internal/engine/queue.go:134-151 | the task goes to the tail with one more retry and one less priority; an unknown one is an error |
| TaskQueue.InMemoryQueue.Ack | internal/engine/queue.go:125-131 | the task is no longer processing, and an unknown one is not an error |
| TaskQueue.InMemoryQueue.Close | internal/engine/queue.go:162-169 | closing changes neither waiting nor processing tasks |
| TaskQueue.RunAccounted | internal/engine/queue.go:59-169 | over every run with distinct live identifiers each accepted task is in exactly one of waiting, processing, acknowledged, and priority plus retry count never changes |
| TaskQueue.DequeueKeepsExactly | internal/engine/queue.go:102-104 | a dequeue keeps the live identifiers exactly when the head's identifier is not already being processed |
| TaskQueue.ClosedDrains | internal/engine/queue.go:94-104 | a closed queue hands out all waiting tasks in order and then reports it is closed |
| TaskQueue.NackFreeOrdered | internal/engine/queue.go:72-83 | on every run without Nack waiting tasks are in descending priority, first come first served among equals |
| TaskQueue.ServesHighest | internal/engine/queue.go:90-110 | on every run without Nack a dequeue serves a task of the highest priority waiting, the first accepted among equals, and moves it to processing |
| TaskQueue.NackKeepsDescending | internal/engine/queue.go:146-148 | a Nack keeps a descending list descending exactly when the last waiting task does not rank below the demoted one |
| LevelQueue.InsertIntoJoined | internal/engine/queue.go:405-418 | inserting on the level a priority selects is inserting in the joined list |
| LevelQueue.StepRefines | internal/engine/queue.go:401-504 | every operation but Nack answers as one in-memory queue would, and the joined levels stay its waiting list |
| LevelQueue.RunRefines | internal/engine/queue.go:401-493 | every run without Nack that dequeues only what is there gives the same replies as one in-memory queue, for any distinct levels |
| LevelQueue.FreshStandsFor | internal/engine/queue.go:387-398 | new level queues stand for a new in-memory queue |
| LevelQueue.NackNeverRefines | internal/engine/queue.go:473-476 | the reply to a Nack is the single queue's exactly when the task was being processed, and the refinement is kept exactly when it was not, so no Nack refines |
| LevelQueue.PriorityQueue.Enqueue | internal/engine/queue.go:401-419 | the task goes to the last listed level its priority reaches, the first level if none, and no other queue changes |
| LevelQueue.PriorityQueue.Dequeue | internal/engine/queue.go:422-440 | takes from the highest non-empty level, or is left to the first level when all are empty |
| LevelQueue.PriorityQueue.Peek | internal/engine/queue.go:443-459 | shows the head of the highest non-empty level, or nothing |
| LevelQueue.PriorityQueue.Ack | internal/engine/queue.go:462-470 | every level forgets the task, whichever had it, and nothing else changes |
| LevelQueue.PriorityQueue.Len | internal/engine/queue.go:479-493 | the waiting tasks of all levels together |
| LevelQueue.PriorityQueue.Close | internal/engine/queue.go:496-504 | every level is closed and keeps its tasks |
| RedisQueue.RedisQueue.Enqueue | internal/engine/queue.go:225-243 | ZADD with the enqueue time less a second per unit of priority as score |
| RedisQueue.RedisQueue.Dequeue | internal/engine/queue.go:246-273 | pops the lowest score into the processing hash |
| RedisQueue.RedisQueue.Ack | internal/engine/queue.go:295-297 | the task leaves the processing hash |
| RedisQueue.RedisQueue.Nack | internal/engine/queue.go:300-326 | one more retry; beyond the limit the task becomes a dead letter, otherwise it is enqueued with one less priority |
| RedisQueue.RedisQueue.ReprocessDeadLetter | internal/engine/queue.go:349-377 | up to `count` dead letters, oldest first, return with retry count zero, and the number is reported |
| RedisQueue.RunKeeps | internal/engine/queue.go:225-377 | over every run no task is lost or duplicated across waiting, processing, dead letters and acknowledged, and every retry count is what the Nacks since enqueue or reprocessing make it |
| RedisQueue.DeadAfterExactly | internal/engine/queue.go:316-321 | counted from zero, a dead letter has had exactly MaxRetries + 1 Nacks and a task in play at most MaxRetries |
| RedisQueue.ServiceOrder | internal/engine/queue.go:237-273 | over every run, a dequeue answers nothing exactly when nothing waits; otherwise it moves a waiting task to processing that was enqueued at most a second per unit of priority later than any left waiting |
| RedisQueue.EnqueueAdds | internal/engine/queue.go:225-243 | the task is added under its own identifier or the fresh one, stamped, unless it is there already |
| RedisQueue.NackReturns | internal/engine/queue.go:300-326 | the task leaves the hash and is waiting again with one more retry and one less priority, or is the newest dead letter once its retries exceed its limit |
| RedisQueue.ReprocessReturns | internal/engine/queue.go:349-377 | the oldest dead letters, as many as asked for and there are, return with retry count zero, and that number is reported |
| WorkerPool.WorkerPool.Submit | internal/engine/worker.go:208-222 | a full channel refuses the task and counts nothing; otherwise the three atomic steps in order |
| WorkerPool.WorkerPool.HandleTask | internal/engine/worker.go:272-312 | one pass of the worker loop is its six atomic steps in order; a failed attempt with retries left schedules the task with one more retry |
| WorkerPool.WorkerPool.ExecuteTask | internal/engine/worker.go:357-376 | every failed attempt counts as failed, and is rescheduled exactly when its retry count is below the limit |
| WorkerPool.RunCounted | internal/engine/worker.go:208-376 | over every interleaving each counter differs from the true count only by the additions still pending |
| WorkerPool.CountersAddUp | internal/engine/worker.go:283-376 | at quiescence total is completed plus failed plus queued, queued is the channel's length and active is zero |
| WorkerPool.StepKeepsTasks | internal/engine/worker.go:208-376 | a step moves tasks between places; only an accepted Submit adds one and none disappears |
| WorkerPool.RunTracked | internal/engine/worker.go:208-376 | when each task object is submitted once, each is in exactly one place and its retry count is its number of finished attempts |
| WorkerPool.AttemptBound | internal/engine/worker.go:357-371 | a task is attempted at most MaxRetries − RetryCount + 1 times, once if it had no retry |
| WorkerPool.GivenUpAfterExactly | internal/engine/worker.go:361-373 | a task given up has had all its attempts, and one dropped on a full channel had at least one left |
| WorkerPool.RetryCanBeDropped | internal/engine/worker.go:361-373 | for every number of workers and every channel with room, a run that drops the retry of any task entitled to one |
| WorkerPool.FirstInFirstOut | internal/engine/worker.go:208-385 | over every interleaving tasks are taken in the order in which they entered the channel, which never exceeds its capacity |
| WorkerPool.QueuedNegativeExactly | internal/engine/worker.go:214-287 | QueuedTasks is negative exactly while sends not yet counted in outnumber the tasks in the channel and those taken and not yet counted out |
| WorkerPool.QueuedCanBeNegative | internal/engine/worker.go:214-287 | a run in which a worker counts a task out before its sender has counted it in |
| GatewayEviction.IdleIsFull | internal/gateway/middleware/rate_limit_advanced.go:174-178 | for a patient limit a bucket idle ten minutes refills exactly to a new bucket |
| GatewayEviction.SweepsUnnoticed | internal/gateway/middleware/rate_limit_advanced.go:149-237 | with patient limits a run with sweeps and the run without them give the same answers and stay twins |
| GatewayEviction.Told | internal/gateway/middleware/rate_limit_advanced.go:218-237 | for a limit that is not patient, a run whose answers a sweep changes |
| GatewayEviction.EvictionUnobservable | internal/gateway/middleware/rate_limit_advanced.go:149-237 | sweeps that catch no request between its two critical sections are unobservable exactly when every burst is at most 10 times the rate per minute, or below one |
| GatewayEviction.RacingEvictionObservable | internal/gateway/middleware/rate_limit_advanced.go:149-160 | sweeps at any moment are unobservable exactly when no limit admits anything |
| GatewayRate.RateBound | internal/gateway/middleware/rate_limit_advanced.go:149-237 | in any stretch of a quiet run, sweeps included, an address gets through to an endpoint with a patient limit at most one burst plus the rate per minute times the time |
| GatewayRate.RateKeptExactly | internal/gateway/middleware/rate_limit_advanced.go:149-237 | every stretch of every quiet run keeps to that exactly when the limit is patient, that is, ten minutes earn a burst or nothing is ever admitted |
| GatewayLimiter.AdvancedRateLimiter.FindClient | internal/gateway/middleware/rate_limit_advanced.go:150-158 | finds the client of the address or makes one, under the first lock |
| GatewayLimiter.AdvancedRateLimiter.UseClient | internal/gateway/middleware/rate_limit_advanced.go:160-188 | refills the endpoint's bucket of the client found, makes it full if missing, and takes a whole token if there is one |
| GatewayLimiter.AdvancedRateLimiter.Cleanup | internal/gateway/middleware/rate_limit_advanced.go:218-237 | removes exactly the clients none of whose buckets was used in the last ten minutes |
| GatewayLimiter.AllExpired | internal/gateway/middleware/rate_limit_advanced.go:225-231 | true exactly when every bucket's last use is at or before the cutoff |
| WindowLimiter.StepAvailable | pkg/middleware/ratelimit.go:53-121 | a step leaves the key the tokens it found, or a full bucket after a wipe, less one for a request let through on the current bucket |
| WindowLimiter.Potential | pkg/middleware/ratelimit.go:53-121 | requests let through on current buckets plus tokens left never exceed the bursts of the wipes plus what the rate earned |
| WindowLimiter.WipesApart | pkg/middleware/ratelimit.go:104-110 | two wipes are more than ten minutes apart |
| WindowLimiter.StaleNeedsRace | pkg/middleware/ratelimit.go:100-127 | when no wipe comes while a request is between its two steps, no request draws from a discarded bucket |
| WindowLimiter.WindowBound | pkg/middleware/ratelimit.go:53-127 | in any window of any interleaving a key is let through at most (w+1) bursts plus rate times T besides requests whose bucket was wiped between finding it and drawing, with w at most T over ten minutes plus one; in a window that no wipe disturbs there are none of those and the bound holds as it stands |
| WindowLimiter.BoundKeptExactly | pkg/middleware/ratelimit.go:53-127 | the bound holds as it stands in every window of every interleaving exactly when the burst is below one |
| WindowLimiter.SpacedClientServed | pkg/middleware/ratelimit.go:53-127 | a client whose requests are spaced by a token's refill time is never refused, whatever other keys do and whenever buckets are wiped, exactly when the burst is at least one |
| WindowLimiter.RateLimiter.GetBucket | pkg/middleware/ratelimit.go:100-121 | wipes all buckets after ten minutes and finds the key's bucket, a full new one if there is none |
| WindowLimiter.RateLimiter.Allow | pkg/middleware/ratelimit.go:53-70 | refills the bucket found up to its maximum and takes a whole token if there is one |
| WindowLimiter.RateLimiter.Remaining | pkg/middleware/ratelimit.go:73-77 | the whole tokens of the bucket found without refilling, truncated towards zero |
| CircuitBreaker.HalfOpenCounts | internal/platform/resilience/circuit_breaker.go:168-192 | half-open, the success count is the successes recorded since it was entered, below the threshold, and no failure was recorded |
| CircuitBreaker.ClosesAfterSuccesses | internal/platform/resilience/circuit_breaker.go:168-192 | Reset apart, the breaker re-closes only on a success that completes exactly the required number since half-open, with no failure in between |
| CircuitBreaker.ClosedCounts | internal/platform/resilience/circuit_breaker.go:152-192 | closed, the failure count is the failures recorded since it was last zero, and is below the threshold or zero |
| CircuitBreaker.OpensAtThreshold | internal/platform/resilience/circuit_breaker.go:152-165 | a closed breaker opens exactly on the failure that brings the failures since the count was zero to the threshold |
| CircuitBreaker.AdmitsOnlyAfterTimeout | internal/platform/resilience/circuit_breaker.go:118-137 | for all interleavings of calls in flight, an open breaker admits exactly when more than the timeout has passed since the last recorded failure, and nothing else but Reset ends the open state |
| CircuitBreaker.FewestOwnSuccesses | internal/platform/resilience/circuit_breaker.go:118-178 | once half-open, the breaker closes on the required number of successes less at most one for each call in flight when it went half-open; that least number is reached |
| CircuitBreaker.ClosedByOwnCallsExactly | internal/platform/resilience/circuit_breaker.go:118-178 | after any run the breaker can receive that leaves it open, every close counts only successes of calls admitted from then on exactly when no call is in flight |
| CircuitBreaker.StaleSuccessesClose | internal/platform/resilience/circuit_breaker.go:118-178 | for every configuration, a run the breaker can receive that opens it and closes it again without a success of any call admitted since |
| CircuitBreaker.ResetForgets | internal/platform/resilience/circuit_breaker.go:181-223 | Reset leaves the breaker closed, with no failures exactly when it was not closed or had none |
| CircuitBreaker.RetryStops | internal/platform/resilience/circuit_breaker.go:303-342 | with an always failing operation the caller calls on until its retries are used up or, the breaker open, it comes back no later than the timeout |
| CircuitBreaker.RetryCalls | internal/platform/resilience/circuit_breaker.go:303-342 | with no wait beyond the timeout the operation is called exactly min(maxRetries + 1, maxFailures − f) times |
| CircuitBreaker.RetryGoes | internal/platform/resilience/circuit_breaker.go:303-342 | in every world: fine exactly when the last call worked, all before it having broken; failed exactly when all maxRetries + 1 calls broke; cancelled or refused exactly when that is what the caller met; each call recorded with its result |
| CircuitBreaker.CircuitBreaker.TransitionTo | internal/platform/resilience/circuit_breaker.go:181-202 | entering closed clears both counters, entering half-open the successes, staying changes nothing |
| CircuitBreaker.CircuitBreaker.CanExecute | internal/platform/resilience/circuit_breaker.go:118-137 | the admission answer and the move to half-open |
| CircuitBreaker.CircuitBreaker.OnFailure | internal/platform/resilience/circuit_breaker.go:152-165 | the failure step, with its time remembered in every state |
| CircuitBreaker.CircuitBreaker.OnSuccess | internal/platform/resilience/circuit_breaker.go:168-178 | the success step |
| CircuitBreaker.CircuitBreaker.RecordResult | internal/platform/resilience/circuit_breaker.go:140-149 | any error counts as a failure, its absence as a success |
| CircuitBreaker.CircuitBreaker.ResetBreaker | internal/platform/resilience/circuit_breaker.go:219-223 | the reset step |
| CircuitBreaker.RetryWithCircuitBreaker | internal/platform/resilience/circuit_breaker.go:303-342 | answer, number of calls and breaker left by the loop are those of the specified retry, cancellation and errors included |
| Saga.UndosReverse | internal/platform/saga/saga.go:167-183 | compensations run for exactly the completed steps that have one, each with its own result, in strictly descending order |
| Saga.FailedUndosAre | internal/platform/saga/saga.go:167-186 | the steps reported as not compensated are exactly those whose compensation, in the world the later ones left, fails, last first |
| Saga.EachOnLast | internal/platform/saga/saga.go:107-147 | each completed step executed in the world its predecessor left and on its predecessor's result, the first on the data given |
| Saga.SomeStepBreaks | internal/platform/saga/saga.go:125-140 | a stretch of steps is not completed exactly when some step of it, once reached, breaks |
| Saga.BackUndoes | internal/platform/saga/saga.go:96-183 | undoing down to step i leads back to where the first i steps had led |
| Saga.Restored | internal/platform/saga/saga.go:96-191 | with inverting compensations, inert uncompensated steps and effect-free failures, a saga that fails or is cancelled anywhere leaves the world as it found it |
| Saga.OneReport | internal/platform/saga/saga.go:96-157 | answer, progress, world and effect log are determined by the steps and the cancellation |
| Saga.Saga.Execute | internal/platform/saga/saga.go:96-157 | the log is the completed steps in order, the failing one if any, then the compensations in reverse; every step and saga status and the error that remains |
| Saga.Saga.RunSteps | internal/platform/saga/saga.go:107-147 | the forward loop stops at the first cancellation or failure with the completed steps' results stored and later steps untouched |
| Saga.Saga.Compensate | internal/platform/saga/saga.go:160-191 | compensates last to first, passes over failures, marks exactly the successful ones, and always ends as compensated |
| Folders.StoreKeepsForest | internal/workflow/features/folders.go:250-272 | storing a folder keeps the forest exactly when its parent is not the folder itself or below it |
| Folders.StepKeepsForest | internal/workflow/features/folders.go:64-180 | an operation breaks the forest exactly when it is a create or update that ties such a cycle; move and delete never do |
| Folders.FreshNeverTangles | internal/workflow/features/folders.go:64-89 | creating under a new identifier never ties a cycle |
| Folders.RunKeepsForest | internal/workflow/features/folders.go:64-180 | over every run of creates under new identifiers, moves, deletes and updates that keep the parent, links stay acyclic and no parent dangles |
| Folders.StoreKeepsPlaces | internal/workflow/features/folders.go:75-112 | all paths and depths stay right exactly when the stored folder's are and it has no subfolders or did not change place |
| Folders.MoveKeepsPlaces | internal/workflow/features/folders.go:163-179 | a move leaves all paths and depths right exactly when the folder has no subfolders or keeps its path and depth |
| Folders.CreateKeepsPlaces | internal/workflow/features/folders.go:71-88 | creating under a new identifier leaves all paths and depths right |
| Folders.PlaceSpells | internal/workflow/features/folders.go:71-112 | where places are right, a folder's path is the names from its root down, each after a slash, and its depth their number less one |
| Folders.NestedByLevel | internal/workflow/features/folders.go:78-180 | no chain of parents is longer than a limit exactly when no folder has more than that many above it |
| Folders.StoreKeepsNesting | internal/workflow/features/folders.go:250-272 | storing a folder in any forest keeps the nesting within a limit exactly when the folder and all that is below it fit under its parent |
| Folders.MoveKeepsNesting | internal/workflow/features/folders.go:142-180 | with places right, a move keeps the nesting within the limit exactly when, by their depths, the folder and all that is below it fit; the code does not ask |
| Folders.CreateKeepsNesting | internal/workflow/features/folders.go:64-89 | creating under a new identifier keeps the nesting within the limit exactly when the parent is less deep than it, which its stored depth says when places are right |
| Folders.CreateAfterMove | internal/workflow/features/folders.go:64-180 | below a moved folder a create is let through by the depth its parent had before the move, and then exceeds the limit exactly when the parent has come to it |
| Folders.RunStaysRight | internal/workflow/features/folders.go:64-180 | over every run of creates under new identifiers, deletes, updates that keep the place and moves to a fitting place of folders with no subfolders or of the same place, the forest, all paths and depths and the depth limit are kept |
| Folders.PrunedReach | internal/workflow/features/folders.go:115-139 | removing subtrees does not change what reaches what is left |
| Folders.PruneChildren | internal/workflow/features/folders.go:117-138 | deleting every child's subtree and then the folder is deleting the folder's subtree |
| Folders.FolderService.CreateFolder | internal/workflow/features/folders.go:64-89 | unknown parent and too deep are refused, otherwise the folder is stored with its parent's path and depth extended |
| Folders.FolderService.UpdateFolder | internal/workflow/features/folders.go:97-112 | the path is recomputed, depth and parent are taken as given |
| Folders.FolderService.MoveFolder | internal/workflow/features/folders.go:142-180 | for every repository on which the walk ends: refuses exactly the moves under the folder itself or its descendants; otherwise parent, path and depth of this folder alone change |
| Folders.FolderService.ListByParent | internal/workflow/features/folders.go:294-305 | exactly the folders with that parent |
| Folders.FolderService.DeleteFolder | internal/workflow/features/folders.go:115-139 | a recursive delete, with no cycle below the folder, removes exactly the folder and its descendants; a plain one is refused when there are subfolders |
| FolderTree.BuildTree | internal/workflow/features/folders.go:213-235 | every listed folder's child list is the listed folders with that parent in list order, the root's those without parent |
| FolderTree.OneChain | internal/workflow/features/folders.go:213-235 | two folders above the same one are above one another |
| FolderTree.TreeShowsEachOnce | internal/workflow/features/folders.go:213-235 | the tree buildTree returns shows a folder exactly once if its chain of parents is listed and not at all otherwise; if all parents are listed, every folder once |
| FolderTree.RepositoryShown | internal/workflow/features/folders.go:198-235 | the tree returned for a whole repository that is a forest shows each folder exactly once |
| Arguments.SplitText | pkg/expression/parser.go:502-553 | the one-pass scanner cuts at exactly the commas outside strings and brackets and drops an empty last part |
| Arguments.CutsCounted | pkg/expression/parser.go:502-553 | outside quotes a text is cut exactly at the commas before which as many brackets of the three kinds were closed as opened |
| Arguments.StringLasts | pkg/expression/parser.go:510-525 | a string opened by either quote lasts until that quote comes without a backslash right before it, whatever is inside |
| Arguments.JoinSplit | pkg/expression/parser.go:502-553 | joining the parts gives back the text up to one final top-level comma |
| Arguments.SplitJoin | pkg/expression/parser.go:502-553 | splitting inverts joining arguments with closed strings, matched brackets and no top-level comma exactly when there are none or the last is not empty |
| Arguments.PartsSealed | pkg/expression/parser.go:502-553 | no part has a top-level comma or is longer than the text, and all but the last are sealed |
| Expressions.MatchesWritten | pkg/expression/parser.go:38-43 | a text is a call exactly when it is written as one with a word name and non-empty one-line arguments, and then in one way |
| Expressions.EvaluateExpression | pkg/expression/parser.go:239-290 | the specified value, by recursion that ends because arguments are shorter than their call |
| Expressions.EvaluateFunction | pkg/expression/parser.go:377-390 | unknown function, first argument error, or the function applied to the argument values |
| Expressions.ParseArguments | pkg/expression/parser.go:392-432 | the values of the trimmed parts from left to right, or the first error |
| Expressions.CallMeans | pkg/expression/parser.go:239-432 | evaluating the text of a call nested to any depth, with any white space around it and its arguments, gives the value of its structure |
| Expressions.TrimPadded | pkg/expression/parser.go:240-402 | trimming takes away exactly the white space around |
| Expressions.ReferenceMeans | pkg/expression/parser.go:239-290 | what is not a call is a reference, or stands for itself |
| Expressions.QuotedMeans | pkg/expression/parser.go:411-416 | an argument between quotes of either kind is the text between them |
| Expressions.PlainMeans | pkg/expression/parser.go:404-428 | any other argument is a reference after a dollar sign, a number, true, false or null, and else its text |
| Expressions.EmptyCallIgnored | pkg/expression/parser.go:41-244 | a call without arguments is never recognised as one |

## Left out

- Agreement.EnginesAgree: nodes that fail, branch by `_output`, return no data or look at the port-named entries are excluded; the two engines treat them differently.
- RecursiveEngine.Execution.ExecuteFromNode: is specified for the walks that end; node data is a value, so a map shared between nodes and changed in place is not captured.
- Planner.BuildExecutionPlan: the node's type, name and configuration carried along in a plan node.
- StagedExecutor.ExecuteNodeOn: configuration evaluation, credentials and the executor look-up are part of the node's function, which sees its merged input but not the other outputs; times, identifiers, logs and events are dropped.
- TaskQueue.InMemoryQueue.Dequeue: a caller that waits gets the reply Blocked instead of a later task; StartedAt is dropped, and a task is a value, so a change made through a caller's pointer is not captured.
- LevelQueue.PriorityQueue.Dequeue: waiting is the reply Blocked; that it waits holding the read lock, which blocks Close, is not modelled.
- RedisQueue.RedisQueue.Dequeue: the visibility timeout; Expire is set on a key other than the hash, so it never returns a task.
- RedisQueue.RedisQueue.Enqueue: commands succeed, JSON round-trips, the score's clock reading is CreatedAt, scores are exact numbers, and equal scores are served in insertion order rather than by member text.
- WorkerPool.RunCounted: an unbuffered channel, pool shutdown, the worker counters and the average time.
- GatewayEviction.EvictionUnobservable: tokens are real numbers, a request reads the clock once, and an endpoint's limit is fixed, although overlapping wildcard patterns are matched in map order.
- GatewayRate.RateKeptExactly: rate and burst are not negative; a sweep between the two steps of a request lets it through beside the bound (see RacingEvictionObservable), and runs with one are left out.
- WindowLimiter.WindowBound: rate and burst are not negative, and tokens are real numbers.
- CircuitBreaker.CircuitBreaker.CanExecute: state-change callbacks and the registry of breakers.
- Saga.Saga.Execute: what a step sees of the context is part of its function; time stamps and the orchestrator's map are dropped, and the world and the effect log stand for what steps do outside the saga.
- Folders.FolderService.DeleteFolder: repository errors do not occur, and stored folders are values, so changes through shared pointers are not captured; where parent links form a cycle below the folder the recursion does not end, and the same for a cycle above a new parent in MoveFolder.
- Expressions.EvaluateExpression: the references other than calls, number parsing and the built-in functions are parameters; only ASCII white space is trimmed.
- Template replacement in whole strings, value paths, dates and the built-in functions of pkg/expression: library calls or one-branch code.
- Persistence, scheduler, HTTP servers, connectors, authentication, credentials and billing: plumbing around unseen libraries or simple guards.
