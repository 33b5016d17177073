# A verified model of the CI task-graph engine and scheduler

A build is a directed acyclic graph of tasks. Each task moves through nine states. The graph
engine (`pkg/dag`) checks the graph, unlocks tasks as their parents finish, and skips what can no
longer run. The scheduler (`pkg/scheduler`) hands Ready tasks to workers whose free capacity is
kept in a registry (`pkg/worker`). Results, cancellations, deaths of workers, heartbeats and
registrations reach it in any order. This project models these three packages and proves what holds
over every run. It also models four smaller parts, each with one main theorem: the token-bucket
limiter, the log scrubber, the log store with its files, and the compiler from pipeline
configurations to graphs.

## How it is built

Code that changes things in place is a class with methods (`Graph`, `Task`, `Info`, `Registry`,
`Scheduler`, `RateLimiter`, `Scrubber`, `Subscriber`, `Store`, `FileBackend`); each method is proved
against functions on values, and the theorems about runs are lemmas about those functions. The
contracts of the exported methods say the same once more of the fields themselves, without those
functions.

- `GraphSpec` says what each method of the graph does to the states of the tasks. `Graphs` proves
  the methods against it. `GraphInvariant`, `GraphRuns` and `UnlockOrder` are about all runs of
  `MarkReady`, `Complete`, `Cancel` and the scheduler's two transitions, in any order and with any
  outcome a report can carry, and about single calls from any state. `Cycles` has the theory of
  Kahn's algorithm.
- `SchedulerSpec` has the scheduler as a state machine with eleven kinds of action. Every method of
  `Schedulers.Scheduler` that changes the state returns, as a ghost result, the run of actions it has
  performed, or the map orders that determine it, and is proved to have reached exactly the state
  after that run, each action being permitted when it happened. What is permitted asks of callers
  only that a submitted build is validated and not yet started, and that a reported outcome is one
  that a report can carry. `BuildRuns.BuildRun` shows that what a run does to one build is a legal
  run of its graph, so that the theorems about graphs hold of it. That, `DispatchHistory` and the
  outcomes of deaths and cancellations hold of all permitted runs, so of every interleaving of
  method calls, also when builds share task ids, as two builds of one pipeline do. `RunSound`, the
  late reports and `CapacityLedger` are about runs with `UniqueIds`, since taskWorker and taskBuild
  are keyed by task id alone. `RegistryCalls` ties the registry's own methods to the actions.
- `RateLimits` and `Pruning` (over the reals), `Texts` and `Scrubbers`, `LogSpec`, `LogReload`,
  `LogNumbers` and `LogStores`, `PipelineSpec`, `PipelineSinks`, `PipelineMeaning`, `PipelineErrors` and
  `Pipelines` are the smaller parts.

Each exported method is one atomic step, because each holds its mutex throughout. Ranging over a Go
map is a loop that picks the next element arbitrarily. Clock readings are parameters. The callback
that sends a task to its worker, and the cancellation of a context, are arbitrary choices. `uint32`
arithmetic wraps around (`Add32`, `Sub32`). `Scheduler.Cancel` is the source's `CancelBuild`.

## What the code does that its documentation or a reader may not expect

- A build passes only if every task passed (`pkg/dag/graph.go:269-279`); Architecture.md:100 says
  every task that was not skipped.
- `Complete` visits the children of the finished task in map order, and skipping an `on_failure`
  child can complete the parents of a sibling. The outcome depends on that order exactly if some
  waiting child with a condition waits only for siblings that are about to skip themselves
  (`UnlockOrder.OrderInvisibleIff`, for every state before the call); in a three-task build a task
  that is to run always is then either released or left Pending for good
  (`UnlockOrder.MapOrderShows`).
- A build with conditions can come to rest unfinished. It does so only if some Pending task has a
  Skipped or Cancelled parent (`GraphRuns.RestMeansStranded`). `GraphRuns.RestMeansFinished` names
  graphs to which it cannot happen; that condition is sufficient, not necessary.
- When the callback fails, the capacity is given back but the task stays Scheduled and mapped to the
  worker. If the worker then dies, the task is not failed but stays Scheduled without a worker
  (`SchedulerOutcomes.DeathOutcome`, and `SchedulerOutcomes.TaskDeserted` for a run that gets
  there); and a report for it gives its capacity back a second time, which is the leak in
  `CapacityLedger.LedgerStep`.
- `HandleDeadWorker` comes to the tasks of the worker in map order, and that order can decide
  whether a task with a condition is released or stays Pending for good
  (`LossOrderShows.LossOrderMatters`). It cannot be seen if no task with a condition is below a task
  that a cascade can skip (`LossOrder.LossOrderInvisible`).
- `HandleTaskResult` gives back capacity before the graph can refuse the outcome, and finds what to
  give back by task id alone. For a task that has finished this changes nothing exactly if no task
  of that id is mapped to a worker (`SchedulerOutcomes.LateReportChangesNothingIff`), which is so if
  no two builds share a task id.
- Idle buckets are pruned before they would be full again if `600 * rate < burst`; that can be seen
  from the answers exactly if also `burst >= 1` (`Pruning.PruneInvisibleIff`).
- A secret that starts or ends with a star, or has three stars in a row inside, can survive
  scrubbing; no other can (`Scrubbers.ThoroughIff`).
- Log lines of a task whose id contains `/` or `..` are not found again after a restart
  (`LogReload.ReloadIff`).
- Line numbers can repeat after a restart, exactly if lines were appended to a file that held more
  than the store had for their task, and the store was then restarted (`LogNumbers.NumberedIff`).
- A subscriber that asks for lines from beyond the end of the log receives all lines from the
  present end on (`LogStores.Store.Subscribe`).

## Model

| member | source | states |
|---|---|---|
| Tasks.TransitionsClimb | pkg/dag/task.go:64-69 | every move of the transition table goes forward in the lifecycle, and exactly the terminal states have no move |
| Tasks.EnteredFrom | pkg/dag/task.go:49-69 | from where each state can be entered: Ready, Skipped only from Pending; Scheduled from Ready; Running from Scheduled; Passed, Failed from Running; TimedOut from Scheduled or Running; Cancelled from any unfinished state |
| Tasks.Task.ShouldRunAfterFailure | pkg/dag/task.go:94-96 | true exactly for the two named conditions, never for any other text |
| Tasks.Task.TransitionTo | pkg/dag/task.go:106-133 | succeeds exactly for the thirteen moves of the table, told by the state that is entered; otherwise nothing changes; sets the start time on Running and the finish time on a final state |
| Graphs.Graph.AddTask | pkg/dag/graph.go:29-45 | refuses an empty or used id and then changes nothing; otherwise adds the task, Pending and without dependencies, and nothing else |
| Graphs.Graph.AddEdge | pkg/dag/graph.go:49-62 | refuses missing tasks and self-dependencies; otherwise adds one edge to both maps, which keep mirroring each other |
| Graphs.Graph.Validate | pkg/dag/graph.go:66-110 | succeeds exactly if there is no cycle, and then leaves a permutation of the tasks with parents before children; otherwise names exactly the tasks on or downstream of a cycle |
| Cycles.KahnEnd | pkg/dag/graph.go:79-107 | when the queue is empty, all tasks have been placed exactly if the graph has no cycle, and the tasks left with parents unmet are exactly those on or downstream of one |
| Cycles.LoopedIff | pkg/dag/graph.go:97-107 | a graph has a cycle exactly if some task lies on or downstream of one, so the list of names is empty exactly on success |
| Cycles.TopologicalMeansAcyclic | pkg/dag/graph.go:66-110 | only a graph without cycles has an order with parents before children |
| Graphs.Graph.MarkReady | pkg/dag/graph.go:133-152 | promotes exactly the Pending tasks whose parents were all Passed, in any map order, changes no other state, and lists exactly the Ready tasks, each once |
| Graphs.Graph.SkipDownstream | pkg/dag/graph.go:362-376 | skips exactly the tasks reachable by a path whose every later node was unfinished and has the default condition, in any map order, on cyclic graphs too, and writes each of them once |
| Graphs.UnfinishedShrinks | pkg/dag/graph.go:362-376 | each recursive call of the cascade has strictly fewer unfinished tasks |
| GraphSpec.ClosedIsExact | pkg/dag/graph.go:362-376 | any set of reachable tasks that leaves nothing skippable below it is the whole set of reachable tasks |
| Graphs.Graph.Complete | pkg/dag/graph.go:156-211 | errs exactly if the task is missing or the table forbids the outcome, and then changes nothing; otherwise records outcome, exit code, message and time. A child that waited only for this task is then Ready if its condition text is "always"; Ready or Skipped if it is "on_failure", by whether a parent Failed or timed out; for any other text Skipped below a broken task, and otherwise Ready exactly if all its parents Passed. Every other change is a task that the cascade reaches, by its condition text, or a waiting child with all parents finished, decided the same way. After Failed or TimedOut exactly the tasks that the cascade reaches are newly Skipped. Returned are exactly the children that went from Pending to Ready, each once |
| GraphSpec.CompleteSkipsExactly | pkg/dag/graph.go:171-207 | in any state and any map order, after Complete with Failed or TimedOut the newly Skipped tasks are exactly those reachable from the task by a path whose every later node was unfinished and has the default condition |
| Graphs.Graph.Decide | pkg/dag/graph.go:186-207 | for a task whose parents are finished: "always" gives Ready; "on_failure" gives Ready exactly if some parent Failed or timed out, and Skipped otherwise; any other text gives Ready exactly if all parents Passed, and Pending otherwise |
| ChildVerdicts.FinishedChild | pkg/dag/graph.go:176-208 | from any state and in any map order, a waiting child whose other parents are finished ends as its condition says, whatever siblings are visited before and after it |
| ChildVerdicts.ChangedBy | pkg/dag/graph.go:156-211 | from any state and in any map order, every other task that Complete changes was reached by the cascade, or is a waiting child whose parents are all finished in the end and say so |
| Graphs.Graph.AllDepsComplete | pkg/dag/graph.go:316-323 | whether every parent Passed |
| Graphs.Graph.AllDepsAreTerminal | pkg/dag/graph.go:327-334 | whether every parent is finished |
| Graphs.Graph.AnyDepHasFailed | pkg/dag/graph.go:338-346 | whether some parent Failed or timed out |
| Graphs.Graph.Cancel | pkg/dag/graph.go:214-223 | cancels exactly the unfinished tasks |
| Graphs.Graph.IsComplete | pkg/dag/graph.go:256-265 | whether every task is finished |
| Graphs.Graph.IsPassed | pkg/dag/graph.go:269-279 | whether every task Passed |
| GraphInvariant.RunInv | pkg/dag/graph.go:133-223 | in every reachable state launched tasks have finished parents, Passed ones for the default condition and a broken one for on_failure; no default child of a broken task is Pending; and every Pending task with parents waits for one that has not Passed, Failed or timed out |
| GraphInvariant.RunMovesByTable | pkg/dag/graph.go:133-223 | in every reachable state, every task that a method changes moves as the transition table allows |
| GraphInvariant.CompleteWritesByTable | pkg/dag/graph.go:163-207 | the same of Complete, raw write by raw write: the outcome, each task of the cascade, and each child in turn move by the table from the state that is written over |
| GraphInvariant.CascadeMeetsOnlyPending | pkg/dag/graph.go:171-174 | in every reachable state, the tasks that the cascade of a broken task skips are all Pending, never Ready, Scheduled or Running |
| GraphInvariant.FinishInv | pkg/dag/graph.go:156-211 | Complete keeps the invariant, moves by the table, and changes apart from its task only Pending tasks |
| GraphRuns.ScanPromotesRoots | pkg/dag/graph.go:137-142 | in every reachable state, MarkReady promotes exactly the Pending tasks without parents |
| GraphRuns.LaterScansFindNothing | pkg/dag/graph.go:137-142 | after the first MarkReady of a run, every later one promotes nothing |
| GraphRuns.RestMeansStranded | pkg/dag/graph.go:133-211 | a scanned graph with nothing Ready, Scheduled or Running that is not finished has a Pending task with a Skipped or Cancelled parent |
| GraphRuns.RestIff | pkg/dag/graph.go:133-211 | such a graph is finished exactly if no Pending task has a Skipped or Cancelled parent |
| GraphRuns.RestMeansFinished | pkg/dag/graph.go:133-211 | with results Passed, Failed or TimedOut only, a scanned graph with nothing Ready, Scheduled or Running is finished, if on_failure tasks below others have no children and the parents of tasks with a condition are roots or run always; that is sufficient, and some graphs without it finish too |
| GraphRuns.DefaultRestMeansFinished | pkg/dag/graph.go:133-211 | the same for every graph whose tasks all have the default condition |
| GraphRuns.RestIsFinal | pkg/dag/graph.go:133-223 | an event moves a scanned graph that has come to rest exactly if it finishes a Pending task from outside: a cancellation, or a report that the task is Skipped or Cancelled |
| GraphRuns.ChangesAreBounded | pkg/dag/task.go:64-69 | a build of n tasks changes state at most 4n times in any run |
| GraphRuns.FinishedForGood | pkg/dag/task.go:49-56 | a finished task keeps its state in every continuation of every run |
| UnlockOrder.OrderInvisibleIff | pkg/dag/graph.go:176-208 | when a task completes, from any state, all map orders lead to the same state exactly if there is no Pending child with a condition that still waits for some parent, and only for on_failure children whose own parents are finished and none of them broken |
| UnlockOrder.ContestedMeansEntangled | pkg/dag/graph.go:176-208 | so the order can be seen only where an on_failure child of the task is a parent of another child with a condition |
| UnlockOrder.MapOrderShows | pkg/dag/graph.go:176-208 | a reachable state of a three-task graph in which the order decides whether a task is released or the build comes to rest with it Pending |
| Workers.Info.CanAcceptTask | pkg/worker/registry.go:51-68 | accepts exactly if the state is Active, fewer tasks run than the limit, and neither CPU, memory nor disk falls short |
| Workers.Registry.Register | pkg/worker/registry.go:87-101 | refuses an empty id; otherwise the worker is active and filed under its id, with what it reported untouched |
| Workers.Registry.Heartbeat | pkg/worker/registry.go:111-132 | overwrites what is free and running, field by field, revives a dead worker but not a draining one, and touches no other worker |
| Workers.Registry.ReserveCapacity | pkg/worker/registry.go:190-206 | succeeds exactly if the worker is active, below its limit and has enough of all three resources; then subtracts the need exactly and counts one task more, on that worker alone |
| Workers.Registry.ReleaseCapacity | pkg/worker/registry.go:210-225 | returns the need to that worker alone, wrapping like uint32, and never counts below zero tasks |
| Workers.Registry.CheckHeartbeats | pkg/worker/registry.go:229-245 | declares dead exactly the workers silent for longer than the timeout, and lists each once |
| Workers.Registry.Drain | pkg/worker/registry.go:176-186 | sets one worker draining and touches neither the rest of it nor any other |
| Workers.Registry.ActiveWorkers | pkg/worker/registry.go:150-161 | exactly the workers that are active |
| RegistryCalls.RegisterWorker | pkg/worker/registry.go:87-101 | on the scheduler's state, a registration is the Register action, or nothing for an empty id |
| RegistryCalls.UnregisterWorker | pkg/worker/registry.go:104-108 | a removal is the Unregister action |
| RegistryCalls.WorkerReports | pkg/worker/registry.go:111-132 | a heartbeat is the Heartbeat action |
| RegistryCalls.DrainWorker | pkg/worker/registry.go:176-186 | draining is the action that sets that state |
| RegistryCalls.CheckWorkers | pkg/worker/registry.go:229-245 | declaring workers dead is one such action for each of them, a permitted run |
| Workers.ReleaseUndoesReserve | pkg/worker/registry.go:201-224 | a release right after an accepted reservation restores the worker exactly, wrap-around included |
| Workers.LeftoverIsLeft | pkg/scheduler/scheduler.go:388-397 | the score by which a worker is chosen is what would be left free on it after the reservation, summed over the resources |
| Schedulers.Scheduler.PickWorker | pkg/scheduler/scheduler.go:375-407 | picks an active worker with room that would have the least CPU, memory and disk left over in sum; errs exactly if every worker is inactive, full or short of a resource |
| Schedulers.Scheduler.Try | pkg/scheduler/scheduler.go:145-200 | one Ready task: either no worker fits and nothing changes, or it is dispatched to a best fit: the reservation and both transitions always succeed, the task is Running, or Scheduled if the callback failed, is mapped to that worker, which counts for the build, and the worker has that much less free, or as much as before if the callback failed |
| Schedulers.Scheduler.ScanBuild | pkg/scheduler/scheduler.go:131-138 | promotes, lists exactly the Ready tasks, and sets the start time once, only if there are any |
| Schedulers.Scheduler.Schedule | pkg/scheduler/scheduler.go:124-205 | performs only scans and permitted best-fit dispatches and counts the delivered ones; if not interrupted, even with failed callbacks, afterwards every Pending task of every build has a parent that has not Passed, and no worker accepts any Ready task |
| ScheduleCycle.DispatchKeepsNoneAccepting | pkg/scheduler/scheduler.go:156-189 | a worker that could not take a task cannot take it after another dispatch, even a failed one |
| Schedulers.Scheduler.HandleTaskResult | pkg/scheduler/scheduler.go:210-271 | for any outcome, which error when; otherwise gives back the capacity, unmaps the task and completes it with its exit code and message; tells of the end of the build exactly when every task of it is finished, then sets the finish time, and says that it passed exactly if every task Passed; for the outcomes that a report can carry, the run is a permitted one |
| Schedulers.Scheduler.Cancel | pkg/scheduler/scheduler.go:274-300 | gives back the capacity of every mapped task of the build and unmaps exactly its tasks, then turns exactly its unfinished tasks to Cancelled, and sets the finish time |
| Schedulers.Scheduler.HandleDeadWorker | pkg/scheduler/scheduler.go:349-371 | reports Failed for exactly the tasks mapped to the worker whose builds are known, and drops exactly their mappings |
| Schedulers.Scheduler.SubmitBuild | pkg/scheduler/scheduler.go:96-120 | refuses a used build id and changes nothing; otherwise files the build, in whatever state it is, and records the build of each of its tasks and of no other; if none is started, the action is a permitted one |
| Schedulers.Scheduler.GiveBack | pkg/scheduler/scheduler.go:225-228 | releases and unmaps one task if it is mapped, and nothing otherwise |
| SchedulerInvariant.RunReachable | pkg/scheduler/scheduler.go:96-371 | in every state of every run, whether or not builds share task ids, every build has an acyclic graph and keeps the invariant of graph runs |
| BuildRuns.BuildRun | pkg/scheduler/scheduler.go:96-371 | the state of every build is where a legal run of its graph leads, namely that of the scans, dispatches, reports and cancellations made with it |
| BuildRuns.BuildAtRest | pkg/scheduler/scheduler.go:124-205 | after a cycle that was not interrupted, a build with nothing Ready, Scheduled or Running is finished exactly if it has no Pending task with a Skipped or Cancelled parent |
| BuildRuns.BuildFinishes | pkg/scheduler/scheduler.go:124-271 | and it is finished if its results were Passed, Failed or TimedOut only and its graph meets the condition of RestMeansFinished |
| BuildRuns.BuildChangesBounded | pkg/dag/task.go:64-69 | over every run of the scheduler the tasks of a build of n tasks change state at most 4n times |
| SchedulerInvariant.RunSound | pkg/scheduler/scheduler.go:66-69 | in every state of every run without shared task ids, each task is owned by its build, and every mapped task is Scheduled or Running there |
| SchedulerInvariant.MappedState | pkg/scheduler/scheduler.go:66-67 | without shared task ids, a mapped task is Scheduled or Running in whichever build has it |
| SchedulerOutcomes.RunsCompose | pkg/scheduler/scheduler.go:96-371 | the runs of successive method calls are one permitted run to the same state |
| SchedulerOutcomes.LateReportChangesNothingIff | pkg/scheduler/scheduler.go:224-234 | a report for a finished task changes neither graph nor mapping nor capacity exactly if no task of that id is mapped to a worker |
| SchedulerOutcomes.LateReportChangesNothing | pkg/scheduler/scheduler.go:210-234 | so, without shared task ids, a report for a finished task changes nothing, whatever has happened since |
| SchedulerOutcomes.CancelOutcome | pkg/scheduler/scheduler.go:274-300 | cancelling finishes that build alone, and unmaps exactly the ids of its tasks, from any state |
| SchedulerOutcomes.DeathOutcome | pkg/scheduler/scheduler.go:349-371 | in any map order, of all tasks of all builds that have left Pending, exactly the Running ones that were lost with the worker become Failed; exactly the lost ones are unmapped, and no worker's capacity changes |
| LossOrder.LossesAre | pkg/scheduler/scheduler.go:349-371 | if no task with a condition is below one that a cascade can skip, the death of a worker does to every task, Pending ones included, what failing all its running tasks at once does: one cascade from all of them, and the release of the tasks with a condition whose parents are then finished |
| LossOrder.LossOrderInvisible | pkg/scheduler/scheduler.go:353-362 | so neither the map order of the tasks nor that of their children can be seen then |
| LossOrderShows.LossOrderMatters | pkg/scheduler/scheduler.go:353-362 | otherwise it can: a run of a four-task graph in which the order of two losses decides whether a task is released or the build comes to rest with it Pending |
| LossOrder.BrokenUnlock | pkg/dag/graph.go:176-208 | visiting the children of a broken task releases exactly those with a condition whose parents are all finished, in any order |
| SchedulerOutcomes.TaskDeserted | pkg/scheduler/scheduler.go:185-189 | a run with a failed callback and a dead worker after which the task is still Scheduled and on no worker |
| DispatchHistory.DispatchedOnce | pkg/scheduler/scheduler.go:140-201 | over every run, also when builds share task ids, the callback names each task of each build at most once |
| DispatchHistory.DispatchedAfterParents | pkg/scheduler/scheduler.go:140-201 | when a task is dispatched all its parents are finished, and for the default condition all have been dispatched and Passed |
| DispatchHistory.DispatchedOnFailure | pkg/dag/graph.go:190-197 | an on_failure task with parents is dispatched only when one of them Failed or timed out |
| CapacityLedger.LedgerStep | pkg/worker/registry.go:190-225 | without shared task ids, every action other than the worker's own registration, removal or heartbeat changes what is free plus what is mapped, per resource, by exactly its leak: a failed dispatch, the write-off of a lost task, a release that wraps around, or one that the guard on the task count swallows |
| CapacityLedger.Conserved | pkg/scheduler/scheduler.go:155-292 | over every run without shared task ids and without a registration, removal or heartbeat of the worker, what is free plus what is mapped has changed by exactly the leaks, with no bound on either |
| CapacityLedger.FreshWorkerConserved | pkg/scheduler/scheduler.go:155-292 | from a worker without tasks, over such runs with dispatches delivered and no death, initial capacity is current capacity plus the needs of the mapped tasks, for all four resources |
| CapacityLedger.EveryMoveExact | pkg/worker/registry.go:190-225 | from any state in which the worker's ledger is within bounds, with tasks mapped or not, over such runs every reservation and every release on it is exact: no uint32 wraps, and the guard on the task count never fires |
| CapacityLedger.StaysWithin | pkg/worker/registry.go:190-225 | over such runs the ledger does not move |
| CapacityLedger.FreshWorkerTaskCount | pkg/worker/registry.go:204-224 | its running count has grown by exactly the number of tasks mapped to it |
| CapacityLedger.ReserveIsExact | pkg/worker/registry.go:201-204 | an accepted reservation never wraps below zero |
| CapacityLedger.ReturnIsExact | pkg/worker/registry.go:219-224 | while the ledger is within bounds, giving back a mapped task never wraps and never meets the guard on the task count |
| RateLimits.RateLimiter.Allow | cmd/master/ratelimit.go:47-71 | refills by the time passed, up to the burst, a new key being full; accepts exactly if there is a whole token then, and takes one from that key alone |
| RateLimits.RateLimiter.Prune | cmd/master/ratelimit.go:73-82 | deletes exactly the buckets idle for more than ten minutes |
| RateLimits.RunSane | cmd/master/ratelimit.go:58-69 | after any calls in order of time, every bucket holds between zero tokens and the burst |
| RateLimits.RateBound | cmd/master/ratelimit.go:47-71 | in any window of any run, at most burst + rate * length calls with one key are accepted, with pruning too if 600 * rate >= burst |
| Pruning.PruneInvisibleIff | cmd/master/ratelimit.go:47-82 | pruning never changes an answer exactly if burst < 1 or 600 * rate >= burst |
| Scrubbers.Scrubber.constructor | pkg/secrets/store.go:143-153 | keeps exactly the values of at least three bytes, in order |
| Scrubbers.AllKeptInOrder | pkg/secrets/store.go:143-153 | values are kept independently of one another, in their order and with repetitions |
| Scrubbers.Scrubber.AddValue | pkg/secrets/store.go:169-177 | adds the value at the end, if it is long enough |
| Scrubbers.Scrubber.Scrub | pkg/secrets/store.go:156-166 | replaces the values one after the other in the order of registration, each by three stars in the result of the last |
| Scrubbers.NoneLeft | pkg/secrets/store.go:156-166 | a value without a star at either end or three in a row never occurs in the result, whatever the other values |
| Scrubbers.ThoroughIff | pkg/secrets/store.go:143-177 | scrubbers over a set of values always remove all of them exactly if each value is of that kind |
| Scrubbers.ScrubTwice | pkg/secrets/store.go:156-166 | for such values scrubbing twice is scrubbing once |
| Texts.OccurrenceOrigin | pkg/secrets/store.go:161-164 | an occurrence after replacing, of a word that no replacement can touch, was there before, and is not of the word replaced |
| Texts.ReplaceFirst | pkg/secrets/store.go:161-164 | replacing goes by leftmost occurrences that do not overlap |
| LogStores.Subscriber.Send | pkg/logstore/store.go:38-49 | a closed subscriber takes nothing, a full one drops the line, and what was sent stays an excerpt of the log, all of it if none was dropped |
| LogStores.Subscriber.Close | pkg/logstore/store.go:52-59 | closes and keeps what was sent |
| LogStores.SentInOrder | pkg/logstore/store.go:112-153 | in a log numbered by places, what is sent has strictly increasing line numbers, and is exactly the log from its start to its end, or to where the subscriber was closed, if no send met a full buffer |
| LogStores.ClosedFollows | pkg/logstore/store.go:144-153 | what a closed subscriber was sent stays an excerpt of the log however it grows |
| LogStores.Store.Append | pkg/logstore/store.go:112-141 | each line gets the task, the next number and, if it has none, the time, and keeps text and stream; the lines are appended in order to memory and file, and each open buffer takes as many as fit; a store that is where a run of appends and restarts leads goes on by this append |
| LogStores.Store.Subscribe | pkg/logstore/store.go:180-198 | refused for a completed task; panics, with nothing changed, for a negative start; otherwise the buffer has the first 256 lines of the log from the place asked for, or from its end |
| LogStores.Store.Complete | pkg/logstore/store.go:144-153 | closes every subscriber of the task after it has been offered the whole log, and forgets them |
| LogStores.Store.Get | pkg/logstore/store.go:156-175 | panics exactly for a negative offset and where offset plus limit wraps around; otherwise the lines from the offset on, at most as many as a positive limit, and the length of the log |
| LogStores.Store.WithFile | pkg/logstore/store.go:82-109 | what is loaded is, per file, some sorting by line number of its records; this is the restart of any run that left these files |
| LogStores.FileBackend.Append | pkg/logstore/file.go:39-62 | appends one record for each line, with its task, number, time, text and stream, to the file of the task and touches no other |
| LogStores.FileBackend.Load | pkg/logstore/file.go:65-100 | some sorting of the file's records by line number; nothing for a missing file |
| LogSpec.FileNameSafe | pkg/logstore/file.go:119-123 | a file name has no slash and no two dots in a row, and is the task id itself exactly if the id has none |
| LogSpec.FileNameSlashes | pkg/logstore/file.go:119-123 | without two dots in a row, the file name is the id with an underscore for each slash |
| LogSpec.FileNameDots | pkg/logstore/file.go:119-123 | without slashes, the first two dots in a row become one underscore, and the rest is treated the same |
| LogSpec.ContiguousSorting | pkg/logstore/file.go:95-97 | lines numbered 0, 1, 2 and so on have only one sorting, themselves |
| LogReload.ReloadIff | pkg/logstore/store.go:82-133 | after any appends and restarts, a store that has just started has every line ever appended, per task and with contiguous numbers, exactly if no line was for a task id with a slash or two dots in a row |
| LogReload.ReloadedTexts | pkg/logstore/store.go:82-133 | then every log has, in order, the texts and streams of all batches that were appended for its task, numbered from zero |
| LogNumbers.NumberedIff | pkg/logstore/store.go:116-121 | after any appends and restarts, line i of every log has number i exactly if no append numbered from a place that was not the end of its file has been followed by a restart |
| LogNumbers.NumberedWithoutRestart | pkg/logstore/store.go:112-127 | so line i has number i in a store that has not been restarted, whatever the task ids |
| LogNumbers.NumberedWhenSafe | pkg/logstore/store.go:82-127 | and over any restarts if every line is for a task id without a slash or two dots in a row |
| Pipelines.BuildGraph | pkg/pipeline/parser.go:48-330 | succeeds exactly if the configuration is well-formed and no task depends on itself through others; every error is true of the configuration, and it is the first in the order of the steps. On success: the tasks are the declared ones and those of the integrations that are enabled, all Pending; a declared task has its own name, condition, CPU, memory and disk, with the default for each need that is zero, and waits for exactly what it depends on; each integration has its fixed needs and waits for exactly those of the tasks it looks for that exist; the order is topological |
| PipelineMeaning.ProgramIff | pkg/pipeline/parser.go:48-330 | a graph is built exactly if ids are there and differ, dependencies are on other tasks that exist, every tool has an image or a known name, SonarQube has server and project, a review has a key, a server or the local provider, and no id of an integration is taken; it is then the user's graph with the integrations added |
| PipelineMeaning.UserTask | pkg/pipeline/parser.go:51-69 | a declared task has its own needs or the default for each, and exactly its dependsOn as parents, whatever integrations are added |
| PipelineMeaning.AutoTask | pkg/pipeline/parser.go:154-330 | an integration has the needs of its step and, of the tasks it looks for, exactly those that exist as parents |
| PipelineMeaning.OnlyThese | pkg/pipeline/parser.go:48-80 | there is no task but the declared ones and those of enabled integrations |
| PipelineMeaning.CircularIff | pkg/pipeline/parser.go:82-84 | the graph has a cycle exactly if some task depends on itself through others |
| PipelineErrors.ErrorJustified | pkg/pipeline/parser.go:48-330 | every error names something that is wrong with the configuration |
| Pipelines.AddIntegration | pkg/pipeline/parser.go:173-192 | one integration task below those of the sought tasks that exist; no AddEdge whose error is discarded ever fails |
| Pipelines.AddLinterTasks | pkg/pipeline/parser.go:154-196 | a task for each linter, or the first error: no image known, or the id taken |
| Pipelines.AddSonarTask | pkg/pipeline/parser.go:200-246 | errors for a missing server or project key; otherwise the task, below compile, test, build and clone if they exist |
| Pipelines.AddSecurityTasks | pkg/pipeline/parser.go:295-330 | a task for each scanner, or the first error |
| Pipelines.AddCodeReviewTask | pkg/pipeline/parser.go:251-292 | an error if a key is needed and missing; otherwise the task |
| PipelineSinks.CycleIsTheUsers | pkg/pipeline/parser.go:48-87 | whenever all integration tasks are added, the graph has a cycle exactly if the user's own tasks have one, and is otherwise the user's graph with childless tasks added below exactly the sought tasks |
| PipelineSinks.AutoIsAuto | pkg/pipeline/parser.go:160-325 | no integration task has the name of a task that integrations look for |

## Left out

- gRPC and HTTP handlers, webhooks, SCM clients, MCP tools, CLI, web UI, generated protobuf code: plumbing over libraries.
- The worker's executor and container control: of it only the outcomes a report can carry are used (cmd/master/grpc_worker.go:472-487).
- Persistence of builds in pkg/store: the scheduler writes back only the reported task, so nothing is claimed about it.
- Logging, metrics and audit; and the secret map, digest store and other plain map updates, which would only add easy members.
- Graph.Ready, Dependencies, Dependents, Size, the order in which Graph.Tasks lists tasks, Registry.Get, All and Size, and the scheduler's GetBuild, ListBuilds, FindBuildByTask and BuildWorkers: read-only listings (the last drops one tracking entry).
- AddTask and AddEdge after Validate: runs are over a fixed graph.
- CapacityLedger.Conserved: asks that no two builds share a task id, because taskWorker and taskBuild are keyed by task id alone; so do LedgerStep, FreshWorkerConserved, FreshWorkerTaskCount, EveryMoveExact, RunSound and LateReportChangesNothing. The methods and the other theorems do not.
- Schedulers.Scheduler.SubmitBuild: asks for a validated graph, as the source does, and one that shares no task object with another build.
- Schedulers.Scheduler.Schedule: says nothing about clock readings in tasks; the start time of a build is stated for ScanBuild.
- Schedulers.Scheduler.HandleDeadWorker: says nothing of the exit code and message that it records with each lost task; LoseTask, which it calls for each, does.
- SchedulerSpec's view of workers has no totals, labels, addresses or heartbeat times.
- Races between goroutines: each method is one step, and a log reader takes lines only between steps.
- RateLimits.RateBound: is over the reals; floating-point rounding of tokens is not modelled, nor settings that parse to NaN.
- LogStores.FileBackend.Append: errors of opening the file and of encoding are not modelled; the store ignores them.
- LogStores.FileBackend.Load: malformed records, which are left out when loading, and errors of reading are not modelled.
- LogStores.Store.WithFile: errors of listing and loading the files are not modelled.
- LogReload.ReloadIff: takes writes to succeed and the record encoding to be faithful, and leaves out lines too long for the scanner's buffer and file systems that ignore case.
- Texts and Scrubbers: text is a sequence of bytes; what regular expressions do with invalid UTF-8 is not modelled.
- Images, commands, environments, caches, timeouts and secret references of pipeline tasks: of an image only whether there is one matters to the graph.
- YAML decoding and the defaults that Parse fills in: BuildGraph starts from a configuration value.
